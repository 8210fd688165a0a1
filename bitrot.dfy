/**
 BitRot's decay transform: an image and an integrity value (1 = pristine,
 0 = destroyed) give a degraded image. Two effect stages run in a fixed
 order, a structural glitch (shrink, then blow back up) and a surface grain
 (additive noise, clipped to the 8-bit range), followed by a desaturation
 step that changes nothing. The JPEG quality used when the result is saved
 is a separate function of the raw integrity.

 Everything is exact `real` arithmetic. The image library's resize and the
 Gaussian draw are parameters of the model, constrained only by when the
 resize is accepted and by the shape of what they return.
 */
module Bitrot {

  datatype Option<T> = None | Some(value: T)

  // ---------------------------------------------------------------------
  // Images
  // ---------------------------------------------------------------------

  /** An RGB raster of `width` x `height` pixels; `channels` holds the
      three channel values of every pixel, flattened. */
  datatype Image = Image(width: nat, height: nat, channels: seq<int>)

  /** Channels per pixel: every image the transform sees is in RGB mode. */
  const ChannelsPerPixel: nat := 3

  /** Largest value of an unsigned 8-bit channel. */
  const MaxChannel: int := 255

  predicate IsByte(v: int) {
    0 <= v <= MaxChannel
  }

  /** The buffer has one 8-bit value per channel of every pixel. */
  predicate WellFormed(img: Image) {
    |img.channels| == ChannelsPerPixel * img.width * img.height &&
    forall i :: 0 <= i < |img.channels| ==> IsByte(img.channels[i])
  }

  /** The image library's `resize(size, NEAREST)`: how pixels are sampled
      is not modelled, only whether the call is accepted and the size of
      what comes back. */
  type Resizer = (Image, nat, nat) -> Image

  /** The library's rule for `resize`: a request for the image's own size
      is answered with a copy, and any other request needs both sides to
      be at least one pixel (otherwise it raises `ValueError`). */
  predicate ResizeAccepts(from: (nat, nat), to: (nat, nat)) {
    from == to || (to.0 >= 1 && to.1 >= 1)
  }

  /** An accepted resize returns an RGB image of exactly the requested size. */
  ghost predicate ResizeHonoursSize(resize: Resizer) {
    forall img: Image, w: nat, h: nat ::
      ResizeAccepts((img.width, img.height), (w, h)) ==>
        resize(img, w, h).width == w && resize(img, w, h).height == h &&
        (WellFormed(img) ==> WellFormed(resize(img, w, h)))
  }

  /** The normal draw `np.random.normal(0, sd, shape)`: given the standard
      deviation and the number of values, one draw of that many samples. */
  type Sampler = (real, nat) -> seq<real>

  /** A draw has exactly the requested number of samples. */
  ghost predicate DrawsRequestedCount(sample: Sampler) {
    forall sd, n :: |sample(sd, n)| == n
  }

  /** `image.convert("RGB")`: every image the transform sees is already in
      RGB mode, so the conversion gives back the same size and pixels. */
  function ConvertToRgb(img: Image): (r: Image)
    ensures r.width == img.width && r.height == img.height
    ensures r.channels == img.channels
  {
    img
  }

  // ---------------------------------------------------------------------
  // Numeric helpers
  // ---------------------------------------------------------------------

  function Max(a: real, b: real): real {
    if a >= b then a else b
  }

  function Min(a: real, b: real): real {
    if a <= b then a else b
  }

  /** Python's `int(x)` on a float: truncation toward zero. */
  function Truncate(x: real): (r: int)
    ensures x >= 0.0 ==> 0 <= r && r as real <= x < r as real + 1.0
    ensures x < 0.0 ==> r <= 0 && r as real - 1.0 < x <= r as real
  {
    if x >= 0.0 then x.Floor else -((-x).Floor)
  }

  // ---------------------------------------------------------------------
  // Integrity and damage
  // ---------------------------------------------------------------------

  /** `max(0.0, min(1.0, integrity))`: out-of-range values are clamped. */
  function Clamp(integrity: real): (r: real)
    ensures 0.0 <= r <= 1.0
    ensures 0.0 <= integrity <= 1.0 ==> r == integrity
    ensures integrity < 0.0 ==> r == 0.0
    ensures integrity > 1.0 ==> r == 1.0
  {
    Max(0.0, Min(1.0, integrity))
  }

  /** `1.0 - integrity` after clamping. */
  function DamageLevel(integrity: real): (d: real)
    ensures 0.0 <= d <= 1.0
    ensures d == 0.0 <==> integrity >= 1.0
    ensures d == 1.0 <==> integrity <= 0.0
  {
    1.0 - Clamp(integrity)
  }

  /** Clamping decides each of the transform's gates exactly as the raw
      value would: the pristine test, the glitch gate and the
      desaturation gate. */
  lemma ClampKeepsGates(integrity: real, threshold: real)
    requires 0.0 < threshold <= 1.0
    ensures Clamp(integrity) >= 1.0 <==> integrity >= 1.0
    ensures Clamp(integrity) < threshold <==> integrity < threshold
  {
  }

  // ---------------------------------------------------------------------
  // Grain stage: `_apply_grain`
  // ---------------------------------------------------------------------

  /** `noise_range / 2` with `noise_range = intensity * 255`. */
  function NoiseStdDev(intensity: real): (sd: real)
    ensures intensity > 0.0 ==> sd > 0.0
    ensures intensity <= 0.5 ==> sd <= 63.75
    ensures intensity <= 1.0 ==> sd <= 127.5
  {
    (intensity * 255.0) / 2.0
  }

  /** `np.clip(x, 0, 255).astype(np.uint8)` on one value. */
  function ClipToByte(x: real): (r: int)
    ensures IsByte(r)
    ensures x <= 0.0 ==> r == 0
    ensures x >= MaxChannel as real ==> r == MaxChannel
    ensures 0.0 <= x <= MaxChannel as real ==> r as real <= x < r as real + 1.0
  {
    Truncate(Max(0.0, Min(MaxChannel as real, x)))
  }

  /** Every channel value plus its noise sample, clipped and truncated:
      the array expression `np.clip(img_array + noise, 0, 255).astype(np.uint8)`. */
  function NoisyChannels(values: seq<int>, noise: seq<real>): (r: seq<int>)
    requires |noise| == |values|
    ensures |r| == |values|
    ensures forall i :: 0 <= i < |r| ==> r[i] == ClipToByte(values[i] as real + noise[i])
    ensures forall i :: 0 <= i < |r| ==> IsByte(r[i])
  {
    if values == [] then []
    else [ClipToByte(values[0] as real + noise[0])] + NoisyChannels(values[1..], noise[1..])
  }

  /** Zero noise on 8-bit values leaves the buffer as it was. */
  lemma SilentNoiseKeepsChannels(values: seq<int>, noise: seq<real>)
    requires |noise| == |values|
    requires forall i :: 0 <= i < |values| ==> IsByte(values[i]) && noise[i] == 0.0
    ensures NoisyChannels(values, noise) == values
  {
    var r := NoisyChannels(values, noise);
    forall i | 0 <= i < |values|
      ensures r[i] == values[i]
    {
      assert r[i] == ClipToByte(values[i] as real);
    }
  }

  /** The grain stage. A non-positive intensity returns the image as it is;
      otherwise one noise sample with standard deviation
      `NoiseStdDev(intensity)` is drawn per channel value and added. */
  function Grain(img: Image, intensity: real, sample: Sampler): (r: Image)
    requires DrawsRequestedCount(sample)
    ensures r.width == img.width && r.height == img.height
    ensures intensity <= 0.0 ==> r == img
    ensures intensity > 0.0 ==>
      var noise := sample(NoiseStdDev(intensity), |img.channels|);
      |r.channels| == |img.channels| &&
      forall i :: 0 <= i < |r.channels| ==>
        r.channels[i] == ClipToByte(img.channels[i] as real + noise[i])
    ensures intensity > 0.0 ==> forall i :: 0 <= i < |r.channels| ==> IsByte(r.channels[i])
    ensures WellFormed(img) ==> WellFormed(r)
  {
    if intensity <= 0.0 then img
    else
      var noise := sample(NoiseStdDev(intensity), |img.channels|);
      img.(channels := NoisyChannels(img.channels, noise))
  }

  // ---------------------------------------------------------------------
  // Glitch stage: `_apply_glitch`
  // ---------------------------------------------------------------------

  /** Intensities below this leave the glitch stage without effect. */
  const GlitchThreshold: real := 0.3

  /** `max(0.1, 1.0 - intensity * 0.8)`. */
  function ScaleFactor(intensity: real): (f: real)
    ensures f >= 0.1
    ensures intensity >= 0.0 ==> f <= 1.0
    ensures intensity <= 1.0 ==> f >= 0.2
  {
    Max(0.1, 1.0 - intensity * 0.8)
  }

  /** The 0.1 floor only matters above intensity 1.125, so on [0, 1] the
      factor is the plain linear one and bottoms out at 20%. */
  lemma ScaleFloorThreshold(intensity: real)
    ensures ScaleFactor(intensity) == if intensity <= 1.125 then 1.0 - intensity * 0.8 else 0.1
    ensures ScaleFactor(1.0) == 0.2
  {
  }

  /** `side * factor` for a whole number of pixels, written as repeated
      addition so that the solver reasons about it linearly;
      `ScaledIsProduct` shows it is the product. */
  function Scaled(side: nat, f: real): real {
    if side == 0 then 0.0 else Scaled(side - 1, f) + f
  }

  lemma {:induction false} ScaledIsProduct(side: nat, f: real)
    ensures Scaled(side, f) == side as real * f
  {
    if side > 0 {
      ScaledIsProduct(side - 1, f);
    }
  }

  /** Scaling a side by a larger factor never gives a smaller product. */
  lemma {:induction false} ScaledMonotone(side: nat, x: real, y: real)
    requires x <= y
    ensures Scaled(side, x) <= Scaled(side, y)
  {
    if side > 0 {
      ScaledMonotone(side - 1, x, y);
    }
  }

  /** A side scaled by a factor in [0, 1] stays in [0, side]. */
  lemma ScaledSideBounds(side: nat, f: real)
    requires f >= 0.0
    ensures 0.0 <= Scaled(side, f)
    ensures f <= 1.0 ==> Scaled(side, f) <= side as real
  {
    ScaledMonotone(side, 0.0, f);
    ScaledIsProduct(side, 0.0);
    if f <= 1.0 {
      ScaledMonotone(side, f, 1.0);
      ScaledIsProduct(side, 1.0);
    }
  }

  /** `int(side * scale_factor)`: one side of the intermediate size. */
  function ShrunkSide(side: nat, intensity: real): (s: nat)
    ensures s as real <= Scaled(side, ScaleFactor(intensity)) < s as real + 1.0
    ensures intensity >= 0.0 ==> s <= side
  {
    ScaledSideBounds(side, ScaleFactor(intensity));
    Truncate(Scaled(side, ScaleFactor(intensity)))
  }

  /** The lower the integrity (the higher the intensity), the smaller the
      scale factor and the intermediate size. */
  lemma ShrinkMonotone(side: nat, a: real, b: real)
    requires a <= b
    ensures ScaleFactor(b) <= ScaleFactor(a)
    ensures ShrunkSide(side, b) <= ShrunkSide(side, a)
  {
    ScaledMonotone(side, ScaleFactor(b), ScaleFactor(a));
  }

  /** At or above the glitch threshold the factor is at most 0.76, so a
      side of at least one pixel always loses at least one pixel. */
  lemma GlitchShrinksStrictly(side: nat, intensity: real)
    requires intensity >= GlitchThreshold
    ensures side >= 1 ==> ShrunkSide(side, intensity) < side
  {
    ScaledMonotone(side, ScaleFactor(intensity), 0.76);
    ScaledIsProduct(side, 0.76);
  }

  /** With a scale factor of at least 20%, a side of five pixels or more
      never shrinks to zero. */
  lemma WideSideNeverVanishes(side: nat, intensity: real)
    requires side >= 5 && intensity <= 1.0
    ensures ShrunkSide(side, intensity) >= 1
  {
    ScaledMonotone(side, 0.2, ScaleFactor(intensity));
    ScaledIsProduct(side, 0.2);
  }

  /** The size the glitch stage shrinks a `w` x `h` image to, or `None`
      when the intensity is below the threshold and nothing is resized. */
  function GlitchTarget(w: nat, h: nat, intensity: real): (t: Option<(nat, nat)>)
    ensures t.None? <==> intensity < GlitchThreshold
    ensures t.Some? ==> t.value.0 <= w && t.value.1 <= h
    ensures t.Some? ==> t.value.0 as real <= Scaled(w, ScaleFactor(intensity)) < t.value.0 as real + 1.0
    ensures t.Some? ==> t.value.1 as real <= Scaled(h, ScaleFactor(intensity)) < t.value.1 as real + 1.0
  {
    if intensity < GlitchThreshold then None
    else Some((ShrunkSide(w, intensity), ShrunkSide(h, intensity)))
  }

  /** The glitch stage: shrink to the target size, then resize back to the
      original size, both with nearest-neighbour sampling. `None` is the
      library's `ValueError` for a target side of zero pixels. */
  function Glitch(img: Image, intensity: real, resize: Resizer): (r: Option<Image>)
    requires ResizeHonoursSize(resize)
    ensures intensity < GlitchThreshold ==> r == Some(img)
    ensures r.None? <==>
      intensity >= GlitchThreshold && (img.width, img.height) != (0, 0) &&
      (ShrunkSide(img.width, intensity) == 0 || ShrunkSide(img.height, intensity) == 0)
    ensures r.Some? && intensity >= GlitchThreshold ==>
      r.value == resize(resize(img, ShrunkSide(img.width, intensity), ShrunkSide(img.height, intensity)),
                        img.width, img.height)
    ensures r.Some? ==> r.value.width == img.width && r.value.height == img.height
    ensures r.Some? && WellFormed(img) ==> WellFormed(r.value)
  {
    match GlitchTarget(img.width, img.height, intensity)
    case None => Some(img)
    case Some((smallW, smallH)) =>
      GlitchShrinksStrictly(img.width, intensity);
      GlitchShrinksStrictly(img.height, intensity);
      if !ResizeAccepts((img.width, img.height), (smallW, smallH)) then None
      else
        var small := resize(img, smallW, smallH);
        if !ResizeAccepts((small.width, small.height), (img.width, img.height)) then None
        else Some(resize(small, img.width, img.height))
  }

  /** No lower bound of one pixel is enforced: for intensity at or above
      the threshold a one-pixel side always shrinks to zero, and the
      glitch stage then fails. */
  lemma OnePixelSideShrinksToZero(img: Image, intensity: real, resize: Resizer)
    requires ResizeHonoursSize(resize)
    requires intensity >= GlitchThreshold && (img.width == 1 || img.height == 1)
    ensures ShrunkSide(1, intensity) == 0
    ensures GlitchTarget(1, 1, intensity) == Some((0, 0))
    ensures Glitch(img, intensity, resize).None?
  {
    GlitchShrinksStrictly(1, intensity);
  }

  // ---------------------------------------------------------------------
  // Orchestration: `degrade`
  // ---------------------------------------------------------------------

  /** The desaturation step below integrity 0.8: it only re-asserts RGB
      mode, so on either branch no pixel changes. */
  function Desaturate(img: Image, level: real): (r: Image)
    ensures r == img
  {
    if level < 0.8 then ConvertToRgb(img) else img
  }

  /** The transform's pipeline, stage by stage: clamp, return early when
      pristine, glitch below integrity 0.5, grain always, and the
      desaturation step below 0.8. `None` is the glitch stage's resize
      failure, which escapes `degrade` as an exception. */
  function Degrade(img: Image, integrity: real, resize: Resizer, sample: Sampler): (r: Option<Image>)
    requires ResizeHonoursSize(resize) && DrawsRequestedCount(sample)
    ensures integrity >= 1.0 ==> r == Some(img)
    ensures r.None? <==>
      integrity < 0.5 && (img.width, img.height) != (0, 0) &&
      (ShrunkSide(img.width, DamageLevel(integrity)) == 0 ||
       ShrunkSide(img.height, DamageLevel(integrity)) == 0)
    ensures r.Some? ==> r.value.width == img.width && r.value.height == img.height
    ensures r.Some? && integrity < 1.0 ==>
      forall i :: 0 <= i < |r.value.channels| ==> IsByte(r.value.channels[i])
    ensures r.Some? && WellFormed(img) ==> WellFormed(r.value)
  {
    var level := Clamp(integrity);
    if level >= 1.0 then Some(img)
    else
      var damage := 1.0 - level;
      var glitched := if level < 0.5 then Glitch(img, damage, resize) else Some(img);
      match glitched
      case None => None
      case Some(g) => Some(Desaturate(Grain(g, damage * 0.5, sample), level))
  }

  /** `degrade` succeeds on every image whose sides are at least five
      pixels, and on every image from integrity 0.5 up. */
  lemma DegradeSucceeds(img: Image, integrity: real, resize: Resizer, sample: Sampler)
    requires ResizeHonoursSize(resize) && DrawsRequestedCount(sample)
    requires (img.width >= 5 && img.height >= 5) || integrity >= 0.5
    ensures Degrade(img, integrity, resize, sample).Some?
  {
    if integrity < 0.5 {
      WideSideNeverVanishes(img.width, DamageLevel(integrity));
      WideSideNeverVanishes(img.height, DamageLevel(integrity));
    }
  }

  /** What `degrade` decides from the integrity alone: either nothing is
      done, or the glitch intensity (when the glitch stage runs), the grain
      intensity and whether the RGB re-conversion happens. */
  datatype DecayPlan =
    | Untouched
    | Decayed(glitch: Option<real>, grain: real, reconvert: bool)

  function PlanOf(integrity: real): (p: DecayPlan)
    ensures p.Untouched? <==> integrity >= 1.0
    ensures p.Decayed? ==> (p.glitch.Some? <==> integrity < 0.5)
    ensures p.Decayed? ==> (p.reconvert <==> integrity < 0.8)
    ensures p.Decayed? && p.glitch.Some? ==> p.glitch.value == DamageLevel(integrity)
    ensures p.Decayed? ==> p.grain == DamageLevel(integrity) * 0.5
  {
    var level := Clamp(integrity);
    if level >= 1.0 then Untouched
    else
      var damage := 1.0 - level;
      Decayed(if level < 0.5 then Some(damage) else None, damage * 0.5, level < 0.8)
  }

  /** The image after the structural stage of a plan, or `None` when its
      resize fails. */
  function AfterGlitch(p: DecayPlan, img: Image, resize: Resizer): Option<Image>
    requires ResizeHonoursSize(resize)
  {
    if p.Decayed? && p.glitch.Some? then Glitch(img, p.glitch.value, resize) else Some(img)
  }

  /** `degrade` carries out its plan: untouched input comes back as it is,
      otherwise the result is the grain stage applied, with the planned
      intensity, to the output of the planned glitch stage; the
      desaturation step changes no pixel. */
  lemma DegradeFollowsPlan(img: Image, integrity: real, resize: Resizer, sample: Sampler)
    requires ResizeHonoursSize(resize) && DrawsRequestedCount(sample)
    ensures PlanOf(integrity).Untouched? ==> Degrade(img, integrity, resize, sample) == Some(img)
    ensures PlanOf(integrity).Decayed? ==>
      Degrade(img, integrity, resize, sample) ==
      match AfterGlitch(PlanOf(integrity), img, resize)
      case None => None
      case Some(g) => Some(Grain(g, PlanOf(integrity).grain, sample))
  {
  }

  /** The lower the integrity, the smaller the glitch stage's intermediate
      size. */
  lemma LowerIntegrityShrinksMore(side: nat, lower: real, higher: real)
    requires lower <= higher < 0.5
    ensures PlanOf(lower).Decayed? && PlanOf(lower).glitch.Some?
    ensures PlanOf(higher).Decayed? && PlanOf(higher).glitch.Some?
    ensures ShrunkSide(side, PlanOf(lower).glitch.value) <= ShrunkSide(side, PlanOf(higher).glitch.value)
  {
    ShrinkMonotone(side, PlanOf(higher).glitch.value, PlanOf(lower).glitch.value);
  }

  /** Called from `degrade`, the glitch stage always gets an intensity in
      (0.5, 1], so its own `intensity < 0.3` early return never fires and
      the scale factor lies in [0.2, 0.6), clear of the 0.1 floor. */
  lemma PlannedGlitchAlwaysResizes(integrity: real, w: nat, h: nat)
    requires PlanOf(integrity).Decayed? && PlanOf(integrity).glitch.Some?
    ensures 0.5 < PlanOf(integrity).glitch.value <= 1.0
    ensures GlitchTarget(w, h, PlanOf(integrity).glitch.value).Some?
    ensures 0.2 <= ScaleFactor(PlanOf(integrity).glitch.value) < 0.6
    ensures ScaleFactor(PlanOf(integrity).glitch.value) == 1.0 - PlanOf(integrity).glitch.value * 0.8
  {
  }

  /** Called from `degrade`, the grain stage always runs (its intensity is
      positive, at most 0.5) and its noise has a standard deviation of at
      most 63.75, reached at integrity 0 and below. */
  lemma PlannedGrainBounds(integrity: real)
    requires PlanOf(integrity).Decayed?
    ensures 0.0 < PlanOf(integrity).grain <= 0.5
    ensures 0.0 < NoiseStdDev(PlanOf(integrity).grain) <= 63.75
    ensures integrity <= 0.0 ==> NoiseStdDev(PlanOf(integrity).grain) == 63.75
  {
  }

  /** Between integrity 0.5 and 1 the structural stage is skipped: the
      result is the grain stage alone applied to the input. */
  lemma NoGlitchFromHalfIntegrity(img: Image, integrity: real, resize: Resizer, sample: Sampler)
    requires ResizeHonoursSize(resize) && DrawsRequestedCount(sample)
    requires 0.5 <= integrity < 1.0
    ensures Degrade(img, integrity, resize, sample) == Some(Grain(img, (1.0 - integrity) * 0.5, sample))
  {
    DegradeFollowsPlan(img, integrity, resize, sample);
  }

  /** A 100 x 100 image at integrity 0.2: scale factor 0.36, so a 36 x 36
      intermediate, then grain at intensity 0.4 with standard deviation 51. */
  lemma GrayScenario()
    ensures PlanOf(0.2) == Decayed(Some(0.8), 0.4, true)
    ensures ScaleFactor(0.8) == 0.36
    ensures GlitchTarget(100, 100, 0.8) == Some((36, 36))
    ensures NoiseStdDev(0.4) == 51.0
  {
    ScaledIsProduct(100, 0.36);
  }

  // ---------------------------------------------------------------------
  // Save quality: `decay_file` and `decay_bytes`
  // ---------------------------------------------------------------------

  /** `int(max(1, integrity * 95))`, on the raw integrity the caller passed. */
  function JpegQuality(integrity: real): (q: int)
    ensures q >= 1
    ensures q as real <= Max(1.0, integrity * 95.0) < q as real + 1.0
  {
    Truncate(Max(1.0, integrity * 95.0))
  }

  /** In the documented range the quality lies in [1, 95]. Since the raw
      value is used, the ceiling of 95 is passed exactly when the
      integrity reaches 96/95, and the floor of 1 holds below 2/95. */
  lemma QualityBounds(integrity: real)
    ensures 0.0 <= integrity <= 1.0 ==> 1 <= JpegQuality(integrity) <= 95
    ensures JpegQuality(integrity) > 95 <==> integrity >= 96.0 / 95.0
    ensures integrity < 2.0 / 95.0 ==> JpegQuality(integrity) == 1
  {
  }

  /** A larger integrity never gives a lower quality. */
  lemma QualityMonotone(a: real, b: real)
    requires a <= b
    ensures JpegQuality(a) <= JpegQuality(b)
  {
  }

  /** The default integrity 0.9 saves at quality 85 (85.5 truncated). */
  lemma DefaultQuality()
    ensures JpegQuality(0.9) == 85
  {
  }
}
