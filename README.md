# BitRot decay transform, modelled in Dafny

BitRot simulates the decay of a digital image. `degrade` takes an image and
an integrity value, where 1.0 means pristine and 0.0 means destroyed. It
clamps the integrity to [0, 1] and returns a pristine image untouched.
Otherwise it derives a damage level `1 - integrity` and runs up to three steps:

- a **glitch** stage below integrity 0.5: the image is shrunk by a scale
  factor and resized back to its own size, which pixelates it;
- a **grain** stage, always: Gaussian noise is added to every channel value,
  which is then clipped to [0, 255] and truncated to 8 bits;
- a **desaturation** step below integrity 0.8, which only converts to RGB
  again and changes no pixel.

The file and byte adapters save the result as JPEG at quality
`int(max(1, integrity * 95))`, computed from the raw, unclamped integrity.

The model is `bitrot.dfy`, module `Bitrot`. It is written as pure functions
and lemmas over exact `real` arithmetic, like the source's straight-line
code. An `Image` is a width, a height and a flattened sequence of channel
values. `WellFormed` says the sequence holds three 8-bit values per pixel.
Two parts of the image library are parameters of the model:

- `Resizer` stands for `Image.resize`. `ResizeHonoursSize` says only that an
  accepted resize returns the requested size and stays well formed.
- `Sampler` stands for `np.random.normal(0, sd, shape)`. It is applied to the
  standard deviation and the number of values. `DrawsRequestedCount` says
  only that it returns that many samples.

Three behaviours of the code are worth stating plainly:

- The save quality truncates, and it uses the raw integrity rather than the
  clamped one (src/bitrot.py:109, 128).
- The glitch stage sets no minimum intermediate size. A side narrower than
  five pixels can shrink to zero (`OnePixelSideShrinksToZero`).
- The image library rejects a resize to a zero side with `ValueError`, unless
  the requested size equals the current one. `ResizeAccepts` states that rule.
  `Glitch` and `Degrade` return `None` when the rule rejects the target: in
  the program the exception leaves `degrade`, and `decay_bytes` then returns
  its input bytes (src/bitrot.py:132-134).

## Model

| member | source | states |
|---|---|---|
| `Bitrot.Truncate` | src/bitrot.py:50-51 | Python's `int()` rounds toward zero: for a non-negative argument the result is the largest integer not above it, for a negative one the smallest integer not below it |
| `Bitrot.Clamp` | src/bitrot.py:61 | the effective integrity lies in [0, 1], equals the input inside that range, and is 0 below it and 1 above it |
| `Bitrot.DamageLevel` | src/bitrot.py:61-66 | the damage lies in [0, 1]; it is 0 exactly when the raw integrity is at least 1 and 1 exactly when it is at most 0 |
| `Bitrot.ClampKeepsGates` | src/bitrot.py:61-79 | for any threshold in (0, 1], the clamped and the raw integrity fall on the same side of it, so clamping changes none of the pristine, glitch or desaturation decisions |
| `Bitrot.NoiseStdDev` | src/bitrot.py:27-28 | the standard deviation `intensity * 255 / 2` is positive for a positive intensity, at most 63.75 for intensity at most 0.5 and at most 127.5 for intensity at most 1 |
| `Bitrot.ClipToByte` | src/bitrot.py:34 | clip-then-truncate always gives an 8-bit value: 0 at or below 0, 255 at or above 255, and the floor of the value in between |
| `Bitrot.NoisyChannels` | src/bitrot.py:31-34 | adding noise and clipping keeps the buffer length, and every output value is the clipped and truncated sum of its input value and its own noise sample, hence 8-bit |
| `Bitrot.SilentNoiseKeepsChannels` | src/bitrot.py:31-34 | with all-zero noise, a buffer of 8-bit values comes back unchanged |
| `Bitrot.Grain` | src/bitrot.py:14-36 | the grain stage keeps the dimensions and returns its input unchanged for intensity at most 0; otherwise each output value is the clipped, truncated sum of its input value and a sample drawn with the stage's standard deviation, so every value is 8-bit; a well-formed image stays well formed |
| `Bitrot.ScaleFactor` | src/bitrot.py:48 | the scale factor is at least 0.1, at most 1 for a non-negative intensity and at least 0.2 for intensity at most 1 |
| `Bitrot.ScaleFloorThreshold` | src/bitrot.py:48 | the 0.1 floor takes effect only for intensity above 1.125; below that the factor is `1 - 0.8 * intensity`, and it is 0.2 at intensity 1, the 20% of the source's comment |
| `Bitrot.ScaledIsProduct` | src/bitrot.py:50-51 | `Scaled(side, f)`, the repeated-addition form used for `w * scale_factor`, equals the real product of the side and the factor |
| `Bitrot.ScaledMonotone` | src/bitrot.py:50-51 | for a fixed side, a larger scale factor never gives a smaller product |
| `Bitrot.ScaledSideBounds` | src/bitrot.py:50-51 | a side scaled by a factor of at least 0 is non-negative, and with a factor of at most 1 it is no longer than the side |
| `Bitrot.ShrunkSide` | src/bitrot.py:50-51 | an intermediate side is the truncation of `side * scale_factor`, non-negative, and for a non-negative intensity no larger than the original side |
| `Bitrot.ShrinkMonotone` | src/bitrot.py:46-51 | a higher intensity never gives a larger scale factor or a larger intermediate side: the lower the integrity, the smaller the intermediate size, as the comment at line 46 says |
| `Bitrot.GlitchShrinksStrictly` | src/bitrot.py:42-51 | at or above the 0.3 threshold, every side of at least one pixel shrinks by at least one pixel |
| `Bitrot.WideSideNeverVanishes` | src/bitrot.py:48-51 | for intensity at most 1, a side of five pixels or more keeps at least one pixel (over exact reals) |
| `Bitrot.GlitchTarget` | src/bitrot.py:42-51 | no resize happens exactly when the intensity is below 0.3; otherwise each intermediate side is the truncation of the original side times the scale factor, and at most the original side |
| `Bitrot.Glitch` | src/bitrot.py:38-53 | below intensity 0.3 the input comes back unchanged; at or above it the result is the input resized to the `ShrunkSide` width and height and then resized back to the original size; it fails exactly when a non-empty image would be shrunk to a zero side; a successful result has the original dimensions and stays well formed |
| `Bitrot.OnePixelSideShrinksToZero` | src/bitrot.py:50-53 | at or above the threshold intensity a one-pixel side becomes 0, because no minimum size is enforced; a 1 x 1 image is shrunk to 0 x 0, and the glitch stage fails on any image with a one-pixel side |
| `Bitrot.ConvertToRgb` | src/bitrot.py:81 | converting an image that is already RGB keeps its size and its channel values |
| `Bitrot.Desaturate` | src/bitrot.py:79-84 | the desaturation step changes no pixel, whether the `integrity < 0.8` gate is taken or not |
| `Bitrot.Degrade` | src/bitrot.py:55-86 | for raw integrity at least 1 the output is the input itself; it fails exactly when integrity is below 0.5 and a non-empty image has a side that the glitch stage shrinks to zero; a successful result has the input's dimensions, holds only 8-bit values whenever integrity is below 1, and keeps a well-formed image well formed |
| `Bitrot.DegradeSucceeds` | src/bitrot.py:55-86 | `degrade` succeeds for every integrity of at least 0.5, and for every integrity on images whose sides are at least five pixels (over exact reals) |
| `Bitrot.PlanOf` | src/bitrot.py:60-84 | in terms of the raw integrity: nothing is done exactly when it is at least 1; the glitch stage is planned exactly when it is below 0.5, with the damage level as the glitch intensity; the grain intensity is half the damage level; RGB re-conversion happens exactly below 0.8 |
| `Bitrot.DegradeFollowsPlan` | src/bitrot.py:63-86 | `Degrade` carries out `PlanOf`: it returns the input when the plan is to do nothing, fails when the planned glitch stage fails, and otherwise applies the grain stage at the planned intensity to the glitch stage's output; the desaturation step changes no pixel |
| `Bitrot.LowerIntegrityShrinksMore` | src/bitrot.py:46-71 | for two integrities below 0.5, the lower one plans a glitch whose intermediate side is no larger than the higher one's |
| `Bitrot.PlannedGlitchAlwaysResizes` | src/bitrot.py:42-71 | called from `degrade`, the glitch intensity lies in (0.5, 1], so the inner `intensity < 0.3` early return never fires, and the scale factor is `1 - 0.8 * intensity` in [0.2, 0.6), clear of the 0.1 floor |
| `Bitrot.PlannedGrainBounds` | src/bitrot.py:66-75 | called from `degrade`, the grain intensity lies in (0, 0.5], so the grain stage always draws noise, with a standard deviation in (0, 63.75]; the maximum 63.75 is reached for integrity at most 0 |
| `Bitrot.NoGlitchFromHalfIntegrity` | src/bitrot.py:70-75 | for integrity in [0.5, 1) no resize happens and nothing fails: the result is the grain stage alone at intensity `(1 - integrity) / 2`, applied to the input |
| `Bitrot.GrayScenario` | src/bitrot.py:48-75 | over exact reals, integrity 0.2 plans a glitch at intensity 0.8 with scale factor 0.36, which shrinks a 100 x 100 image to 36 x 36, then grain at intensity 0.4 with standard deviation 51 (in doubles the program gets 35 x 35, see below) |
| `Bitrot.JpegQuality` | src/bitrot.py:109 | the save quality (same expression at line 128) is at least 1 and is the truncation of `max(1, integrity * 95)` |
| `Bitrot.QualityBounds` | src/bitrot.py:109 | for integrity in [0, 1] the quality lies in [1, 95]; because the raw integrity is used it exceeds 95 exactly when the integrity is at least 96/95; below 2/95 it is 1 |
| `Bitrot.QualityMonotone` | src/bitrot.py:109 | a larger integrity never gives a lower quality |
| `Bitrot.DefaultQuality` | src/bitrot.py:90-109 | the default integrity 0.9 saves at quality 85, i.e. 85.5 truncated |

## Left out

- Image decoding, JPEG encoding and saving, `Image.open`, the inner workings
  of `convert` and `resize`, and the file and byte adapters around
  `degrade` (src/bitrot.py:90-134). These are delegations to the image
  library and file I/O. `ConvertToRgb` is the identity, because every image
  the transform sees is already RGB.
- Nearest-neighbour sampling in `resize`. The model states only when a resize
  is accepted (`ResizeAccepts`) and the size and well-formedness of its result.
- The Gaussian distribution and the random state of `np.random.normal`. A
  `Sampler` stands for one draw and is a deterministic function of the
  standard deviation and the count, so the noise's statistics are not modelled.
- Glitch: IEEE floating-point arithmetic is not modelled; all arithmetic is
  exact `real`. At one point this matters. `int()` truncates, so a product that
  rounding leaves a hair below a whole number loses a pixel. In doubles,
  `1 - 0.8 * 0.8` is 0.3599999999999999, so at integrity 0.2 the program
  shrinks 100 x 100 to 35 x 35, not 36 x 36. At integrity 0, `1 - 1 * 0.8` is
  0.19999999999999996, so a 100-pixel side becomes 19 rather than 20, and a
  5-pixel side becomes 0 rather than 1. The integer sizes stated by ShrunkSide,
  GlitchTarget, GrayScenario, WideSideNeverVanishes and DegradeSucceeds
  therefore hold over exact reals and can be one pixel larger than the
  program's. The quality values of `JpegQuality` and `DefaultQuality` are not
  affected at the points stated.
- The catch-all `except` and the diagnostic `print` lines of the adapters,
  including the "Health" percentage. On any failure, including a failed
  `degrade`, `decay_bytes` returns the original `image_data` and `decay_file`
  does nothing further. The adapters are not modelled.
- The pixel layout of `np.array(image)`, which is height x width x channels:
  the grain stage works value by value, so only the flattened buffer is modelled.
