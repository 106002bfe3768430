# Image transform engine, modelled in Dafny

This project models the image transform engine of an image manipulation program
(`IMEModelImpl`). An image is a grid of red/green/blue pixels. It also declares a
height, a width and a maximum component value. Every transform allocates a fresh grid,
fills it, and returns a new image. The receiver is never changed, assuming `reverse` returns
a new row rather than reversing in place, as modelled.

The transforms are:
- greyscale by a channel selector;
- horizontal and vertical flip;
- brightness change with a saturating clamp;
- split into three per-channel greyscale images;
- recombination of three images channel by channel, after a size check;
- running a macro on the image.

Layout:
- `pixel.dfy` (`Pixels`): the pixel triple, the channel selectors and the per-component
  clamp arithmetic.
- `pixel_helper.dfy` (`PixelHelper`): sequence reversal, which the horizontal flip applies
  to each row.
- `grid.dfy` (`Grids`): grids as sequences of rows, with maps over them.
- `ime_model.dfy` (`IMEModel`): the image datatype and the transforms. Each transform with loops
  in the Java code has two parts. One is a pure specification function whose contract
  states what it means. The other is a method with the loops of the Java code: it fills an
  `array2<Pixel>`, or for the flips an array of rows, and is proved equal to its
  specification function. `rgbSplit` is a method of three greyscale calls, proved equal to
  `Split`, and `executeMacro` is a function only.
- `ime_properties.dfy` (`IMEProperties`): lemmas relating several calls. These are the
  flip involutions, brightness range, identity and undo, saturation, and the
  split/combine round trip.
- `int32_brightness.dfy` (`Int32Brightness`): brightness arithmetic with Java's 32-bit
  addition (see Findings).

The image constructor validates nothing; it only stores its four arguments. So
`WellShaped` (the grid has `height` rows of `width` pixels, and `width >= 0`) is a
precondition of each transform. On a grid of any other shape the Java code either throws
(an index out of bounds, a negative array size) or returns an image that is not what the
transform means: greyscale, brightness and combine read only the top-left height x width
block, the flips leave the all-null rows of `new Pixel[height][width]` when the grid has
fewer rows than `height`, and the horizontal flip reverses a row longer than `width` as a
whole.

`InRangeImage` (all components in `[0, maxValue]`) is a hypothesis only of the lemmas that
need it. The Java getters
`getImageData`, `getImageHeight`, `getImageWidth` and `getMaxValue` are the fields of the
`Image` datatype.

The model follows the Java code on these points:
- The constructor validates nothing, and a height or width of 0 is accepted.
- `verticalFlipImage` stores the source's row arrays in the new grid, so source and result
  share rows. Pixels are immutable, so immutable sequences capture this faithfully.
- `combineRGBImage` takes the maximum value of the receiver (the red source) only.
- The combine check compares the declared heights and widths. Under `WellShaped` these
  equal the grid's actual shape.

## Model

| member | source | states |
|---|---|---|
| `PixelHelper.Reverse` | src/model/IMEModelImpl.java:108 | the reversal applied to each row keeps the length, and element k is element length-1-k of the input |
| `PixelHelper.ReverseInvolution` | src/model/IMEModelImpl.java:108 | reversing a row twice gives the row back |
| `Pixels.AdjustInRange` | src/model/IMEModelImpl.java:142-160 | a component in [0, maxValue] stays in [0, maxValue] after the clamped change, for every delta |
| `Pixels.AdjustUndo` | src/model/IMEModelImpl.java:142-160 | a component not clamped by `+d` is restored by a following `-d` |
| `IMEModel.GreyScale` | src/model/IMEModelImpl.java:88-96 | each output pixel is grey (r = g = b), and its value is the selector applied to the source pixel; height, width and maxValue are unchanged and the grid is well shaped |
| `IMEModel.GreyScaleImage` | src/model/IMEModelImpl.java:88-96 | the nested loops filling a fresh height x width grid produce exactly `GreyScale` |
| `IMEModel.HorizontalFlip` | src/model/IMEModelImpl.java:105-111 | output pixel (i, j) is input pixel (i, width-1-j); dimensions and maxValue are unchanged |
| `IMEModel.HorizontalFlipImage` | src/model/IMEModelImpl.java:105-111 | the loop storing each reversed row into a fresh row array produces exactly `HorizontalFlip` |
| `IMEModel.VerticalFlip` | src/model/IMEModelImpl.java:120-127 | output row height-1-i is input row i; dimensions and maxValue are unchanged |
| `IMEModel.VerticalFlipImage` | src/model/IMEModelImpl.java:120-127 | the loop from the last row down to row 0, storing row i at n-i, produces exactly `VerticalFlip` |
| `IMEModel.Brightness` | src/model/IMEModelImpl.java:138-166 | each component c becomes max(c+delta, 0) for delta < 0 and min(c+delta, maxValue) otherwise; dimensions and maxValue are unchanged |
| `IMEModel.AlterBrightness` | src/model/IMEModelImpl.java:138-166 | both branches' nested loops (darken with `Math.max`, brighten with `Math.min`) produce exactly `Brightness` |
| `IMEModel.Split` | src/model/IMEModelImpl.java:176-180 | exactly three images: greyscale by red, by green and by blue, in that order, each well shaped with the source's dimensions and maxValue |
| `IMEModel.RgbSplit` | src/model/IMEModelImpl.java:176-180 | the three greyscale calls produce exactly `Split` |
| `IMEModel.Combine` | src/model/IMEModelImpl.java:192-211 | fails with the size-mismatch error if and only if a height or width differs; otherwise pixel (i, j) takes red from this image, green from the second and blue from the third, under this image's height, width and maxValue |
| `IMEModel.CombineRGBImage` | src/model/IMEModelImpl.java:192-211 | the dimension check followed by the nested fill loops produces exactly `Combine`, the error included |
| `IMEModel.ExecuteMacro` | src/model/IMEModelImpl.java:219-221 | the result is what the macro computes on this image |
| `IMEProperties.HorizontalFlipInvolution` | src/model/IMEModelImpl.java:105-111 | flipping horizontally twice returns the original image |
| `IMEProperties.VerticalFlipInvolution` | src/model/IMEModelImpl.java:120-127 | flipping vertically twice returns the original image |
| `IMEProperties.BrightnessInRange` | src/model/IMEModelImpl.java:138-166 | if every input component lies in [0, maxValue], so does every output component, for every delta |
| `IMEProperties.BrightnessZeroIdentity` | src/model/IMEModelImpl.java:152-165 | a change by 0 leaves an in-range image unchanged |
| `IMEProperties.BrightnessUndoAt` | src/model/IMEModelImpl.java:142-165 | after `+d` then `-d`, every component that `+d` did not clamp has its original value |
| `IMEProperties.BrightnessUndo` | src/model/IMEModelImpl.java:142-165 | if no component is clamped, `-d` after `+d` returns the original image |
| `IMEProperties.BrightnessSaturates` | src/model/IMEModelImpl.java:142-165 | on an in-range image, delta >= maxValue makes every pixel (maxValue, maxValue, maxValue), and delta <= -maxValue makes every pixel (0, 0, 0) |
| `IMEProperties.SplitCombineRoundTrip` | src/model/IMEModelImpl.java:176-210 | combining the red, green and blue split images in that order succeeds and reproduces the original image |
| `Int32Brightness.BrightenOverflowLeavesRange` | src/model/IMEModelImpl.java:155-160 | with 32-bit addition, brightening a component of 1 by 2147483647 (maxValue 255) gives -2147483648, below 0 |
| `Int32Brightness.AsWrittenAgreesWithoutOverflow` | src/model/IMEModelImpl.java:145-160 | whenever c + delta fits in 32 bits, the 32-bit code equals the unbounded clamp |
| `Int32Brightness.DarkenNeverOverflows` | src/model/IMEModelImpl.java:145-147 | for an in-range component and a negative delta, the 32-bit code always equals the unbounded clamp |

## Findings

| source | as written | input that shows it | evidently intended | confidence | as-written member | corrected member |
|---|---|---|---|---|---|---|
| src/model/IMEModelImpl.java:155-160 | `Math.min(c + delta, maxValue)` is evaluated after a 32-bit `c + delta` that can wrap around | component 1, delta 2147483647, maxValue 255: the sum wraps to -2147483648, which `Math.min` returns | a saturating clamp that keeps every component in [0, maxValue] | not executed; follows from Java's int overflow rules | `Int32Brightness.AdjustAsWritten`, shown by `Int32Brightness.BrightenOverflowLeavesRange` | `IMEModel.Brightness` (unbounded sum), with `IMEProperties.BrightnessInRange` proved |

## Left out

- Sharpening and convolution: no kernel or edge policy appears in `IMEModelImpl`, and the implementation `sharpen()` calls is not part of this model.
- Command classes: `HorizontalFlip` and `Sharpen` look an image up by name, call one transform and store the result; `Load` and `Save` move an image between the name map and a file codec (next line). None has algorithmic content.
- File codecs and extension dispatch (`SavePPM`, `SavePNG`, `LoadPPM` and the others). This is file I/O, and their source is not part of this model.
- The `Pixel` class and `PixelHelper.reverse` are not part of this model. Pixel is modelled as an immutable integer triple and `reverse` as sequence reversal that returns a new row; if the Java `reverse` reverses in place, the horizontal flip would also change the source image, which the model does not capture.
- Concrete `IMacro` implementations are not part of this model. A macro is any partial function from images to images.
- A channel selector that throws: the selector is modelled as a total function `Pixel -> int`.
- Null pixels and grids whose shape disagrees with the declared height and width. The transforms require `WellShaped`. On other shapes the Java code either throws or returns an image with null rows or rows of the wrong size, which the model does not describe.
- `IMEModel.Brightness`: the main model adds with unbounded integers and so does not reproduce the 32-bit wrap-around. That behaviour is modelled separately in `Int32Brightness` and reported under Findings.
- `IMEModel.AlterBrightness`: like `IMEModel.Brightness`, it adds with unbounded integers and does not reproduce the 32-bit wrap-around.
- Row sharing between a vertically flipped image and its source: rows are immutable sequences, so sharing cannot be observed.
