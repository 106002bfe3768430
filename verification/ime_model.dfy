/** The image transform engine: an image is a grid of pixels with its declared height,
    width and maximum component value. Every transform allocates a fresh grid, fills it and
    returns a new image; the receiver is never changed (row reversal is taken to build a new
    row). Each transform with loops is a method with the loops of the Java code, proved
    equal to a pure specification function whose contract says what the transform means;
    the split is a method of three greyscale calls and running a macro is a function. */
module IMEModel {
  import opened Pixels
  import opened Grids
  import PixelHelper

  /** One loaded image. The constructor only stores its four arguments: nothing ties the
      grid to the declared dimensions until WellShaped is asked of it. */
  datatype Image = Image(data: Grid, height: int, width: int, maxValue: int)

  datatype Result<T> = Ok(value: T) | Err(message: string)

  const SizeMismatchMessage := "The greyscale images are of different sizes!"

  /** The grid has `height` rows, each `width` long: what every transform indexes by. */
  predicate WellShaped(img: Image)
  {
    IsRect(img.data, img.height, img.width)
  }

  /** Every component of every pixel lies in [0, maxValue]. */
  predicate InRangeImage(img: Image)
  {
    forall i, j :: 0 <= i < |img.data| && 0 <= j < |img.data[i]| ==> InRange(img.data[i][j], img.maxValue)
  }

  /** `a` and `b` declare the same height, width and maximum value. */
  predicate SameHeader(a: Image, b: Image)
  {
    a.height == b.height && a.width == b.width && a.maxValue == b.maxValue
  }

  // ---------------------------------------------------------------------------------
  // Specification functions

  /** Greyscale by a channel selector: pixel (i, j) becomes (v, v, v) with v the selector
      applied to the source pixel. */
  function GreyScale(img: Image, f: Pixel -> int): (r: Image)
    requires WellShaped(img)
    ensures WellShaped(r) && SameHeader(r, img)
    ensures forall i, j :: 0 <= i < img.height && 0 <= j < img.width ==>
              IsGrey(r.data[i][j]) && r.data[i][j].r == f(img.data[i][j])
  {
    Image(MapGrid(img.data, p => Grey(f(p))), img.height, img.width, img.maxValue)
  }

  /** Mirror image left to right: column j of the result is column width - 1 - j. */
  function HorizontalFlip(img: Image): (r: Image)
    requires WellShaped(img)
    ensures WellShaped(r) && SameHeader(r, img)
    ensures forall i, j :: 0 <= i < img.height && 0 <= j < img.width ==>
              r.data[i][j] == img.data[i][img.width - 1 - j]
  {
    Image(seq(|img.data|, i requires 0 <= i < |img.data| => PixelHelper.Reverse(img.data[i])),
          img.height, img.width, img.maxValue)
  }

  /** Mirror image top to bottom: row height - 1 - i of the result is row i. */
  function VerticalFlip(img: Image): (r: Image)
    requires WellShaped(img)
    ensures WellShaped(r) && SameHeader(r, img)
    ensures forall i :: 0 <= i < img.height ==> r.data[img.height - 1 - i] == img.data[i]
  {
    Image(PixelHelper.Reverse(img.data), img.height, img.width, img.maxValue)
  }

  /** Brightness change: each component c becomes max(c + delta, 0) when delta < 0 and
      min(c + delta, maxValue) otherwise. */
  function Brightness(img: Image, delta: int): (r: Image)
    requires WellShaped(img)
    ensures WellShaped(r) && SameHeader(r, img)
    ensures forall i, j :: 0 <= i < img.height && 0 <= j < img.width ==>
              r.data[i][j] == AdjustPixel(img.data[i][j], delta, img.maxValue)
  {
    var m := img.maxValue;
    Image(MapGrid(img.data, p => AdjustPixel(p, delta, m)), img.height, img.width, m)
  }

  /** The three channel images of `img`: greyscale by red, by green and by blue, in order. */
  function Split(img: Image): (r: seq<Image>)
    requires WellShaped(img)
    ensures |r| == 3
    ensures WellShaped(r[0]) && WellShaped(r[1]) && WellShaped(r[2])
    ensures SameHeader(r[0], img) && SameHeader(r[1], img) && SameHeader(r[2], img)
    ensures forall i, j :: 0 <= i < img.height && 0 <= j < img.width ==>
              r[0].data[i][j] == Grey(img.data[i][j].r) &&
              r[1].data[i][j] == Grey(img.data[i][j].g) &&
              r[2].data[i][j] == Grey(img.data[i][j].b)
  {
    [GreyScale(img, Red), GreyScale(img, Green), GreyScale(img, Blue)]
  }

  /** Channel recombination: an error exactly when a declared height or width differs
      from `red`'s; otherwise pixel (i, j) takes red from `red`, green from `green` and
      blue from `blue`, under `red`'s height, width and maximum value. */
  function Combine(red: Image, green: Image, blue: Image): (r: Result<Image>)
    requires WellShaped(red) && WellShaped(green) && WellShaped(blue)
    ensures r.Err? <==> !(red.height == green.height == blue.height && red.width == green.width == blue.width)
    ensures r.Err? ==> r.message == SizeMismatchMessage
    ensures r.Ok? ==> WellShaped(r.value) && SameHeader(r.value, red)
    ensures r.Ok? ==> forall i, j :: 0 <= i < red.height && 0 <= j < red.width ==>
              r.value.data[i][j] == Pixel(red.data[i][j].r, green.data[i][j].g, blue.data[i][j].b)
  {
    if !(red.height == green.height && red.height == blue.height)
       || !(red.width == green.width && red.width == blue.width)
    then Err(SizeMismatchMessage)
    else Ok(Image(CombineGrid(red.data, green.data, blue.data, red.width), red.height, red.width, red.maxValue))
  }

  /** A macro is any transform from images to images; running it on an image is handing
      the image to it. */
  function ExecuteMacro(img: Image, macro: Image --> Image): (r: Image)
    requires macro.requires(img)
    ensures r == macro(img)
  {
    macro(img)
  }

  // ---------------------------------------------------------------------------------
  // The transforms as the engine runs them

  method GreyScaleImage(img: Image, f: Pixel -> int) returns (r: Image)
    requires WellShaped(img)
    ensures r == GreyScale(img, f)
  {
    var newImageData := new Pixel[img.height, img.width];
    for i := 0 to img.height
      invariant forall k, l :: 0 <= k < i && 0 <= l < img.width ==> newImageData[k, l] == Grey(f(img.data[k][l]))
    {
      for j := 0 to img.width
        invariant forall k, l :: 0 <= k < i && 0 <= l < img.width ==> newImageData[k, l] == Grey(f(img.data[k][l]))
        invariant forall l :: 0 <= l < j ==> newImageData[i, l] == Grey(f(img.data[i][l]))
      {
        var value := f(img.data[i][j]);
        newImageData[i, j] := Pixel(value, value, value);
      }
    }
    r := Image(Freeze(newImageData), img.height, img.width, img.maxValue);
    GridExtensionality(r.data, GreyScale(img, f).data, img.height, img.width);
  }

  method HorizontalFlipImage(img: Image) returns (r: Image)
    requires WellShaped(img)
    ensures r == HorizontalFlip(img)
  {
    var newImageData := new seq<Pixel>[img.height];
    for i := 0 to |img.data|
      invariant forall k :: 0 <= k < i ==> newImageData[k] == PixelHelper.Reverse(img.data[k])
    {
      newImageData[i] := PixelHelper.Reverse(img.data[i]);
    }
    r := Image(newImageData[..], img.height, img.width, img.maxValue);
  }

  method VerticalFlipImage(img: Image) returns (r: Image)
    requires WellShaped(img)
    ensures r == VerticalFlip(img)
  {
    var newImageData := new seq<Pixel>[img.height];
    var n := |img.data| - 1;
    var i := n;
    while i >= 0
      invariant -1 <= i <= n
      invariant forall k :: i < k <= n ==> newImageData[n - k] == img.data[k]
    {
      newImageData[n - i] := img.data[i];
      i := i - 1;
    }
    r := Image(newImageData[..], img.height, img.width, img.maxValue);
  }

  method AlterBrightness(img: Image, delta: int) returns (r: Image)
    requires WellShaped(img)
    ensures r == Brightness(img, delta)
  {
    var m := img.maxValue;
    var newImageData := new Pixel[img.height, img.width];
    if delta < 0 {
      for i := 0 to img.height
        invariant forall k, l :: 0 <= k < i && 0 <= l < img.width ==> newImageData[k, l] == AdjustPixel(img.data[k][l], delta, m)
      {
        for j := 0 to img.width
          invariant forall k, l :: 0 <= k < i && 0 <= l < img.width ==> newImageData[k, l] == AdjustPixel(img.data[k][l], delta, m)
          invariant forall l :: 0 <= l < j ==> newImageData[i, l] == AdjustPixel(img.data[i][l], delta, m)
        {
          var redComponent := Max(img.data[i][j].r + delta, 0);
          var greenComponent := Max(img.data[i][j].g + delta, 0);
          var blueComponent := Max(img.data[i][j].b + delta, 0);
          newImageData[i, j] := Pixel(redComponent, greenComponent, blueComponent);
        }
      }
    } else {
      for i := 0 to img.height
        invariant forall k, l :: 0 <= k < i && 0 <= l < img.width ==> newImageData[k, l] == AdjustPixel(img.data[k][l], delta, m)
      {
        for j := 0 to img.width
          invariant forall k, l :: 0 <= k < i && 0 <= l < img.width ==> newImageData[k, l] == AdjustPixel(img.data[k][l], delta, m)
          invariant forall l :: 0 <= l < j ==> newImageData[i, l] == AdjustPixel(img.data[i][l], delta, m)
        {
          var redComponent := Min(img.data[i][j].r + delta, m);
          var greenComponent := Min(img.data[i][j].g + delta, m);
          var blueComponent := Min(img.data[i][j].b + delta, m);
          newImageData[i, j] := Pixel(redComponent, greenComponent, blueComponent);
        }
      }
    }
    r := Image(Freeze(newImageData), img.height, img.width, m);
    GridExtensionality(r.data, Brightness(img, delta).data, img.height, img.width);
  }

  method RgbSplit(img: Image) returns (images: seq<Image>)
    requires WellShaped(img)
    ensures images == Split(img)
  {
    var redImage := GreyScaleImage(img, Red);
    var greenImage := GreyScaleImage(img, Green);
    var blueImage := GreyScaleImage(img, Blue);
    images := [redImage, greenImage, blueImage];
  }

  method CombineRGBImage(img: Image, greenScaleImage: Image, blueScaleImage: Image) returns (r: Result<Image>)
    requires WellShaped(img) && WellShaped(greenScaleImage) && WellShaped(blueScaleImage)
    ensures r == Combine(img, greenScaleImage, blueScaleImage)
  {
    if !(img.height == greenScaleImage.height && img.height == blueScaleImage.height)
       || !(img.width == greenScaleImage.width && img.width == blueScaleImage.width)
    {
      return Err(SizeMismatchMessage);
    }
    var newImageData := new Pixel[img.height, img.width];
    for i := 0 to img.height
      invariant forall k, l :: 0 <= k < i && 0 <= l < img.width ==>
                  newImageData[k, l] == Pixel(img.data[k][l].r, greenScaleImage.data[k][l].g, blueScaleImage.data[k][l].b)
    {
      for j := 0 to img.width
        invariant forall k, l :: 0 <= k < i && 0 <= l < img.width ==>
                    newImageData[k, l] == Pixel(img.data[k][l].r, greenScaleImage.data[k][l].g, blueScaleImage.data[k][l].b)
        invariant forall l :: 0 <= l < j ==>
                    newImageData[i, l] == Pixel(img.data[i][l].r, greenScaleImage.data[i][l].g, blueScaleImage.data[i][l].b)
      {
        newImageData[i, j] := Pixel(img.data[i][j].r, greenScaleImage.data[i][j].g, blueScaleImage.data[i][j].b);
      }
    }
    var combined := Image(Freeze(newImageData), img.height, img.width, img.maxValue);
    GridExtensionality(combined.data, Combine(img, greenScaleImage, blueScaleImage).value.data, img.height, img.width);
    r := Ok(combined);
  }
}
