/** Properties of the transforms that relate several calls: the flips are involutions,
    brightness stays in range, is the identity at zero and undoes itself away from the
    clamp, and splitting then recombining gives back the original image. */
module IMEProperties {
  import opened Pixels
  import opened Grids
  import opened IMEModel
  import PixelHelper

  lemma HorizontalFlipInvolution(img: Image)
    requires WellShaped(img)
    ensures HorizontalFlip(HorizontalFlip(img)) == img
  {
    var once := HorizontalFlip(img);
    var twice := HorizontalFlip(once);
    forall i, j | 0 <= i < img.height && 0 <= j < img.width
      ensures twice.data[i][j] == img.data[i][j]
    {
      assert twice.data[i][j] == once.data[i][img.width - 1 - j];
    }
    GridExtensionality(twice.data, img.data, img.height, img.width);
  }

  lemma VerticalFlipInvolution(img: Image)
    requires WellShaped(img)
    ensures VerticalFlip(VerticalFlip(img)) == img
  {
    PixelHelper.ReverseInvolution(img.data);
  }

  /** A brightness change keeps every component of an in-range image in [0, maxValue]. */
  lemma BrightnessInRange(img: Image, delta: int)
    requires WellShaped(img) && InRangeImage(img)
    ensures InRangeImage(Brightness(img, delta))
  {
    var r := Brightness(img, delta);
    forall i, j | 0 <= i < |r.data| && 0 <= j < |r.data[i]|
      ensures InRange(r.data[i][j], r.maxValue)
    {
      var p := img.data[i][j];
      AdjustInRange(p.r, delta, img.maxValue);
      AdjustInRange(p.g, delta, img.maxValue);
      AdjustInRange(p.b, delta, img.maxValue);
    }
  }

  /** Changing the brightness by zero leaves an in-range image as it is. */
  lemma BrightnessZeroIdentity(img: Image)
    requires WellShaped(img) && InRangeImage(img)
    ensures Brightness(img, 0) == img
  {
    var r := Brightness(img, 0);
    GridExtensionality(r.data, img.data, img.height, img.width);
  }

  /** A brightness change by `d` followed by one by `-d` restores each component that the
      first change did not clamp. */
  lemma BrightnessUndoAt(img: Image, d: int, i: int, j: int)
    requires WellShaped(img) && InRangeImage(img)
    requires 0 <= i < img.height && 0 <= j < img.width
    ensures var p, q := img.data[i][j], Brightness(Brightness(img, d), -d).data[i][j];
            (0 <= p.r + d <= img.maxValue ==> q.r == p.r) &&
            (0 <= p.g + d <= img.maxValue ==> q.g == p.g) &&
            (0 <= p.b + d <= img.maxValue ==> q.b == p.b)
  {
    var p := img.data[i][j];
    var once := Brightness(img, d);
    assert once.data[i][j] == AdjustPixel(p, d, img.maxValue);
    if 0 <= p.r + d <= img.maxValue { AdjustUndo(p.r, d, img.maxValue); }
    if 0 <= p.g + d <= img.maxValue { AdjustUndo(p.g, d, img.maxValue); }
    if 0 <= p.b + d <= img.maxValue { AdjustUndo(p.b, d, img.maxValue); }
  }

  /** No component of `p` is clamped by a brightness change of `d`. */
  predicate Unclamped(p: Pixel, d: int, maxValue: int)
  {
    0 <= p.r + d <= maxValue && 0 <= p.g + d <= maxValue && 0 <= p.b + d <= maxValue
  }

  /** When no component is clamped, `-d` undoes `d` on the whole image. */
  lemma BrightnessUndo(img: Image, d: int)
    requires WellShaped(img) && InRangeImage(img)
    requires forall i, j :: 0 <= i < img.height && 0 <= j < img.width ==> Unclamped(img.data[i][j], d, img.maxValue)
    ensures Brightness(Brightness(img, d), -d) == img
  {
    var twice := Brightness(Brightness(img, d), -d);
    forall i, j | 0 <= i < img.height && 0 <= j < img.width
      ensures twice.data[i][j] == img.data[i][j]
    {
      BrightnessUndoAt(img, d, i, j);
    }
    GridExtensionality(twice.data, img.data, img.height, img.width);
  }

  /** A change of at least maxValue either way saturates an in-range image: every pixel
      becomes (maxValue, maxValue, maxValue) when brightening and (0, 0, 0) when darkening. */
  lemma BrightnessSaturates(img: Image, delta: int)
    requires WellShaped(img) && InRangeImage(img)
    ensures delta >= img.maxValue ==>
              forall i, j :: 0 <= i < img.height && 0 <= j < img.width ==>
                Brightness(img, delta).data[i][j] == Grey(img.maxValue)
    ensures delta <= -img.maxValue ==>
              forall i, j :: 0 <= i < img.height && 0 <= j < img.width ==>
                Brightness(img, delta).data[i][j] == Grey(0)
  {
    var r := Brightness(img, delta);
    forall i, j | 0 <= i < img.height && 0 <= j < img.width
      ensures delta >= img.maxValue ==> r.data[i][j] == Grey(img.maxValue)
      ensures delta <= -img.maxValue ==> r.data[i][j] == Grey(0)
    {
      assert InRange(img.data[i][j], img.maxValue);
    }
  }

  /** Recombining the red, green and blue images of a split, in that order, reproduces the
      original image. */
  lemma SplitCombineRoundTrip(img: Image)
    requires WellShaped(img)
    ensures var s := Split(img); Combine(s[0], s[1], s[2]) == Ok(img)
  {
    var s := Split(img);
    var c := Combine(s[0], s[1], s[2]);
    forall i, j | 0 <= i < img.height && 0 <= j < img.width
      ensures c.value.data[i][j] == img.data[i][j]
    {
      assert s[0].data[i][j] == Grey(img.data[i][j].r);
    }
    GridExtensionality(c.value.data, img.data, img.height, img.width);
  }
}
