/** Rectangular pixel grids as immutable sequences of rows, the value an image holds in
    place of its `IPixel[][]` array. */
module Grids {
  import opened Pixels

  type Grid = seq<seq<Pixel>>

  /** `g` has `height` rows, each of length `width`. */
  predicate IsRect(g: Grid, height: int, width: int)
  {
    |g| == height && 0 <= width && forall i :: 0 <= i < |g| ==> |g[i]| == width
  }

  /** `h` applied to every pixel of a row, left to right. */
  function MapRow(row: seq<Pixel>, h: Pixel -> Pixel): (r: seq<Pixel>)
    ensures |r| == |row|
    ensures forall j :: 0 <= j < |row| ==> r[j] == h(row[j])
  {
    if row == [] then [] else [h(row[0])] + MapRow(row[1..], h)
  }

  /** `h` applied to every pixel of a grid, row by row. */
  function MapGrid(g: Grid, h: Pixel -> Pixel): (r: Grid)
    ensures |r| == |g|
    ensures forall i :: 0 <= i < |g| ==> |r[i]| == |g[i]|
    ensures forall i, j :: 0 <= i < |g| && 0 <= j < |g[i]| ==> r[i][j] == h(g[i][j])
  {
    if g == [] then [] else [MapRow(g[0], h)] + MapGrid(g[1..], h)
  }

  /** The row whose pixel j takes red from `rs[j]`, green from `gs[j]`, blue from `bs[j]`. */
  function CombineRow(rs: seq<Pixel>, gs: seq<Pixel>, bs: seq<Pixel>): (r: seq<Pixel>)
    requires |gs| == |rs| && |bs| == |rs|
    ensures |r| == |rs|
    ensures forall j :: 0 <= j < |rs| ==> r[j] == Pixel(rs[j].r, gs[j].g, bs[j].b)
  {
    if rs == [] then [] else [CombinePixel(rs[0], gs[0], bs[0])] + CombineRow(rs[1..], gs[1..], bs[1..])
  }

  /** The grid combined channel by channel from three grids of the same shape. */
  function CombineGrid(rg: Grid, gg: Grid, bg: Grid, width: int): (r: Grid)
    requires IsRect(rg, |rg|, width) && IsRect(gg, |rg|, width) && IsRect(bg, |rg|, width)
    ensures IsRect(r, |rg|, width)
    ensures forall i, j :: 0 <= i < |rg| && 0 <= j < width ==>
              r[i][j] == Pixel(rg[i][j].r, gg[i][j].g, bg[i][j].b)
  {
    if rg == [] then []
    else [CombineRow(rg[0], gg[0], bg[0])] + CombineGrid(rg[1..], gg[1..], bg[1..], width)
  }

  /** The contents of a two-dimensional array, read row by row. */
  function Freeze(a: array2<Pixel>): (g: Grid)
    reads a
    ensures IsRect(g, a.Length0, a.Length1)
    ensures forall i, j :: 0 <= i < a.Length0 && 0 <= j < a.Length1 ==> g[i][j] == a[i, j]
  {
    seq(a.Length0, i requires 0 <= i < a.Length0 reads a =>
      seq(a.Length1, j requires 0 <= j < a.Length1 reads a => a[i, j]))
  }

  /** Two grids of the same shape that agree at every position are equal. */
  lemma GridExtensionality(a: Grid, b: Grid, height: int, width: int)
    requires IsRect(a, height, width) && IsRect(b, height, width)
    requires forall i, j :: 0 <= i < height && 0 <= j < width ==> a[i][j] == b[i][j]
    ensures a == b
  {
    forall i | 0 <= i < height
      ensures a[i] == b[i]
    {
      assert forall j :: 0 <= j < width ==> a[i][j] == b[i][j];
    }
  }
}
