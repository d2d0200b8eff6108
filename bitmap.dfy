/**
 * The bitmap pixel buffer (lib/bitmap.hpp): width * height colours in a flat
 * row-major array, pixel (x, y) at index width * y + x. Coordinates are not
 * checked at run time, so every access requires 0 <= x < width and
 * 0 <= y < height.
 */
module Bitmaps {
  import opened Colors
  import opened RowMajor

  /** An image as rows: img[y][x] is the colour of pixel (x, y). */
  predicate IsImage(img: seq<seq<Color>>, width: nat, height: nat)
  {
    |img| == height && forall y :: 0 <= y < height ==> |img[y]| == width
  }

  /** The all-black image of the given size. */
  function Blank(width: nat, height: nat): (img: seq<seq<Color>>)
    ensures IsImage(img, width, height)
    ensures forall y, x :: 0 <= y < height && 0 <= x < width ==> img[y][x] == Black
  {
    seq(height, y requires 0 <= y < height => seq(width, x requires 0 <= x < width => Black))
  }

  /** The image with pixel (x, y) replaced by c. */
  function Paint(img: seq<seq<Color>>, x: nat, y: nat, c: Color): (r: seq<seq<Color>>)
    requires y < |img| && x < |img[y]|
    ensures |r| == |img|
    ensures forall v :: 0 <= v < |r| ==> |r[v]| == |img[v]|
    ensures forall v, u :: 0 <= v < |r| && 0 <= u < |r[v]| ==>
      r[v][u] == if v == y && u == x then c else img[v][u]
  {
    img[y := img[y][x := c]]
  }

  /**
   * memcpy of a whole buffer: afterwards dst holds what src held before the
   * call; when both name the same buffer nothing changes.
   */
  method MemCopy(dst: array<Color>, src: array<Color>)
    requires dst.Length == src.Length
    modifies dst
    ensures forall u :: 0 <= u < dst.Length ==> dst[u] == old(src[u])
  {
    for t := 0 to dst.Length
      invariant forall u :: 0 <= u < t ==> dst[u] == old(src[u])
      invariant forall u :: t <= u < src.Length ==> src[u] == old(src[u])
    {
      dst[t] := src[t];
    }
  }

  /** make_unique followed by memcpy: a fresh buffer holding the first count cells of src. */
  method CopyCells(src: array<Color>, count: nat) returns (dst: array<Color>)
    requires count == src.Length
    ensures fresh(dst) && dst.Length == count
    ensures forall t :: 0 <= t < count ==> dst[t] == src[t]
  {
    dst := new Color[count](_ => Black);
    MemCopy(dst, src);
  }

  class Bitmap {
    var width: nat
    var height: nat
    var pixels: array<Color>
    ghost var contents: seq<seq<Color>>

    ghost predicate Valid()
      reads this, pixels
    {
      pixels.Length == Offset(width, height, 0) && IsImage(contents, width, height) &&
      forall y, x :: 0 <= y < height && 0 <= x < width ==>
        Offset(width, y, x) < pixels.Length && contents[y][x] == pixels[Offset(width, y, x)]
    }

    /** The image the buffer holds, row by row. */
    ghost function Value(): seq<seq<Color>>
      reads this
    {
      contents
    }

    /** The constructor: a zero-initialised buffer of width * height colours. */
    constructor (width: nat, height: nat)
      ensures Valid() && this.width == width && this.height == height && fresh(pixels)
      ensures Value() == Blank(width, height)
    {
      this.width, this.height := width, height;
      OffsetIsProduct(width, height, 0);
      pixels := new Color[width * height](_ => Black);
      contents := Blank(width, height);
      new;
      forall y, x | 0 <= y < height && 0 <= x < width
        ensures Offset(width, y, x) < pixels.Length && contents[y][x] == pixels[Offset(width, y, x)]
      {
        OffsetBelow(width, height, y, x);
      }
    }

    /** The copy constructor: the same dimensions and pixels in a buffer of its own. */
    constructor Copy(other: Bitmap)
      requires other.Valid()
      ensures Valid() && width == other.width && height == other.height
      ensures Value() == other.Value() && fresh(pixels)
    {
      width, height := other.width, other.height;
      OffsetIsProduct(other.width, other.height, 0);
      var copy := CopyCells(other.pixels, other.width * other.height);
      pixels := copy;
      contents := other.contents;
    }

    /**
     * operator=, with the copy taken before the new buffer is installed: the
     * receiver ends with the dimensions and pixels other had, in a buffer of
     * its own, self-assignment included.
     */
    method Assign(other: Bitmap)
      requires Valid() && other.Valid()
      modifies this
      ensures Valid() && width == old(other.width) && height == old(other.height)
      ensures Value() == old(other.Value()) && fresh(pixels)
    {
      OffsetIsProduct(other.width, other.height, 0);
      var copy := CopyCells(other.pixels, other.width * other.height);
      width, height := other.width, other.height;
      contents := other.contents;
      pixels := copy;
    }

    /**
     * operator= as written: the new, zero-initialised buffer replaces the
     * receiver's before the copy reads other's. On self-assignment the copy
     * therefore reads the new buffer and every pixel becomes black.
     */
    method AssignAsWritten(other: Bitmap)
      requires Valid() && other.Valid()
      modifies this
      ensures Valid() && width == old(other.width) && height == old(other.height) && fresh(pixels)
      ensures other != this ==> Value() == old(other.Value())
      ensures other == this ==> Value() == Blank(width, height)
    {
      ghost var image := other.contents;
      width, height := other.width, other.height;
      OffsetIsProduct(width, height, 0);
      var buffer := new Color[width * height](_ => Black);
      pixels := buffer;
      MemCopy(pixels, other.pixels);
      if other == this {
        contents := Blank(width, height);
      } else {
        contents := image;
      }
      forall y, x | 0 <= y < height && 0 <= x < width
        ensures Offset(width, y, x) < pixels.Length && contents[y][x] == pixels[Offset(width, y, x)]
      {
        OffsetBelow(width, height, y, x);
      }
    }

    /** get_width. */
    function GetWidth(): nat
      reads this
    {
      width
    }

    /** get_height. */
    function GetHeight(): nat
      reads this
    {
      height
    }

    /** get_pixel, and reading through operator(): the colour of pixel (x, y). */
    function GetPixel(x: nat, y: nat): (c: Color)
      requires Valid() && x < width && y < height
      reads this, pixels
      ensures c == Value()[y][x]
    {
      pixels[Offset(width, y, x)]
    }

    /**
     * set_pixel, and writing through operator(): pixel (x, y) becomes c and
     * every other pixel, the dimensions and the buffer itself stay.
     */
    method SetPixel(c: Color, x: nat, y: nat)
      requires Valid() && x < width && y < height
      modifies this, pixels
      ensures Valid() && width == old(width) && height == old(height) && pixels == old(pixels)
      ensures Value() == Paint(old(Value()), x, y, c)
    {
      pixels[Offset(width, y, x)] := c;
      contents := Paint(contents, x, y, c);
      forall v, u | 0 <= v < height && 0 <= u < width
        ensures Offset(width, v, u) < pixels.Length && contents[v][u] == pixels[Offset(width, v, u)]
      {
        OffsetBelow(width, height, v, u);
        if Offset(width, v, u) == Offset(width, y, x) {
          OffsetInjective(width, v, u, y, x);
        }
      }
    }
  }

  /** A written pixel reads back as written, and painting the same pixel twice keeps only the last colour. */
  lemma {:induction false} PaintThenRead(img: seq<seq<Color>>, x: nat, y: nat, c: Color, d: Color)
    requires y < |img| && x < |img[y]|
    ensures Paint(img, x, y, c)[y][x] == c
    ensures Paint(Paint(img, x, y, c), x, y, d) == Paint(img, x, y, d)
    ensures IsImage(img, |img[y]|, |img|) ==> IsImage(Paint(img, x, y, c), |img[y]|, |img|)
  {
    assert img[y][x := c][x := d] == img[y][x := d];
  }

  /** The pixel index width * y + x of an in-range pixel lies below width * height. */
  lemma {:induction false} PixelIndexInRange(width: nat, height: nat, x: nat, y: nat)
    requires x < width && y < height
    ensures width * y + x < width * height
  {
    OffsetBelow(width, height, y, x);
    OffsetIsProduct(width, y, x);
    OffsetIsProduct(width, height, 0);
  }

  /** Scenario of the size test: a new 4 x 4 bitmap reports its size and pixel (2, 2) is black. */
  method SizeScenario() returns (w: nat, h: nat, c: Color)
    ensures w == 4 && h == 4 && c == Black
  {
    var b := new Bitmap(4, 4);
    w, h := b.GetWidth(), b.GetHeight();
    c := b.GetPixel(2, 2);
  }

  /** Scenario of the set/get test: pixel (2, 2) reads back as (1, 0, 1) and its neighbour stays black. */
  method SetGetScenario() returns (c: Color, other: Color)
    ensures c == Color(1.0, 0.0, 1.0) && other == Black
  {
    var b := new Bitmap(4, 4);
    b.SetPixel(Color(1.0, 0.0, 1.0), 2, 2);
    c := b.GetPixel(2, 2);
    other := b.GetPixel(3, 2);
  }

  /** After a copy, writing to the copy leaves the original untouched. */
  method CopyIndependence(b: Bitmap, c: Color, x: nat, y: nat) returns (copy: Bitmap)
    requires b.Valid() && x < b.width && y < b.height
    modifies {}
    ensures copy.Valid() && b.Valid() && copy.width == b.width && copy.height == b.height
    ensures copy.GetPixel(x, y) == c
    ensures b.Value() == old(b.Value())
  {
    copy := new Bitmap.Copy(b);
    copy.SetPixel(c, x, y);
  }
}
