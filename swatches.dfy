/** Rendering of a palette as a horizontal strip of solid swatches
    (`save_palette_swatches` in src/palette.py). */
module Swatches {
  import opened PaletteTable

  /** The fill of a canvas created without a color: black. */
  const Black := Rgb(0, 0, 0)

  function Min(a: nat, b: nat): nat {
    if a <= b then a else b
  }

  /** An RGB image whose pixels are updated in place; `pixels[x, y]` is the
      pixel in column `x` and row `y`. */
  class Canvas {
    const width: nat
    const height: nat
    const pixels: array2<Rgb>

    ghost predicate Valid()
      reads this
    {
      pixels.Length0 == width && pixels.Length1 == height
    }

    /** A new `w` by `h` image filled with one color (`Image.new`). */
    constructor (w: nat, h: nat, fill: Rgb)
      ensures Valid() && fresh(pixels)
      ensures width == w && height == h
      ensures forall x, y :: 0 <= x < w && 0 <= y < h ==> pixels[x, y] == fill
    {
      width, height := w, h;
      pixels := new Rgb[w, h]((x, y) => fill);
    }

    /** Copies `src` onto this image with its upper-left corner at
        `(x0, y0)` (`Image.paste` with a 2-tuple box). The part of `src`
        that falls outside this image is dropped; every pixel outside the
        pasted rectangle keeps its color. */
    method Paste(src: Canvas, x0: nat, y0: nat)
      requires Valid() && src.Valid() && src.pixels != pixels
      modifies pixels
      ensures forall x, y :: 0 <= x < width && 0 <= y < height ==>
        pixels[x, y] == if x0 <= x < x0 + src.width && y0 <= y < y0 + src.height
                        then src.pixels[x - x0, y - y0]
                        else old(pixels[x, y])
    {
      var xEnd := Min(x0 + src.width, width);
      var yEnd := Min(y0 + src.height, height);
      for x := Min(x0, xEnd) to xEnd
        invariant forall a, b :: 0 <= a < width && 0 <= b < height ==>
          pixels[a, b] == if x0 <= a < x && y0 <= b < yEnd
                          then src.pixels[a - x0, b - y0]
                          else old(pixels[a, b])
      {
        for y := Min(y0, yEnd) to yEnd
          invariant forall a, b :: 0 <= a < width && 0 <= b < height ==>
            pixels[a, b] == if (x0 <= a < x && y0 <= b < yEnd) || (a == x && y0 <= b < y)
                            then src.pixels[a - x0, b - y0]
                            else old(pixels[a, b])
        {
          pixels[x, y] := src.pixels[x - x0, y - y0];
        }
      }
    }
  }

  /** Column `x` of a strip of `n` swatches, each `sw` wide, lies in the
      swatch numbered `x / sw`, which exists. */
  lemma SwatchOfColumn(x: nat, sw: nat, n: nat)
    requires x < sw * n
    ensures sw > 0 && x / sw < n
    ensures (x / sw) * sw <= x < (x / sw) * sw + sw
  {
  }

  /** Swatches do not overlap: every column of swatch `i` has `x / sw == i`,
      so it belongs to no other swatch. */
  lemma SwatchIndex(x: nat, sw: nat, i: nat)
    requires i * sw <= x < i * sw + sw
    ensures x / sw == i
  {
    assert sw > 0;
    var q: int, r: int := x / sw, x % sw;
    assert q * sw + r == x;
    var d: int := q - i;
    assert d * sw == (x - i * sw) - r;
    assert d * sw < sw;
    assert d * sw > 0 - sw;
    assert d < 1;
    assert d > -1;
  }

  /** The color the finished strip has in column `x`. */
  function StripColor(colors: seq<Rgb>, sw: nat, x: nat): Rgb
    requires x < sw * |colors|
  {
    SwatchOfColumn(x, sw, |colors|);
    colors[x / sw]
  }

  /** The strip while it is being drawn: columns left of `done` have their
      final color, the rest are still black. */
  function PartialStrip(colors: seq<Rgb>, sw: nat, done: nat, x: nat): Rgb
    requires x < sw * |colors|
  {
    if x < done then StripColor(colors, sw, x) else Black
  }

  /** Pasting swatch `i` at x-offset `off == i * sw` onto a strip whose first
      `i` swatches are done gives a strip whose first `i + 1` swatches are
      done. */
  lemma PasteStep(colors: seq<Rgb>, sw: nat, i: nat, off: nat, x: nat)
    requires i < |colors| && off == i * sw && x < sw * |colors|
    ensures PartialStrip(colors, sw, off + sw, x) ==
            if off <= x < off + sw then colors[i] else PartialStrip(colors, sw, off, x)
  {
    if off <= x < off + sw {
      SwatchIndex(x, sw, i);
    }
  }

  /** Once every swatch is pasted, column `x` has the color of swatch
      `x / sw`; the bounds are those of `SwatchOfColumn`, restated so that
      the strip's contract follows from this lemma alone. */
  lemma StripDone(colors: seq<Rgb>, sw: nat, x: nat)
    requires x < sw * |colors|
    ensures sw > 0 && x / sw < |colors|
    ensures PartialStrip(colors, sw, sw * |colors|, x) == colors[x / sw]
  {
    SwatchOfColumn(x, sw, |colors|);
  }

  /** Pastes swatch `i`, a solid `sw` by `sh` block of `colors[i]`, at
      x-offset `i * sw` for every `i`, in order, onto a black strip. */
  method PasteSwatches(img: Canvas, colors: seq<Rgb>, sw: nat, sh: nat)
    requires img.Valid() && img.width == sw * |colors| && img.height == sh
    requires forall x, y :: 0 <= x < img.width && 0 <= y < sh ==> img.pixels[x, y] == Black
    modifies img.pixels
    ensures forall x, y :: 0 <= x < img.width && 0 <= y < sh ==>
      img.pixels[x, y] == PartialStrip(colors, sw, img.width, x)
  {
    for i := 0 to |colors|
      invariant forall x, y :: 0 <= x < img.width && 0 <= y < sh ==>
        img.pixels[x, y] == PartialStrip(colors, sw, i * sw, x)
    {
      var off := i * sw;
      var block := new Canvas(sw, sh, colors[i]);
      img.Paste(block, off, 0);
      forall x, y | 0 <= x < img.width && 0 <= y < sh
        ensures img.pixels[x, y] == PartialStrip(colors, sw, off + sw, x)
      {
        PasteStep(colors, sw, i, off, x);
      }
      assert off + sw == (i + 1) * sw;
    }
  }

  /** The strip: a `sw * len(colors)` by `sh` canvas, created black, onto
      which the swatches are pasted. Every pixel ends up the color of the
      swatch its column lies in. */
  method SavePaletteSwatches(colors: seq<Rgb>, sw: nat, sh: nat) returns (img: Canvas)
    ensures fresh(img) && fresh(img.pixels) && img.Valid()
    ensures img.width == sw * |colors| && img.height == sh
    ensures forall x, y :: 0 <= x < img.width && 0 <= y < img.height ==>
      sw > 0 && x / sw < |colors| && img.pixels[x, y] == colors[x / sw]
  {
    img := new Canvas(sw * |colors|, sh, Black);
    PasteSwatches(img, colors, sw, sh);
    forall x, y | 0 <= x < img.width && 0 <= y < img.height
      ensures sw > 0 && x / sw < |colors| && img.pixels[x, y] == colors[x / sw]
    {
      StripDone(colors, sw, x);
    }
  }
}
