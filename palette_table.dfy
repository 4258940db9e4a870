/** Decoding of the quantizer's flat color table into RGB triplets
    (`get_adaptive_palette` in src/palette.py).

    The quantization itself is library code and is not modelled: the flat
    table it produces is an input here. */
module PaletteTable {

  /** One slot of the flat table returned by `getpalette()`: an integer
      component, or Python's `None`. */
  datatype Entry = Missing | Value(v: int)

  /** One palette color, a `(r, g, b)` tuple. */
  datatype Rgb = Rgb(r: int, g: int, b: int)

  /** Outcome of decoding: the colors, or the `IndexError` raised by the
      first read past the end of the table, with the index that was read. */
  datatype Decoding = Colors(colors: seq<Rgb>) | IndexError(index: nat)

  /** Python's `x or 0` on a table slot: `None` and the falsy `0` give 0, so a
      missing slot becomes 0 and a present one passes through unchanged. */
  function OrZero(e: Entry): (c: int)
    ensures c == (if e.Value? then e.v else 0)
  {
    match e
    case Missing => 0
    case Value(v) => if v == 0 then 0 else v
  }

  /** The `i`-th triplet of the flat table: slots 3i, 3i+1 and 3i+2. */
  function Triplet(palette: seq<Entry>, i: nat): (t: Rgb)
    requires 3 * i + 2 < |palette|
    ensures t.r == if palette[3 * i].Value? then palette[3 * i].v else 0
    ensures t.g == if palette[3 * i + 1].Value? then palette[3 * i + 1].v else 0
    ensures t.b == if palette[3 * i + 2].Value? then palette[3 * i + 2].v else 0
  {
    Rgb(OrZero(palette[3 * i]), OrZero(palette[3 * i + 1]), OrZero(palette[3 * i + 2]))
  }

  /** The first `n` triplets of the table, in table order, built by appending
      one triplet at a time as the source's loop does. */
  function Decoded(palette: seq<Entry>, n: nat): (colors: seq<Rgb>)
    requires 3 * n <= |palette|
    ensures |colors| == n
  {
    if n == 0 then [] else Decoded(palette, n - 1) + [Triplet(palette, n - 1)]
  }

  /** `range(n_colors)` runs `max(n_colors, 0)` times. */
  function Count(nColors: int): (c: nat)
    ensures c == 0 <==> nColors <= 0
    ensures c > 0 ==> c == nColors
  {
    if nColors <= 0 then 0 else nColors
  }

  /** The loop of `get_adaptive_palette`: read the three components of each
      of the first `nColors` triplets, in order, and append the triplet with
      missing components replaced by 0. A read past the end of the table
      raises `IndexError`. */
  method GetAdaptivePalette(palette: seq<Entry>, nColors: int) returns (res: Decoding)
    ensures res.Colors? <==> 3 * Count(nColors) <= |palette|
    ensures res.Colors? ==> res.colors == Decoded(palette, Count(nColors))
    ensures res.IndexError? ==> res.index == |palette|
  {
    var colors: seq<Rgb> := [];
    var i := 0;
    while i < nColors
      invariant 0 <= i <= Count(nColors)
      invariant 3 * i <= |palette|
      invariant colors == Decoded(palette, i)
    {
      if 3 * i >= |palette| {
        return IndexError(3 * i);
      }
      var r := palette[3 * i];
      if 3 * i + 1 >= |palette| {
        return IndexError(3 * i + 1);
      }
      var g := palette[3 * i + 1];
      if 3 * i + 2 >= |palette| {
        return IndexError(3 * i + 2);
      }
      var b := palette[3 * i + 2];
      colors := colors + [Rgb(OrZero(r), OrZero(g), OrZero(b))];
      i := i + 1;
    }
    return Colors(colors);
  }

  /** Entry `i` of the decoded list is built from slots 3i, 3i+1, 3i+2:
      nothing is sorted, merged or dropped. */
  lemma {:induction false} DecodedAt(palette: seq<Entry>, n: nat)
    requires 3 * n <= |palette|
    ensures forall i :: 0 <= i < n ==>
      Decoded(palette, n)[i] == Rgb(OrZero(palette[3 * i]), OrZero(palette[3 * i + 1]), OrZero(palette[3 * i + 2]))
  {
    if n > 0 {
      DecodedAt(palette, n - 1);
    }
  }

  /** Every present slot of the table is a byte. */
  predicate ByteTable(palette: seq<Entry>) {
    forall k :: 0 <= k < |palette| && palette[k].Value? ==> 0 <= palette[k].v <= 255
  }

  predicate IsByte(c: int) {
    0 <= c <= 255
  }

  /** Components of a table whose present slots are bytes decode to bytes. */
  lemma {:induction false} DecodedBytes(palette: seq<Entry>, n: nat)
    requires 3 * n <= |palette| && ByteTable(palette)
    ensures forall i :: 0 <= i < |Decoded(palette, n)| ==>
      IsByte(Decoded(palette, n)[i].r) && IsByte(Decoded(palette, n)[i].g) && IsByte(Decoded(palette, n)[i].b)
  {
    if n > 0 {
      DecodedBytes(palette, n - 1);
    }
  }

  /** Asking for fewer colors gives a prefix of the longer list. */
  lemma {:induction false} DecodedPrefix(palette: seq<Entry>, m: nat, n: nat)
    requires m <= n && 3 * n <= |palette|
    ensures Decoded(palette, m) == Decoded(palette, n)[..m]
  {
    DecodedAt(palette, m);
    DecodedAt(palette, n);
  }

  /** The usual 768-slot table (256 triplets) decodes without error exactly
      when at most 256 colors are requested. */
  lemma StandardTable(palette: seq<Entry>, nColors: int)
    requires |palette| == 768
    ensures 3 * Count(nColors) <= |palette| <==> nColors <= 256
  {
  }

  /** The flat table a list of colors is stored as: three slots per color. */
  function Flatten(colors: seq<Rgb>): (table: seq<Entry>)
    ensures |table| == 3 * |colors|
  {
    if colors == [] then []
    else Flatten(colors[..|colors| - 1]) + [Value(colors[|colors| - 1].r), Value(colors[|colors| - 1].g), Value(colors[|colors| - 1].b)]
  }

  /** Decoding a flattened list of colors (followed by any further slots)
      gives the colors back, in order and with duplicates kept. */
  lemma {:induction false} DecodeFlatten(colors: seq<Rgb>, rest: seq<Entry>)
    ensures 3 * |colors| <= |Flatten(colors) + rest|
    ensures Decoded(Flatten(colors) + rest, |colors|) == colors
  {
    var n := |colors|;
    var table := Flatten(colors) + rest;
    DecodedAt(table, n);
    forall i | 0 <= i < n
      ensures Decoded(table, n)[i] == colors[i]
    {
      FlattenAt(colors, i);
    }
  }

  /** Slot layout of a flattened list: color `i` occupies slots 3i..3i+2. */
  lemma {:induction false} FlattenAt(colors: seq<Rgb>, i: nat)
    requires i < |colors|
    ensures Flatten(colors)[3 * i] == Value(colors[i].r)
    ensures Flatten(colors)[3 * i + 1] == Value(colors[i].g)
    ensures Flatten(colors)[3 * i + 2] == Value(colors[i].b)
  {
    if i < |colors| - 1 {
      FlattenAt(colors[..|colors| - 1], i);
    }
  }
}
