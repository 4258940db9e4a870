/** How `main` in src/palette.py chains the modelled pieces: the palette
    strip drawn from the decoded table with the default swatch size, and the
    page written for the files of one run. Argument parsing, the existence
    check on the input, image decoding and all file writes are not part of
    this model. */
module Pipeline {
  import opened PaletteTable
  import opened Swatches
  import opened PosixPath
  import opened HtmlPage

  /** Default width and height of a swatch. */
  const SwatchSize: nat := 100

  const HistogramFile := "histogram.png"
  const PaletteFile := "palette.png"

  /** Decode the first `nColors` colors of the quantizer's table and draw them
      as a strip of 100 by 100 swatches. No strip is drawn when decoding
      raises `IndexError`. */
  method RenderPalette(palette: seq<Entry>, nColors: int) returns (img: Canvas?)
    ensures img == null <==> 3 * Count(nColors) > |palette|
    ensures img != null ==>
      fresh(img) && img.Valid() &&
      img.width == SwatchSize * Count(nColors) && img.height == SwatchSize &&
      forall x, y :: 0 <= x < img.width && 0 <= y < img.height ==>
        x / SwatchSize < Count(nColors) &&
        img.pixels[x, y] == Triplet(palette, x / SwatchSize)
  {
    var decoded := GetAdaptivePalette(palette, nColors);
    if decoded.IndexError? {
      return null;
    }
    DecodedAt(palette, Count(nColors));
    img := SavePaletteSwatches(decoded.colors, SwatchSize, SwatchSize);
  }

  /** The page `main` writes: the original is first copied to
      `join(outdir, basename(input))`, and the chart and the strip are
      written to `histogram.png` and `palette.png` in `outdir`. The output
      directory does not show in the page: it is the page generated from the
      three bare file names. */
  function RunPage(input: string, outdir: string): (page: string)
    ensures page == GenerateHtml(Basename(input), HistogramFile, PaletteFile)
  {
    BasenameOfJoin(outdir, Basename(input));
    BasenameIdempotent(input);
    BasenameOfJoin(outdir, HistogramFile);
    BasenameOfJoin(outdir, PaletteFile);
    HistogramFileName();
    PaletteFileName();
    GenerateHtml(Join(outdir, Basename(input)), Join(outdir, HistogramFile), Join(outdir, PaletteFile))
  }

  /** The fixed output names hold no `/`, so they are their own basenames,
      and no double quote. */
  lemma HistogramFileName()
    ensures Basename(HistogramFile) == HistogramFile && '"' !in HistogramFile
  {
    assert RFind(HistogramFile, Sep) == -1;
  }

  lemma PaletteFileName()
    ensures Basename(PaletteFile) == PaletteFile && '"' !in PaletteFile
  {
    assert RFind(PaletteFile, Sep) == -1;
  }

  /** Whatever the output directory, the page refers to the three files by
      name alone, in the order original, histogram, palette, so it works
      from inside that directory. */
  lemma {:induction false} RunPageReferences(input: string, outdir: string)
    requires '"' !in Basename(input)
    ensures ImgSrcs(RunPage(input, outdir)) == [Basename(input), HistogramFile, PaletteFile]
  {
    BasenameIdempotent(input);
    HistogramFileName();
    PaletteFileName();
    GenerateHtmlReferences(Basename(input), HistogramFile, PaletteFile);
  }
}
