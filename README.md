# Palette visualizer: a Dafny model of its own logic

`src/palette.py` reads an image and writes three things to an output directory:
a histogram chart, a strip of palette swatches and an HTML page that shows them
next to a copy of the original image. Most of the program calls into image,
array and charting libraries. This project models the program's own logic and
proves properties of it:

- **Palette-table decoding** (`get_adaptive_palette`), module `PaletteTable`,
  file `palette_table.dfy`. The quantizer's flat color table is an input: a
  sequence of slots, each an integer or `None`. The loop reads slots `3i`, `3i+1`
  and `3i+2` for `i` in `range(n_colors)` and appends the triplet with `x or 0`
  applied to each slot. A read past the end of the table raises `IndexError`,
  which is modelled as a result value.
- **Swatch strip** (`save_palette_swatches`), module `Swatches`, file
  `swatches.dfy`. A `Canvas` class holds a 2-D pixel array that is updated in
  place. Its constructor models `Image.new` and its `Paste` method models
  `Image.paste`, which clips to the canvas. The strip method creates a black
  `sw*n × sh` canvas and pastes one solid `sw × sh` block per color at
  x-offset `i*sw`.
- **Page composition** (`generate_html`), modules `PosixPath` (`posix_path.dfy`:
  `os.path.basename` and the two-argument `os.path.join`) and `HtmlPage`
  (`html_page.dfy`: the page template, character for character).
  `ImgSrcs` is a reference reader: it lists the `src` values of the
  `<img src="...">` tags of a page in document order. It is used to state
  which images the page refers to and in what order.
- **Composition in `main`**, module `Pipeline`, file `pipeline.dfy`. The strip
  is drawn from the decoded table with the default 100×100 swatches. The page
  is generated from the paths `main` builds with `os.path.join`.

Integers are unbounded. Components are Python `int`s, so no width applies to
them. Strings are sequences of characters.

Short tables are not padded with black. `or 0` only turns a `None` slot into
0. A table shorter than `3*n_colors` slots raises `IndexError`, and so does the
model (`GetAdaptivePalette` returns `IndexError`). Because the slots are read
in order `0, 1, 2, …`, the first out-of-range read is always at index
`len(palette)`.

## Model

| member | source | states |
|---|---|---|
| `PaletteTable.Triplet` | src/palette.py:50-53 | Each component of triplet `i` is the value of its slot (`3i`, `3i+1` or `3i+2`), or 0 when that slot is `None`. |
| `PaletteTable.Count` | src/palette.py:49 | `range(n_colors)` runs zero times exactly when `n_colors ≤ 0`, and otherwise `n_colors` times. |
| `PaletteTable.OrZero` | src/palette.py:53 | `x or 0` on a slot: `None` becomes 0, and an integer passes through unchanged (0 included). |
| `PaletteTable.Decoded` | src/palette.py:48-54 | Decoding `n` triplets gives a list of exactly `n` colors. |
| `PaletteTable.GetAdaptivePalette` | src/palette.py:48-54 | The loop succeeds exactly when the table has at least `3*max(n_colors, 0)` slots; a negative count gives an empty list. On success the result is the first `max(n_colors, 0)` decoded triplets in table order. On failure the `IndexError` is raised at index `len(palette)`. |
| `PaletteTable.DecodedAt` | src/palette.py:49-53 | Color `i` is `(palette[3i] or 0, palette[3i+1] or 0, palette[3i+2] or 0)`. Nothing is sorted, deduplicated or dropped. |
| `PaletteTable.DecodedBytes` | src/palette.py:53 | If every present slot is within 0..255, every decoded component is within 0..255. |
| `PaletteTable.DecodedPrefix` | src/palette.py:47-49 | Asking for `m ≤ n` colors gives the first `m` of the `n`-color list, so the result is the first entries of the table. |
| `PaletteTable.StandardTable` | src/palette.py:47 | With the usual 768-slot table, decoding succeeds exactly when `n_colors ≤ 256`. |
| `PaletteTable.Flatten` | src/palette.py:46 | The flat-table layout of a color list has three slots per color. |
| `PaletteTable.FlattenAt` | src/palette.py:46 | In the flat layout, color `i` occupies slots `3i`, `3i+1` and `3i+2` as `r`, `g`, `b`. |
| `PaletteTable.DecodeFlatten` | src/palette.py:46-54 | Round trip: decoding a flattened color list, followed by any further slots, gives the list back, duplicates included. |
| `Swatches.Canvas.constructor` | src/palette.py:58 | `Image.new`: a `w × h` canvas in which every pixel has the fill color. |
| `Swatches.Canvas.Paste` | src/palette.py:61 | `Image.paste` at `(x0, y0)`: pixels inside the pasted rectangle, clipped to the canvas, take the source's pixels. Every other pixel keeps its old color. |
| `Swatches.SwatchOfColumn` | src/palette.py:58-61 | Every column `x < sw*n` lies in swatch `x / sw`, which is one of the `n` swatches, and `sw > 0`. |
| `Swatches.SwatchIndex` | src/palette.py:59-61 | Swatches do not overlap: every column in `[i*sw, (i+1)*sw)` has `x / sw == i`. |
| `Swatches.PasteStep` | src/palette.py:59-61 | Pasting swatch `i` at x-offset `i*sw` onto a strip whose first `i` swatches are done gives a strip whose first `i+1` swatches are done. Columns outside the new swatch are unchanged. |
| `Swatches.StripDone` | src/palette.py:56-61 | Once all `len(colors)` swatches are pasted, column `x` has the color `colors[x / sw]`, and that swatch exists. |
| `Swatches.PasteSwatches` | src/palette.py:59-61 | The `enumerate` loop. It starts from an all-black canvas and pastes the swatches in order, leaving every column with its finished strip color. Its loop invariant says that after `i` pastes, columns left of `i*sw` have their final colors and the rest are still black. |
| `Swatches.SavePaletteSwatches` | src/palette.py:56-61 | The strip is exactly `sw*len(colors)` wide and `sh` high, and pixel `(x, y)` has color `colors[x / sw]`. |
| `PosixPath.RFind` | src/palette.py:77 | `rfind`: the index of the last `/`, or -1 if there is none. |
| `PosixPath.Basename` | src/palette.py:77-81 | `os.path.basename`: the longest suffix of the path that contains no `/`. |
| `PosixPath.BasenameOfSplit` | src/palette.py:77-81 | If a path is `dir + name`, where `dir` is empty or ends in `/` and `name` has no `/`, then its basename is `name`. |
| `PosixPath.BasenameIdempotent` | src/palette.py:107 | Taking the basename twice changes nothing. |
| `PosixPath.RFindAppend` | src/palette.py:77 | The last `/` of `p + s` is the last `/` of `s` if `s` has one, and otherwise the last `/` of `p`. |
| `PosixPath.BasenameAfterSep` | src/palette.py:77-81 | A prefix that is empty or ends in `/` does not change the basename. |
| `PosixPath.Join` | src/palette.py:107-112 | `os.path.join`: an absolute second part replaces the first. Otherwise the result begins with the first part and ends with the second. Exactly one `/` is inserted between them unless the first part is empty or already ends in `/`, in which case nothing is inserted. |
| `PosixPath.BasenameOfJoin` | src/palette.py:107-112 | `basename(join(a, b)) == basename(b)` for every `a` and `b`. |
| `HtmlPage.GenerateHtml` | src/palette.py:64-84 | The page template. Every page, whatever the paths, ends with the closing `</div>`, `</body>` and `</html>` lines. What it refers to is stated by `GenerateHtmlReferences`, and its caption by `GenerateHtmlCaption`. |
| `HtmlPage.PageBody` | src/palette.py:77-84 | The page after the heading (the caption and the three cards) ends with the closing lines. |
| `HtmlPage.OriginalCards` | src/palette.py:78-84 | The page from the original's card onwards ends with the closing lines. |
| `HtmlPage.HistogramCards` | src/palette.py:79-84 | The page from the end of the original's reference onwards ends with the closing lines. |
| `HtmlPage.PaletteCards` | src/palette.py:80-84 | The page from the end of the histogram's reference onwards ends with the closing lines. |
| `HtmlPage.UntilQuote` | src/palette.py:79-81 | An attribute value runs up to the first double quote: the result is the longest prefix without one. |
| `HtmlPage.SkipNoImgStart` | src/palette.py:65-76 | Text in which no `<` is followed by `i` adds no image reference. |
| `HtmlPage.SkipQuoteFree` | src/palette.py:77 | A name without a double quote, followed by a tag, adds no image reference. |
| `HtmlPage.ReadImgSrc` | src/palette.py:79-81 | `<img src="` followed by a quote-free value and a quote contributes exactly that value. |
| `HtmlPage.PreambleHasNoImg` | src/palette.py:65-76 | The head, the style sheet and the heading contain no image reference. |
| `HtmlPage.CardsHaveNoImg` | src/palette.py:78-81 | The fixed text of the three cards contains no image reference. |
| `HtmlPage.ClosingHasNoImg` | src/palette.py:81-84 | The closing text of the page contains no image reference. |
| `HtmlPage.PaletteCardsReferences` | src/palette.py:81-84 | From the palette card to the end, the page refers only to the palette's basename. |
| `HtmlPage.HistogramCardsReferences` | src/palette.py:80-84 | From the histogram card to the end, the page refers to the histogram and then the palette. |
| `HtmlPage.OriginalCardsReferences` | src/palette.py:79-84 | From the original card to the end, the page refers to the original, the histogram and the palette, in that order. |
| `HtmlPage.GenerateHtmlReferences` | src/palette.py:64-84 | The page has exactly three `<img src="…">` references: the basenames of the original, histogram and palette paths, in that order. This holds when none of the three basenames contains a double quote. Markup that a `<` in a name brings in is not counted (see "Left out"). |
| `HtmlPage.QuotedOriginalCards` | src/palette.py:79 | If the original's name is `v + '"' + w` and `v` has no double quote, the original's card reads the reference `v`. |
| `HtmlPage.GenerateHtmlCaption` | src/palette.py:76-77 | After the heading, the page has the line `<p>Input image: NAME</p>`, where NAME is the original path's basename. |
| `HtmlPage.QuoteInNameCutsReference` | src/palette.py:77-79 | Names are not escaped. A double quote in the original's basename ends its `src` value early, so the first reference is only the part before the quote. It is stated for a basename that contains no `<`. |
| `Pipeline.RenderPalette` | src/palette.py:115-116 | Decoding followed by drawing with the default 100×100 swatches. No strip exists when decoding raises `IndexError`. Otherwise the strip is `100*max(n_colors, 0)` wide and 100 high, and pixel `(x, y)` is triplet `x / 100` of the table. The quantizer that runs first (line 45) is not modelled; see "Left out". |
| `Pipeline.RunPage` | src/palette.py:107-117 | The page `main` writes is the page generated from the bare names `basename(input)`, `histogram.png` and `palette.png`, whatever the output directory. |
| `Pipeline.HistogramFileName` | src/palette.py:110 | `histogram.png` is its own basename and contains no double quote. |
| `Pipeline.PaletteFileName` | src/palette.py:111 | `palette.png` is its own basename and contains no double quote. |
| `Pipeline.RunPageReferences` | src/palette.py:107-117 | For any output directory, the `<img src="…">` references of the page `main` writes are `basename(input)`, `histogram.png` and `palette.png`, in that order, with no directory part. This holds when the input's basename contains no double quote. |

## Left out

- Color quantization (`img.convert('P', palette=Image.ADAPTIVE, colors=n)`, line 45) is library code. The flat table it returns is an input to the model, and its length is not assumed to be 768.
- `save_histogram` (lines 19-41) is not modelled. It consists of charting-library calls with floating-point binning, and its only own logic is the `ndim == 2` dispatch.
- Image decoding, RGB conversion and all encoding and saving are library I/O and are not modelled (lines 62, 104, 108). This includes `img.save` for the strip and the copy of the original.
- `make_output_dir` is not modelled (lines 16-17), nor are argument parsing, the existence check with exit status 2 and the final print (lines 88-101, 119). All of these are file-system and process plumbing.
- The page is modelled as a string. Writing it to `index.html` is not modelled (lines 85-86).
- `Swatches.SavePaletteSwatches`: the swatch width and height are natural numbers. The `ValueError` that the image library raises for a negative size is not modelled, and neither is the behaviour of saving a zero-width strip.
- `Swatches.Canvas.Paste`: pasting at a negative offset is not modelled, because the program only pastes at non-negative offsets. The library's checks on color values are not modelled either: a pixel holds the `(r, g, b)` tuple as given.
- `PaletteTable.OrZero`: only `None` and integers are modelled as table slots, because the table holds nothing else. Other falsy Python values are not modelled.
- `PaletteTable.GetAdaptivePalette`: the table and the count are free inputs. The quantizer at line 45 runs before the loop, and the image library rejects counts outside 1..256 there. So the empty result for `n_colors ≤ 0` is what the loop alone does, not something `main` can reach.
- `Pipeline.RenderPalette`: the quantizer's rejection of counts outside 1..256 (line 45) is not modelled. The zero-width strip the model gives for `n_colors ≤ 0` is therefore never produced by `main`, which fails in the quantizer first.
- `HtmlPage.GenerateHtmlReferences`: only references written as `<img src="` are counted. Names are inserted without escaping, so a basename that contains `<` can add further markup to the page, including an unquoted `<img src=…>` tag (the name appears as it is after `<p>Input image: `, see `GenerateHtmlCaption`). The model does not parse HTML beyond that reader.
- `Pipeline.RunPageReferences`: the same limit applies. A `<` in the input's basename can bring in further markup that the `<img src="` reader does not count.
- `PosixPath.Join`: only the two-argument form with `/` as the separator is modelled. That is the only form the program uses.
