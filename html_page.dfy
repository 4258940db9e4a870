/** The HTML page that shows the three images (`generate_html` in
    src/palette.py), and a reader that recovers the `src` attribute of every
    `<img src="...">` tag of a page, used to state what the page refers to. */
module HtmlPage {
  import opened PosixPath

  /** How an image reference starts in the page. */
  const ImgOpen := "<img src=\""

  // The template up to the input file's name, one constant per line.
  const Doctype := "<!doctype html>\n"
  const HtmlOpen := "<html>\n"
  const HeadOpen := "<head><meta charset=\"utf-8\">" + "<title>Palette Visualizer</title>\n"
  const Css :=
    "body{font-family: sans-serif; " + "padding:20px}\n" +
    "img{max-width: 100%; height: auto; " + "border: 1px solid #ddd}\n" +
    ".container{display:flex; gap:20px; " + "flex-wrap:wrap}\n" +
    ".card{width:320px}\n"
  const Style := "<style>\n" + Css + "</style>\n"
  const HeadClose := "</head>\n"
  const BodyOpen := "<body>\n"
  const Heading := "<h1>Color Histogram & Palette " + "Visualizer</h1>\n"
  const Preamble := Doctype + HtmlOpen + HeadOpen + Style + HeadClose + BodyOpen + Heading

  const CaptionOpen := "<p>Input image: "
  const CaptionClose := "</p>\n"

  /** From the end of the caption to the original image's reference. */
  const OriginalCard :=
    "<div class=\"container\">\n" +
    "  <div class=\"card\"><h3>Original</h3>"

  /** From the end of the original image's reference to the histogram's. */
  const HistogramCard :=
    "\" alt=\"original\"></div>\n" +
    "  <div class=\"card\"><h3>Histogram</h3>"

  /** From the end of the histogram's reference to the palette's. */
  const PaletteCard :=
    "\" alt=\"histogram\"></div>\n" +
    "  <div class=\"card\"><h3>Palette</h3>"

  /** From the end of the palette's reference to the end of the page. */
  const Closing :=
    "\" alt=\"palette\"></div>\n" +
    "</div>\n" +
    "</body>\n" +
    "</html>"

  /** The page: each of the three paths appears by its basename only, the
      original's once in the caption and once as an image reference. Names
      are inserted as they are, without escaping. */
  function GenerateHtml(originalPath: string, histPath: string, palettePath: string): (page: string)
    ensures EndsIn(page, Closing)
  {
    var body := PageBody(Basename(originalPath), Basename(histPath), Basename(palettePath));
    EndsWith(Preamble, body, Closing);
    Preamble + body
  }

  /** The page after the heading: the caption, then the three cards. */
  function PageBody(original: string, hist: string, palette: string): (body: string)
    ensures EndsIn(body, Closing)
  {
    var cards := OriginalCards(original, hist, palette);
    EndsWith(CaptionClose, cards, Closing);
    EndsWith(original, CaptionClose + cards, Closing);
    EndsWith(CaptionOpen, original + (CaptionClose + cards), Closing);
    CaptionOpen + (original + (CaptionClose + cards))
  }

  /** The page from the original image's card to the end. */
  function OriginalCards(original: string, hist: string, palette: string): (cards: string)
    ensures EndsIn(cards, Closing)
  {
    var rest := HistogramCards(hist, palette);
    EndsWith(original, rest, Closing);
    EndsWith(ImgOpen, original + rest, Closing);
    EndsWith(OriginalCard, ImgOpen + (original + rest), Closing);
    OriginalCard + (ImgOpen + (original + rest))
  }

  /** The page from the end of the original's reference to the end. */
  function HistogramCards(hist: string, palette: string): (cards: string)
    ensures EndsIn(cards, Closing)
  {
    var rest := PaletteCards(palette);
    EndsWith(hist, rest, Closing);
    EndsWith(ImgOpen, hist + rest, Closing);
    EndsWith(HistogramCard, ImgOpen + (hist + rest), Closing);
    HistogramCard + (ImgOpen + (hist + rest))
  }

  /** The page from the end of the histogram's reference to the end. */
  function PaletteCards(palette: string): (cards: string)
    ensures EndsIn(cards, Closing)
  {
    EndsWith(palette, Closing, Closing);
    EndsWith(ImgOpen, palette + Closing, Closing);
    EndsWith(PaletteCard, ImgOpen + (palette + Closing), Closing);
    PaletteCard + (ImgOpen + (palette + Closing))
  }

  /** `t` ends with `e`. */
  predicate EndsIn(t: string, e: string) {
    |t| >= |e| && t[|t| - |e|..] == e
  }

  /** A text that ends with `e` still does after something is put before it. */
  lemma EndsWith(a: string, b: string, e: string)
    requires EndsIn(b, e)
    ensures EndsIn(a + b, e)
  {
    assert (a + b)[|a + b| - |e|..] == b[|b| - |e|..];
  }

  /** The longest prefix of `s` without a double quote: the value of an
      attribute that `s` continues. */
  function UntilQuote(s: string): (v: string)
    ensures |v| <= |s| && v == s[..|v|]
    ensures '"' !in v
    ensures |v| < |s| ==> s[|v|] == '"'
  {
    if s == [] || s[0] == '"' then [] else [s[0]] + UntilQuote(s[1..])
  }

  /** The `src` values of the `<img src="...">` tags of a page, in the
      order the tags appear. */
  function ImgSrcs(html: string): seq<string>
    decreases |html|
  {
    if |html| < |ImgOpen| then []
    else if html[..|ImgOpen|] == ImgOpen then
      var src := UntilQuote(html[|ImgOpen|..]);
      [src] + ImgSrcs(html[|ImgOpen| + |src|..])
    else ImgSrcs(html[1..])
  }

  /** No `<` in `t` is followed by `i`, so no image reference starts in `t`. */
  predicate NoImgStart(t: string) {
    forall k :: 0 <= k < |t| && t[k] == '<' ==> k + 1 < |t| && t[k + 1] != 'i'
  }

  /** Text in which no image reference starts adds no `src` value. */
  lemma {:induction false} SkipNoImgStart(t: string, s: string)
    requires NoImgStart(t)
    ensures ImgSrcs(t + s) == ImgSrcs(s)
  {
    if t != [] {
      var ts := t + s;
      if |ts| >= |ImgOpen| {
        assert ts[..|ImgOpen|] != ImgOpen by {
          if t[0] == '<' {
            assert ts[1] == t[1] != 'i';
          } else {
            assert ts[0] == t[0] != '<';
          }
        }
        assert ts[1..] == t[1..] + s;
      }
      SkipNoImgStart(t[1..], s);
    } else {
      assert t + s == s;
    }
  }

  /** A name without a double quote, followed by a tag, adds no `src` value:
      an image reference that started inside it would need a double quote. */
  lemma {:induction false} SkipQuoteFree(t: string, s: string)
    requires '"' !in t
    requires |s| > 0 && s[0] == '<'
    ensures ImgSrcs(t + s) == ImgSrcs(s)
  {
    if t != [] {
      var ts := t + s;
      if |ts| >= |ImgOpen| {
        assert ts[..|ImgOpen|] != ImgOpen by {
          if |t| > 9 {
            assert ts[9] == t[9] != '"';
          } else {
            assert ts[|t|] == '<' != ImgOpen[|t|];
          }
        }
        assert ts[1..] == t[1..] + s;
      }
      SkipQuoteFree(t[1..], s);
    } else {
      assert t + s == s;
    }
  }

  /** An image reference whose value holds no double quote contributes that
      value, and reading resumes at the closing quote. */
  lemma ReadImgSrc(v: string, s: string)
    requires '"' !in v
    requires |s| > 0 && s[0] == '"'
    ensures ImgSrcs(ImgOpen + (v + s)) == [v] + ImgSrcs(s)
  {
    var html := ImgOpen + (v + s);
    assert html[..|ImgOpen|] == ImgOpen;
    assert html[|ImgOpen|..] == v + s;
    assert UntilQuote(v + s) == v by {
      assert (v + s)[|v|] == '"';
      assert forall k :: 0 <= k < |v| ==> (v + s)[k] == v[k];
    }
    assert html[|ImgOpen| + |v|..] == s;
  }

  lemma {:induction false} NoImgStartAppend(a: string, b: string)
    requires NoImgStart(a) && NoImgStart(b)
    ensures NoImgStart(a + b)
  {
    var ab := a + b;
    forall k | 0 <= k < |ab| && ab[k] == '<'
      ensures k + 1 < |ab| && ab[k + 1] != 'i'
    {
      if k < |a| {
        assert ab[k] == a[k] && ab[k + 1] == a[k + 1];
      } else {
        assert ab[k] == b[k - |a|] && ab[k + 1] == b[k + 1 - |a|];
      }
    }
  }

  /** No image reference starts in the template's head. */
  lemma HeadLinesHaveNoImg()
    ensures NoImgStart(HeadOpen) && NoImgStart(Heading)
  {
    NoImgStartAppend("<head><meta charset=\"utf-8\">", "<title>Palette Visualizer</title>\n");
    NoImgStartAppend("<h1>Color Histogram & Palette ", "Visualizer</h1>\n");
  }

  /** The style sheet holds no `<` at all. */
  lemma CssHasNoTag()
    ensures '<' !in Css
  {
    BodyRuleHasNoTag();
    ImgRuleHasNoTag();
    ContainerRuleHasNoTag();
    assert '<' !in ".card{width:320px}\n";
  }

  lemma BodyRuleHasNoTag()
    ensures '<' !in "body{font-family: sans-serif; " + "padding:20px}\n"
  {
    assert '<' !in "body{font-family: sans-serif; ";
    assert '<' !in "padding:20px}\n";
  }

  lemma ImgRuleHasNoTag()
    ensures '<' !in "img{max-width: 100%; height: auto; " + "border: 1px solid #ddd}\n"
  {
    assert '<' !in "img{max-width: 100%; height: auto; ";
    assert '<' !in "border: 1px solid #ddd}\n";
  }

  lemma ContainerRuleHasNoTag()
    ensures '<' !in ".container{display:flex; gap:20px; " + "flex-wrap:wrap}\n"
  {
    assert '<' !in ".container{display:flex; gap:20px; ";
    assert '<' !in "flex-wrap:wrap}\n";
  }

  lemma StyleHasNoImg()
    ensures NoImgStart(Style)
  {
    CssHasNoTag();
    NoImgStartAppend("<style>\n", Css);
    NoImgStartAppend("<style>\n" + Css, "</style>\n");
  }

  lemma HeadHasNoImg()
    ensures NoImgStart(Doctype + HtmlOpen + HeadOpen + Style)
  {
    HeadLinesHaveNoImg();
    StyleHasNoImg();
    NoImgStartAppend(Doctype, HtmlOpen);
    NoImgStartAppend(Doctype + HtmlOpen, HeadOpen);
    NoImgStartAppend(Doctype + HtmlOpen + HeadOpen, Style);
  }

  lemma PreambleHasNoImg()
    ensures NoImgStart(Preamble)
  {
    HeadHasNoImg();
    HeadLinesHaveNoImg();
    NoImgStartAppend(Doctype + HtmlOpen + HeadOpen + Style, HeadClose);
    NoImgStartAppend(Doctype + HtmlOpen + HeadOpen + Style + HeadClose, BodyOpen);
    NoImgStartAppend(Doctype + HtmlOpen + HeadOpen + Style + HeadClose + BodyOpen, Heading);
  }

  /** No image reference starts in the fixed text around the three cards. */
  lemma CardsHaveNoImg()
    ensures NoImgStart(OriginalCard) && NoImgStart(HistogramCard) && NoImgStart(PaletteCard)
  {
    OriginalCardHasNoImg();
    HistogramCardHasNoImg();
    PaletteCardHasNoImg();
  }

  lemma OriginalCardHasNoImg()
    ensures NoImgStart(OriginalCard)
  {
    NoImgStartAppend("<div class=\"container\">\n", "  <div class=\"card\"><h3>Original</h3>");
  }

  lemma HistogramCardHasNoImg()
    ensures NoImgStart(HistogramCard)
  {
    NoImgStartAppend("\" alt=\"original\"></div>\n", "  <div class=\"card\"><h3>Histogram</h3>");
  }

  lemma PaletteCardHasNoImg()
    ensures NoImgStart(PaletteCard)
  {
    NoImgStartAppend("\" alt=\"histogram\"></div>\n", "  <div class=\"card\"><h3>Palette</h3>");
  }

  lemma CaptionHasNoImg()
    ensures NoImgStart(CaptionOpen) && NoImgStart(CaptionClose)
  {
  }

  lemma ClosingHasNoImg()
    ensures NoImgStart(Closing)
  {
    NoImgStartAppend("\" alt=\"palette\"></div>\n", "</div>\n");
    NoImgStartAppend("\" alt=\"palette\"></div>\n" + "</div>\n", "</body>\n");
    NoImgStartAppend("\" alt=\"palette\"></div>\n" + "</div>\n" + "</body>\n", "</html>");
  }

  lemma PaletteCardsReferences(palette: string)
    requires '"' !in palette
    ensures ImgSrcs(PaletteCards(palette)) == [palette]
  {
    ClosingHasNoImg();
    SkipNoImgStart(Closing, []);
    assert Closing + [] == Closing;
    ReadImgSrc(palette, Closing);
    CardsHaveNoImg();
    SkipNoImgStart(PaletteCard, ImgOpen + (palette + Closing));
  }

  lemma HistogramCardsReferences(hist: string, palette: string)
    requires '"' !in hist && '"' !in palette
    ensures ImgSrcs(HistogramCards(hist, palette)) == [hist, palette]
  {
    PaletteCardsReferences(palette);
    ReadImgSrc(hist, PaletteCards(palette));
    CardsHaveNoImg();
    SkipNoImgStart(HistogramCard, ImgOpen + (hist + PaletteCards(palette)));
  }

  lemma OriginalCardsReferences(original: string, hist: string, palette: string)
    requires '"' !in original && '"' !in hist && '"' !in palette
    ensures ImgSrcs(OriginalCards(original, hist, palette)) == [original, hist, palette]
  {
    HistogramCardsReferences(hist, palette);
    ReadImgSrc(original, HistogramCards(hist, palette));
    CardsHaveNoImg();
    SkipNoImgStart(OriginalCard, ImgOpen + (original + HistogramCards(hist, palette)));
  }

  /** The page refers to exactly three images, in this order: the original,
      the histogram and the palette, each by the basename of its path.
      This holds when no basename holds a double quote, since names are
      inserted without escaping. */
  lemma {:induction false} GenerateHtmlReferences(originalPath: string, histPath: string, palettePath: string)
    requires '"' !in Basename(originalPath)
    requires '"' !in Basename(histPath)
    requires '"' !in Basename(palettePath)
    ensures ImgSrcs(GenerateHtml(originalPath, histPath, palettePath))
         == [Basename(originalPath), Basename(histPath), Basename(palettePath)]
  {
    var o, h, p := Basename(originalPath), Basename(histPath), Basename(palettePath);
    var cards := OriginalCards(o, h, p);
    OriginalCardsReferences(o, h, p);
    CaptionHasNoImg();
    SkipNoImgStart(CaptionClose, cards);
    SkipQuoteFree(o, CaptionClose + cards);
    SkipNoImgStart(CaptionOpen, o + (CaptionClose + cards));
    PreambleHasNoImg();
    SkipNoImgStart(Preamble, CaptionOpen + (o + (CaptionClose + cards)));
  }

  /** The page begins with the template's head followed by the line
      `<p>Input image: NAME</p>`, NAME being the original's basename. */
  lemma GenerateHtmlCaption(originalPath: string, histPath: string, palettePath: string)
    ensures Preamble + CaptionOpen + Basename(originalPath) + CaptionClose
         <= GenerateHtml(originalPath, histPath, palettePath)
  {
    var o := Basename(originalPath);
    var rest := OriginalCards(o, Basename(histPath), Basename(palettePath));
    NestedPrefix(Preamble, CaptionOpen, o, CaptionClose, rest);
  }

  lemma NestedPrefix<T>(a: seq<T>, b: seq<T>, c: seq<T>, d: seq<T>, e: seq<T>)
    ensures a + b + c + d <= a + (b + (c + (d + e)))
  {
    assert a + (b + (c + (d + e))) == (a + b + c + d) + e;
  }

  lemma Regroup<T>(a: seq<T>, b: seq<T>, c: seq<T>, d: seq<T>)
    ensures a + b + c + d == a + (b + c + d)
  {
  }

  /** Names are not escaped: a double quote in the original's basename ends
      its `src` value early, so the first reference is only the part before
      the quote. */
  lemma QuoteInNameCutsReference(originalPath: string, histPath: string, palettePath: string, v: string, w: string)
    requires Basename(originalPath) == v + "\"" + w
    requires '"' !in v && '<' !in Basename(originalPath)
    ensures |ImgSrcs(GenerateHtml(originalPath, histPath, palettePath))| > 0
    ensures ImgSrcs(GenerateHtml(originalPath, histPath, palettePath))[0] == v != Basename(originalPath)
  {
    var o := Basename(originalPath);
    var cards := OriginalCards(o, Basename(histPath), Basename(palettePath));
    QuotedOriginalCards(o, v, w, Basename(histPath), Basename(palettePath));
    CaptionHasNoImg();
    SkipNoImgStart(CaptionClose, cards);
    SkipNoImgStart(o, CaptionClose + cards);
    SkipNoImgStart(CaptionOpen, o + (CaptionClose + cards));
    PreambleHasNoImg();
    SkipNoImgStart(Preamble, CaptionOpen + (o + (CaptionClose + cards)));
  }

  /** The original's card, when its name holds a double quote. */
  lemma QuotedOriginalCards(original: string, v: string, w: string, hist: string, palette: string)
    requires original == v + "\"" + w && '"' !in v
    ensures ImgSrcs(OriginalCards(original, hist, palette)) == [v] + ImgSrcs("\"" + w + HistogramCards(hist, palette))
  {
    var rest := HistogramCards(hist, palette);
    Regroup(v, "\"", w, rest);
    ReadImgSrc(v, "\"" + w + rest);
    OriginalCardHasNoImg();
    SkipNoImgStart(OriginalCard, ImgOpen + (original + rest));
  }
}
