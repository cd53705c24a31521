/**
 * The renderer of the current revision (`create_reflowed_pdf`): the font
 * choice and the flowable sequence handed to ReportLab.
 */
module PdfUtils {
  import opened Wrappers
  import opened Exceptions
  import opened Strings
  import opened LocalFiles
  import opened Collaborators

  const BaseFont := "DejaVuSans"
  const FallbackFont := "Helvetica"

  datatype FontFamily = FontFamily(normal: string, bold: string, italic: string, boldItalic: string)

  /** The font the paragraphs use, the fonts registered, and the family registered (if any). */
  datatype FontSetup = FontSetup(fontName: string, registered: seq<string>, family: Option<FontFamily>)

  /** A variant name when its file exists, else the base font. */
  function Variant(present: bool, name: string): string {
    if present then name else BaseFont
  }

  function FontNameFor(files: FontFiles): string {
    if files.regular then BaseFont else FallbackFont
  }

  /** The names of a family, normal first. */
  function Members(f: FontFamily): seq<string> {
    [f.normal, f.bold, f.italic, f.boldItalic]
  }

  /**
   * Font registration. Without the base font file nothing is registered and
   * Helvetica is used; with it, DejaVuSans is registered, each variant only
   * when its own file exists, and the family names exactly the registered fonts.
   */
  method ChooseFonts(files: FontFiles) returns (r: FontSetup)
    ensures r.fontName == FontNameFor(files)
    ensures !files.regular ==> r.registered == [] && r.family == None
    ensures files.regular ==> r.family == Some(FontFamily(BaseFont,
                                Variant(files.bold, "DejaVuSans-Bold"),
                                Variant(files.italic, "DejaVuSans-Oblique"),
                                Variant(files.boldItalic, "DejaVuSans-BoldOblique")))
    ensures files.regular ==> |r.registered| > 0 && r.registered[0] == BaseFont
    ensures r.family.Some? ==> forall n :: n in Members(r.family.value) <==> n in r.registered
  {
    var fontName := BaseFont;
    var registered: seq<string> := [];
    var family: Option<FontFamily> := None;
    if files.regular {
      registered := registered + [fontName];
      var boldName := fontName;
      if files.bold {
        boldName := "DejaVuSans-Bold";
        registered := registered + [boldName];
      }
      var italicName := fontName;
      if files.italic {
        italicName := "DejaVuSans-Oblique";
        registered := registered + [italicName];
      }
      var boldItalicName := fontName;
      if files.boldItalic {
        boldItalicName := "DejaVuSans-BoldOblique";
        registered := registered + [boldItalicName];
      }
      family := Some(FontFamily(fontName, boldName, italicName, boldItalicName));
    } else {
      fontName := FallbackFont;
    }
    r := FontSetup(fontName, registered, family);
  }

  /** The style of the content paragraphs. */
  function CustomStyle(fontName: string): Style {
    ParagraphStyle("CustomStyle", fontName, 11, 14)
  }

  function Title(i: nat): Flowable {
    Paragraph("--- Page " + Decimal(i + 1) + " ---", SampleHeading2)
  }

  function Content(text: string, fontName: string): Flowable {
    Paragraph(ReplaceAll(text, "\n", "<br/>"), CustomStyle(fontName))
  }

  /** What the loop appends for page `i`: title, content, and a break unless `i` is the last page. */
  function Block(pages: seq<string>, fontName: string, i: nat): seq<Flowable>
    requires i < |pages|
  {
    [Title(i), Content(pages[i], fontName)] + (if i < |pages| - 1 then [PageBreak] else [])
  }

  /** The flowables after the first `k` pages. */
  function Layout(pages: seq<string>, fontName: string, k: nat): seq<Flowable>
    requires k <= |pages|
  {
    if k == 0 then [] else Layout(pages, fontName, k - 1) + Block(pages, fontName, k - 1)
  }

  function Flowables(pages: seq<string>, fontName: string): seq<Flowable> {
    Layout(pages, fontName, |pages|)
  }

  /** The flowable loop of `create_reflowed_pdf`. */
  method ReflowedFlowables(pages: seq<string>, fontName: string) returns (flowables: seq<Flowable>)
    ensures flowables == Flowables(pages, fontName)
  {
    flowables := [];
    var i := 0;
    while i < |pages|
      invariant i <= |pages|
      invariant flowables == Layout(pages, fontName, i)
    {
      flowables := flowables + [Title(i)];
      flowables := flowables + [Content(pages[i], fontName)];
      if i < |pages| - 1 {
        flowables := flowables + [PageBreak];
      }
      i := i + 1;
    }
  }

  lemma {:induction false} LayoutLength(pages: seq<string>, fontName: string, k: nat)
    requires k <= |pages|
    ensures |Layout(pages, fontName, k)| == if k == 0 then 0 else if k < |pages| then 3 * k else 3 * k - 1
  {
    if k > 0 {
      LayoutLength(pages, fontName, k - 1);
    }
  }

  lemma {:induction false} LayoutPrefix(pages: seq<string>, fontName: string, j: nat, k: nat)
    requires j <= k <= |pages|
    ensures Layout(pages, fontName, j) <= Layout(pages, fontName, k)
  {
    if j < k {
      LayoutPrefix(pages, fontName, j, k - 1);
    }
  }

  /** n pages give 3n - 1 flowables, and no page gives none. */
  lemma FlowablesLength(pages: seq<string>, fontName: string)
    ensures |Flowables(pages, fontName)| == if |pages| == 0 then 0 else 3 * |pages| - 1
  {
    LayoutLength(pages, fontName, |pages|);
  }

  /**
   * Page i contributes, at positions 3i, 3i+1 and 3i+2, its title
   * "--- Page i+1 ---", its content with newlines as "<br/>" in the custom
   * style, and a page break unless it is the last page.
   */
  lemma FlowablesAt(pages: seq<string>, fontName: string, i: nat)
    requires i < |pages|
    ensures var fl := Flowables(pages, fontName);
            && |fl| == 3 * |pages| - 1
            && fl[3 * i] == Paragraph("--- Page " + Decimal(i + 1) + " ---", SampleHeading2)
            && fl[3 * i + 1] == Paragraph(ReplaceAll(pages[i], "\n", "<br/>"), CustomStyle(fontName))
            && (i < |pages| - 1 ==> fl[3 * i + 2] == PageBreak)
  {
    LayoutPrefix(pages, fontName, i + 1, |pages|);
    FlowablesLength(pages, fontName);
    LayoutLength(pages, fontName, i);
    LayoutLength(pages, fontName, i + 1);
    var pre := Layout(pages, fontName, i + 1);
    assert pre == Layout(pages, fontName, i) + Block(pages, fontName, i);
    assert pre[3 * i] == Title(i);
    assert pre[3 * i + 1] == Content(pages[i], fontName);
  }

  /** A page title is one line: "--- Page ", the page number's digits and " ---". */
  lemma TitleHasNoNewline(i: nat)
    ensures '\n' !in "--- Page " + Decimal(i + 1) + " ---"
  {
    var d := Decimal(i + 1);
    assert forall k :: 0 <= k < |d| ==> d[k] != '\n';
    assert '\n' !in "--- Page " && '\n' !in " ---";
  }

  /** No paragraph handed to ReportLab contains a raw newline. */
  lemma NoRawNewlines(pages: seq<string>, fontName: string, j: nat)
    requires j < |Flowables(pages, fontName)|
    requires Flowables(pages, fontName)[j].Paragraph?
    ensures '\n' !in Flowables(pages, fontName)[j].text
  {
    FlowablesLength(pages, fontName);
    var i, r := j / 3, j % 3;
    assert j == 3 * i + r && r < 3;
    FlowablesAt(pages, fontName, i);
    if r == 0 {
      TitleHasNoNewline(i);
    } else if r == 1 {
      ReplaceAllRemovesChar(pages[i], '\n', "<br/>");
    }
  }

  /** `create_reflowed_pdf`: one build of the whole flowable list. */
  method CreateReflowedPdf(pages: seq<string>, pdfPath: string, ext: Externals, buffer: LocalBuffer)
    returns (err: Option<Exc>)
    modifies ext, buffer
    ensures err == ext.tools.build(pdfPath, Flowables(pages, FontNameFor(ext.tools.fonts)))
    ensures ext.calls == old(ext.calls) + [Build(pdfPath, Flowables(pages, FontNameFor(ext.tools.fonts)))]
    ensures buffer.files == if err.None? then old(buffer.files) + {pdfPath} else old(buffer.files)
    ensures buffer.unlinked == old(buffer.unlinked)
  {
    var setup := ChooseFonts(ext.tools.fonts);
    var flowables := ReflowedFlowables(pages, setup.fontName);
    err := ext.Build(pdfPath, flowables, buffer);
  }
}
