/** The renderer of the older revision (`txt_to_pdf_line_by_line`): one paragraph per line. */
module LegacyPdfUtils {
  import opened Wrappers
  import opened Exceptions
  import opened Strings
  import opened LocalFiles
  import opened Collaborators

  function LineStyle(): Style {
    ParagraphStyle("LineStyle", "DejaVuSans", 12, 15)
  }

  /** The list comprehension over `txt_content.split('\n')`. */
  function LineParagraphs(txt: string): (r: seq<Flowable>)
    ensures |r| == Count(txt, '\n') + 1
    ensures forall i :: 0 <= i < |r| ==> r[i].Paragraph? && r[i].style == LineStyle() && '\n' !in r[i].text
  {
    var lines := Split(txt, '\n');
    seq(|lines|, i requires 0 <= i < |lines| => Paragraph(lines[i], LineStyle()))
  }

  function Texts(paragraphs: seq<Flowable>): seq<string>
    requires forall i :: 0 <= i < |paragraphs| ==> paragraphs[i].Paragraph?
  {
    seq(|paragraphs|, i requires 0 <= i < |paragraphs| => paragraphs[i].text)
  }

  /** The paragraphs are the lines in order: rejoined with "\n" they give back the text. */
  lemma LinesInOrder(txt: string)
    ensures Join(Texts(LineParagraphs(txt)), "\n") == txt
  {
    var lines := Split(txt, '\n');
    assert Texts(LineParagraphs(txt)) == lines;
    JoinSplit(txt, '\n');
  }

  /**
   * `txt_to_pdf_line_by_line`: a missing font raises FileNotFoundError before any
   * document is built; otherwise the document is built once from the line paragraphs.
   */
  method TxtToPdfLineByLine(txt: string, pdfPath: string, ext: Externals, buffer: LocalBuffer)
    returns (err: Option<Exc>)
    modifies ext, buffer
    ensures !ext.tools.fonts.regular ==> err == Some(FileNotFoundError) && ext.calls == old(ext.calls)
    ensures ext.tools.fonts.regular ==> err == ext.tools.build(pdfPath, LineParagraphs(txt))
                                         && ext.calls == old(ext.calls) + [Build(pdfPath, LineParagraphs(txt))]
    ensures buffer.files == if err.None? then old(buffer.files) + {pdfPath} else old(buffer.files)
    ensures buffer.unlinked == old(buffer.unlinked)
  {
    if !ext.tools.fonts.regular {
      return Some(FileNotFoundError);
    }
    var flowables := LineParagraphs(txt);
    err := ext.Build(pdfPath, flowables, buffer);
  }
}
