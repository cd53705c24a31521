/**
 * The foreign collaborators of the pipeline, kept abstract: PDF rasterisation
 * (`pdf2image.convert_from_path`), text recognition (the OpenAI vision call),
 * ReportLab document building, and the presence of the font files.
 */
module Collaborators {
  import opened Wrappers
  import opened Exceptions
  import opened LocalFiles

  /** The `index`-th page image rasterised from the PDF at `pdfPath`. */
  datatype PageImage = PageImage(pdfPath: string, index: nat)

  /** ReportLab paragraph styles: the sample sheet's "h2", or a `ParagraphStyle`. */
  datatype Style =
    | SampleHeading2
    | ParagraphStyle(name: string, fontName: string, fontSize: nat, leading: nat)

  /** ReportLab flowables the renderers emit. */
  datatype Flowable = Paragraph(text: string, style: Style) | PageBreak

  /** Which of the four DejaVuSans font files exist next to `FONT_PATH`. */
  datatype FontFiles = FontFiles(regular: bool, bold: bool, italic: bool, boldItalic: bool)

  /** The behaviour of the collaborators, fixed for one run. */
  datatype Toolchain = Toolchain(
    convert: string -> Reply<nat>,                 // number of page images, or the exception
    recognize: PageImage -> Reply<string>,         // recognised text of one page image
    build: (string, seq<Flowable>) -> Option<Exc>, // `SimpleDocTemplate(path).build(flowables)`
    fonts: FontFiles)

  datatype ExternalCall =
    | ConvertFromPath(pdfPath: string)
    | Recognize(page: PageImage)
    | Build(pdfPath: string, flowables: seq<Flowable>)

  /** The collaborators as the pipeline sees them: each call is recorded. */
  class Externals {
    const tools: Toolchain
    var calls: seq<ExternalCall>

    constructor(tools: Toolchain)
      ensures this.tools == tools && calls == []
    {
      this.tools := tools;
      calls := [];
    }

    method ConvertFromPath(pdfPath: string) returns (r: Reply<nat>)
      modifies this
      ensures r == tools.convert(pdfPath)
      ensures calls == old(calls) + [ExternalCall.ConvertFromPath(pdfPath)]
    {
      calls := calls + [ExternalCall.ConvertFromPath(pdfPath)];
      r := tools.convert(pdfPath);
    }

    method Recognize(page: PageImage) returns (r: Reply<string>)
      modifies this
      ensures r == tools.recognize(page)
      ensures calls == old(calls) + [ExternalCall.Recognize(page)]
    {
      calls := calls + [ExternalCall.Recognize(page)];
      r := tools.recognize(page);
    }

    /** A successful build writes the PDF file. */
    method Build(pdfPath: string, flowables: seq<Flowable>, buffer: LocalBuffer) returns (err: Option<Exc>)
      modifies this, buffer
      ensures err == tools.build(pdfPath, flowables)
      ensures calls == old(calls) + [ExternalCall.Build(pdfPath, flowables)]
      ensures buffer.files == if err.None? then old(buffer.files) + {pdfPath} else old(buffer.files)
      ensures buffer.unlinked == old(buffer.unlinked)
    {
      calls := calls + [ExternalCall.Build(pdfPath, flowables)];
      err := tools.build(pdfPath, flowables);
      if err.None? {
        buffer.Create(pdfPath);
      }
    }
  }
}
