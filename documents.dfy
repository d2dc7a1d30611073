/**
 * The part of a python-docx `Document` that the generator touches: body
 * paragraphs (headings and plain paragraphs), each made of runs that carry
 * a font name and size, and sections with four margins and a header line.
 * Lengths (`Pt`, `Inches`) are kept as opaque tagged values.
 */
module Documents {
  import opened Errors

  datatype Length = Pt(points: int) | Inches(inches: real)

  datatype Run = Run(text: string, fontName: Option<string>, fontSize: Option<Length>)

  datatype Style = Heading(level: int) | Normal

  datatype Paragraph = Paragraph(style: Style, runs: seq<Run>)

  datatype Section = Section(
    topMargin: Option<Length>,
    bottomMargin: Option<Length>,
    leftMargin: Option<Length>,
    rightMargin: Option<Length>,
    header: string)

  /** The state of a document, as a value. */
  datatype DocValue = DocValue(paragraphs: seq<Paragraph>, sections: seq<Section>)

  /** A new document has one section with the template's margins and an empty header. */
  const DefaultSection := Section(None, None, None, None, "")

  /** `add_paragraph(text)` makes one run holding the text, or none for an empty text. */
  function RunsOf(text: string): seq<Run> {
    if text == [] then [] else [Run(text, None, None)]
  }

  function RunsText(runs: seq<Run>): string {
    if runs == [] then [] else runs[0].text + RunsText(runs[1..])
  }

  /** `paragraph.text`: the concatenated text of its runs. */
  function ParagraphText(p: Paragraph): string {
    RunsText(p.runs)
  }

  lemma RunsOfText(style: Style, text: string)
    ensures ParagraphText(Paragraph(style, RunsOf(text))) == text
  {
    if text != [] {
      var runs := RunsOf(text);
      assert runs[1..] == [];
      assert RunsText(runs) == text + RunsText([]);
      assert text + [] == text;
    }
  }

  class Document {
    var paragraphs: seq<Paragraph>
    var sections: seq<Section>

    ghost predicate Valid()
      reads this
    {
      |sections| >= 1
    }

    function Value(): DocValue
      reads this
    {
      DocValue(paragraphs, sections)
    }

    /** `Document()`. */
    constructor ()
      ensures Valid()
      ensures paragraphs == [] && sections == [DefaultSection]
    {
      paragraphs := [];
      sections := [DefaultSection];
    }

    /** `add_heading(text, level)`. */
    method AddHeading(text: string, level: int)
      requires Valid()
      modifies this
      ensures Valid()
      ensures paragraphs == old(paragraphs) + [Paragraph(Heading(level), RunsOf(text))]
      ensures sections == old(sections)
    {
      paragraphs := paragraphs + [Paragraph(Heading(level), RunsOf(text))];
    }

    /** `add_paragraph(text)`. */
    method AddParagraph(text: string)
      requires Valid()
      modifies this
      ensures Valid()
      ensures paragraphs == old(paragraphs) + [Paragraph(Normal, RunsOf(text))]
      ensures sections == old(sections)
    {
      paragraphs := paragraphs + [Paragraph(Normal, RunsOf(text))];
    }
  }

  /** The texts of the headings, in document order. */
  function HeadingTexts(ps: seq<Paragraph>): seq<string> {
    if ps == [] then []
    else (if ps[0].style.Heading? then [ParagraphText(ps[0])] else []) + HeadingTexts(ps[1..])
  }

  /** The texts of the plain paragraphs, in document order. */
  function BodyTexts(ps: seq<Paragraph>): seq<string> {
    if ps == [] then []
    else (if ps[0].style.Normal? then [ParagraphText(ps[0])] else []) + BodyTexts(ps[1..])
  }

  lemma {:induction false} HeadingTextsAppend(a: seq<Paragraph>, b: seq<Paragraph>)
    ensures HeadingTexts(a + b) == HeadingTexts(a) + HeadingTexts(b)
  {
    if a == [] {
      assert a + b == b;
    } else {
      assert (a + b)[0] == a[0];
      assert (a + b)[1..] == a[1..] + b;
      HeadingTextsAppend(a[1..], b);
    }
  }

  lemma {:induction false} BodyTextsAppend(a: seq<Paragraph>, b: seq<Paragraph>)
    ensures BodyTexts(a + b) == BodyTexts(a) + BodyTexts(b)
  {
    if a == [] {
      assert a + b == b;
    } else {
      assert (a + b)[0] == a[0];
      assert (a + b)[1..] == a[1..] + b;
      BodyTextsAppend(a[1..], b);
    }
  }

  lemma TextsAppend(a: seq<Paragraph>, b: seq<Paragraph>)
    ensures HeadingTexts(a + b) == HeadingTexts(a) + HeadingTexts(b)
    ensures BodyTexts(a + b) == BodyTexts(a) + BodyTexts(b)
  {
    HeadingTextsAppend(a, b);
    BodyTextsAppend(a, b);
  }
}
