/**
 The part of a Word document that the converter writes: paragraphs made of
 runs, with an optional style, an alignment and spacing, and sections with
 page margins. Lengths are in points.
 */
module DocModel {
  import opened Optional

  /** A run is plain, bold (`run.bold = True`) or italic (`run.italic = True`). */
  datatype Emphasis = Plain | Bold | Italic

  datatype Run = Run(text: string, emphasis: Emphasis)

  /** A paragraph's text, as python-docx's `paragraph.text` gives it: its
      runs' texts one after another. */
  function Text(runs: seq<Run>): string
  {
    if runs == [] then [] else runs[0].text + Text(runs[1..])
  }

  lemma {:induction false} TextAppend(a: seq<Run>, b: seq<Run>)
    ensures Text(a + b) == Text(a) + Text(b)
  {
    if a == [] {
      assert a + b == b;
    } else {
      assert (a + b)[1..] == a[1..] + b;
      TextAppend(a[1..], b);
    }
  }

  /** `WD_PARAGRAPH_ALIGNMENT.CENTER`, or no alignment set. */
  datatype Alignment = Inherited | Center

  /** A paragraph: its runs, its `style`, its `alignment`, the values
      assigned to `space_before` and `space_after`, and the left indent of
      its `paragraph_format`. A slot the converter never assigns is `None`. */
  datatype Paragraph = Paragraph(
    runs: seq<Run>,
    style: Option<string>,
    alignment: Alignment,
    spaceBefore: Option<nat>,
    spaceAfter: Option<nat>,
    leftIndent: Option<nat>)

  /** What `doc.add_paragraph()` creates. */
  const EmptyParagraph: Paragraph := Paragraph([], None, Inherited, None, None, None)

  /** The page margins of one section of the document. */
  datatype Section = Section(leftMargin: nat, rightMargin: nat, topMargin: nat, bottomMargin: nat)

  /** The output document: its sections and its paragraphs, in order.
      Paragraphs are only ever appended. */
  class Document {
    var sections: seq<Section>
    var paragraphs: seq<Paragraph>

    /** `docx.Document()`: the sections of the template, and no paragraph. */
    constructor (template: seq<Section>)
      ensures sections == template && paragraphs == []
    {
      sections := template;
      paragraphs := [];
    }

    /** Assign the four margins of section `i`. */
    method SetMargins(i: nat, left: nat, right: nat, top: nat, bottom: nat)
      requires i < |sections|
      modifies this
      ensures sections == old(sections)[i := Section(left, right, top, bottom)]
      ensures paragraphs == old(paragraphs)
    {
      sections := sections[i := Section(left, right, top, bottom)];
    }

    /** Append a finished paragraph at the end of the document. */
    method AddParagraph(p: Paragraph)
      modifies this
      ensures paragraphs == old(paragraphs) + [p]
      ensures sections == old(sections)
    {
      paragraphs := paragraphs + [p];
    }
  }
}
