/**
 The converter proper: `parse_markdown_to_docx` turns the text of a
 therapeutic report into a Word document, one line at a time, and
 `extract_text_from_docx` reads the text of a document back as lines.

 Each line is stripped, blank lines are skipped, `**x**` is collapsed to `x`,
 and the line then goes through an ordered chain of tests: a long upper-case
 line is a centred title, a line with a colon is a `LABEL: value` field, a
 short upper-case line is a section header (and becomes the current
 section), a line starting with `-` or `•` is a bullet item, and anything
 else is a plain paragraph, indented when the current section is the
 observations section.

 `Convert` is the specification of the loop, as a fold of `ProcessLine`
 over the lines; `ParseMarkdownToDocx` is the loop itself, which sets the
 margins of a `Document` and appends the paragraph of each branch to it.
 */
module Converter {
  import opened Optional
  import opened PyText
  import opened Regex
  import opened DocModel

  /** `Pt(72)`: every page margin. */
  const MarginPt: nat := 72

  /** The characters removed by `lstrip('-• ')`. */
  const BulletMarks: set<char> := {'-', '\U{2022}', ' '}

  /** The prefixes, after `lower()`, that make a bullet's label bold. */
  const MetasKeyword: string := "metas terap\U{EA}uticas"
  const ObjetivosKeyword: string := "objetivos terap\U{EA}uticos"
  const ObservacoesKeyword: string := "observa\U{E7}\U{F5}es"

  /** The section name, after `upper()`, under which plain text is indented. */
  const ObservacoesSection: string := "OBSERVA\U{C7}\U{D5}ES"

  const ListBulletStyle: string := "List Bullet"

  /** `re.sub(r'\*\*(.*?)\*\*', r'\1', line)`. */
  function NormalizeBold(line: string): (r: string)
    ensures |r| <= |line|
  {
    Sub(BoldPattern, line, 0)
  }

  /** The line every test and every run uses: stripped, then normalised. */
  function Normalized(raw: string): string
  {
    NormalizeBold(Strip(raw))
  }

  /** `line.startswith('-') or line.startswith('•')`. */
  predicate StartsWithBullet(line: string)
  {
    |line| > 0 && (line[0] == '-' || line[0] == '\U{2022}')
  }

  /** `line.lstrip('-• ').strip()`: the text of a bullet item. */
  function BulletText(line: string): string
  {
    Strip(LStripChars(line, BulletMarks))
  }

  /** `text.lower().startswith((...))` with the three keywords. */
  predicate HasKeyword(text: string)
  {
    var l := Lower(text);
    MetasKeyword <= l || ObjetivosKeyword <= l || ObservacoesKeyword <= l
  }

  /** `current_section and 'OBSERVAÇÕES' in current_section.upper()`. */
  predicate Indents(section: Option<string>)
  {
    section.Some? && section.value != [] && Contains(Upper(section.value), ObservacoesSection)
  }

  /** Which branch of the chain a non-blank line takes; `EmptyBullet` is
      the bullet whose text is empty, which is skipped. */
  datatype LineKind = Title | Field | Header | Bullet | EmptyBullet | Body

  /** The chain of tests on a non-blank, normalised line, in the order the
      converter makes them. */
  function ClassifyLine(line: string): LineKind
  {
    if IsUpper(line) && |line| > 10 then Title
    else if ':' in line && !StartsWithBullet(line) then Field
    else if IsUpper(line) && ':' !in line then Header
    else if StartsWithBullet(line) then (if BulletText(line) == [] then EmptyBullet else Bullet)
    else Body
  }

  function TitleParagraph(line: string): Paragraph
  {
    Paragraph([Run(line, Bold)], None, Center, None, Some(12), None)
  }

  function FieldParagraph(line: string): Paragraph
  {
    var parts := SplitFirst(line, ':');
    var name := Run(Strip(parts[0]) + ":", Bold);
    var value := if |parts| > 1 && Strip(parts[1]) != [] then [Run(" " + Strip(parts[1]), Plain)] else [];
    Paragraph([name] + value, None, Inherited, None, Some(6), None)
  }

  function HeaderParagraph(line: string): Paragraph
  {
    Paragraph([Run(line, Bold)], None, Inherited, Some(12), Some(6), None)
  }

  /** The runs of a bullet whose text starts with a keyword: the text before
      the first colon plus `:` in bold, then the rest, if there is a colon. */
  function LabelRuns(text: string): seq<Run>
  {
    var parts := SplitFirst(text, ':');
    [Run(parts[0] + ":", Bold)] + (if |parts| > 1 then [Run(parts[1], Plain)] else [])
  }

  function BulletRuns(text: string): seq<Run>
  {
    if HasKeyword(text) then LabelRuns(text) else [Run(text, Plain)]
  }

  function BulletParagraph(text: string): Paragraph
  {
    Paragraph(BulletRuns(text), Some(ListBulletStyle), Inherited, None, Some(2), None)
  }

  function BodyParagraph(line: string, section: Option<string>): Paragraph
  {
    Paragraph([Run(line, Plain)], None, Inherited, None, Some(2), if Indents(section) then Some(20) else None)
  }

  /** What one line does: the paragraph it appends, if any, and the current
      section after it. */
  datatype LineEffect = LineEffect(paragraph: Option<Paragraph>, section: Option<string>)

  function ProcessLine(raw: string, section: Option<string>): LineEffect
  {
    if Strip(raw) == [] then LineEffect(None, section) else LineStep(Normalized(raw), section)
  }

  /** `ProcessLine` on a non-blank, normalised line. */
  function LineStep(line: string, section: Option<string>): LineEffect
  {
    match ClassifyLine(line)
    case EmptyBullet => LineEffect(None, section)
    case Title => LineEffect(Some(TitleParagraph(line)), section)
    case Field => LineEffect(Some(FieldParagraph(line)), section)
    case Header => LineEffect(Some(HeaderParagraph(line)), Some(line))
    case Bullet => LineEffect(Some(BulletParagraph(BulletText(line))), section)
    case Body => LineEffect(Some(BodyParagraph(line, section)), section)
  }

  /** The paragraphs appended so far and the current section. */
  datatype Conversion = Conversion(paragraphs: seq<Paragraph>, section: Option<string>)

  function Emitted(p: Option<Paragraph>): seq<Paragraph>
  {
    if p.Some? then [p.value] else []
  }

  /** The loop over the lines, starting with no paragraph and no section. */
  function Convert(lines: seq<string>): Conversion
  {
    if lines == [] then Conversion([], None)
    else
      var before := Convert(lines[..|lines| - 1]);
      var effect := ProcessLine(lines[|lines| - 1], before.section);
      Conversion(before.paragraphs + Emitted(effect.paragraph), effect.section)
  }

  /** One more line: `Convert` of a longer prefix is one `ProcessLine` step
      from the shorter one. */
  lemma ConvertStep(lines: seq<string>, i: nat)
    requires i < |lines|
    ensures var before := Convert(lines[..i]);
            var effect := ProcessLine(lines[i], before.section);
            Convert(lines[..i + 1]) == Conversion(before.paragraphs + Emitted(effect.paragraph), effect.section)
  {
    assert lines[..i + 1][..i] == lines[..i];
  }

  predicate AllMargins(sections: seq<Section>)
  {
    forall j :: 0 <= j < |sections| ==> sections[j] == Section(MarginPt, MarginPt, MarginPt, MarginPt)
  }

  /** `parse_markdown_to_docx`: a document with the template's sections, all
      of whose margins are 72pt, and the paragraphs of `Convert` over the
      lines of `markdownText`. */
  method ParseMarkdownToDocx(markdownText: string, template: seq<Section>) returns (doc: Document)
    ensures fresh(doc)
    ensures |doc.sections| == |template| && AllMargins(doc.sections)
    ensures doc.paragraphs == Convert(Split(markdownText, '\n')).paragraphs
  {
    doc := new Document(template);
    SetAllMargins(doc);
    var lines := Split(markdownText, '\n');
    AddLines(doc, lines);
  }

  /** Lines 42-47: every section gets 72pt on all four sides. */
  method SetAllMargins(doc: Document)
    modifies doc
    ensures |doc.sections| == |old(doc.sections)| && AllMargins(doc.sections)
    ensures doc.paragraphs == old(doc.paragraphs)
  {
    var k := 0;
    while k < |doc.sections|
      invariant 0 <= k <= |doc.sections| == |old(doc.sections)|
      invariant forall j :: 0 <= j < k ==> doc.sections[j] == Section(MarginPt, MarginPt, MarginPt, MarginPt)
      invariant doc.paragraphs == old(doc.paragraphs)
    {
      doc.SetMargins(k, MarginPt, MarginPt, MarginPt, MarginPt);
      k := k + 1;
    }
  }

  /** Lines 49-114: the loop over the lines with `current_section`, on a
      document that has no paragraph yet. */
  method AddLines(doc: Document, lines: seq<string>)
    requires doc.paragraphs == []
    modifies doc
    ensures doc.sections == old(doc.sections)
    ensures doc.paragraphs == Convert(lines).paragraphs
  {
    var currentSection: Option<string> := None;
    assert lines[..0] == [];
    for i := 0 to |lines|
      invariant doc.sections == old(doc.sections)
      invariant doc.paragraphs == Convert(lines[..i]).paragraphs
      invariant currentSection == Convert(lines[..i]).section
    {
      ConvertStep(lines, i);
      currentSection := AddLine(doc, lines[i], currentSection);
    }
    assert lines[..|lines|] == lines;
  }

  /** The body of the loop for one line: append the paragraph of
      `ProcessLine`, if any, and return the new current section. */
  method AddLine(doc: Document, raw: string, currentSection: Option<string>) returns (section: Option<string>)
    modifies doc
    ensures doc.paragraphs == old(doc.paragraphs) + Emitted(ProcessLine(raw, currentSection).paragraph)
    ensures doc.sections == old(doc.sections)
    ensures section == ProcessLine(raw, currentSection).section
  {
    section := currentSection;
    var line := Strip(raw);
    if line == [] {
      return;
    }
    line := NormalizeBold(line);
    section := AddNormalized(doc, line, currentSection);
  }

  /** What `LineStep` gives for each kind of line. */
  lemma LineStepCases(line: string, section: Option<string>)
    ensures ClassifyLine(line) == Title ==> LineStep(line, section) == LineEffect(Some(TitleParagraph(line)), section)
    ensures ClassifyLine(line) == Field ==> LineStep(line, section) == LineEffect(Some(FieldParagraph(line)), section)
    ensures ClassifyLine(line) == Header ==> LineStep(line, section) == LineEffect(Some(HeaderParagraph(line)), Some(line))
    ensures ClassifyLine(line) == Bullet ==> LineStep(line, section) == LineEffect(Some(BulletParagraph(BulletText(line))), section)
    ensures ClassifyLine(line) == EmptyBullet ==> LineStep(line, section) == LineEffect(None, section)
    ensures ClassifyLine(line) == Body ==> LineStep(line, section) == LineEffect(Some(BodyParagraph(line, section)), section)
  {
  }

  /** The chain of tests on the normalised line: each branch appends its
      paragraph and returns early. */
  method AddNormalized(doc: Document, line: string, currentSection: Option<string>) returns (section: Option<string>)
    modifies doc
    ensures doc.paragraphs == old(doc.paragraphs) + Emitted(LineStep(line, currentSection).paragraph)
    ensures doc.sections == old(doc.sections)
    ensures section == LineStep(line, currentSection).section
  {
    LineStepCases(line, currentSection);
    section := currentSection;

    if IsUpper(line) && |line| > 10 {
      assert ClassifyLine(line) == Title;
      doc.AddParagraph(TitleParagraph(line));
      return;
    }

    if ':' in line && !StartsWithBullet(line) {
      assert ClassifyLine(line) == Field;
      doc.AddParagraph(FieldParagraph(line));
      return;
    }

    if IsUpper(line) && ':' !in line {
      assert ClassifyLine(line) == Header;
      section := Some(line);
      doc.AddParagraph(HeaderParagraph(line));
      return;
    }

    if StartsWithBullet(line) {
      var text := Strip(LStripChars(line, BulletMarks));
      if text == [] {
        assert ClassifyLine(line) == EmptyBullet;
        return;
      }
      assert ClassifyLine(line) == Bullet;
      doc.AddParagraph(BulletParagraph(text));
      return;
    }

    assert ClassifyLine(line) == Body;
    doc.AddParagraph(BodyParagraph(line, currentSection));
  }

  function Texts(paragraphs: seq<Paragraph>): (texts: seq<string>)
    ensures |texts| == |paragraphs|
    ensures forall i :: 0 <= i < |paragraphs| ==> texts[i] == Text(paragraphs[i].runs)
  {
    seq(|paragraphs|, i requires 0 <= i < |paragraphs| => Text(paragraphs[i].runs))
  }

  /** `extract_text_from_docx`, on the paragraphs of the opened document:
      their texts joined with newlines. When there is at least one paragraph
      and no paragraph text holds a newline, splitting the result on
      newlines gives the paragraph texts back. */
  method ExtractText(paragraphs: seq<Paragraph>) returns (text: string)
    ensures text == Join(Texts(paragraphs), '\n')
    ensures |paragraphs| >= 1 && (forall i :: 0 <= i < |paragraphs| ==> '\n' !in Text(paragraphs[i].runs)) ==>
              Split(text, '\n') == Texts(paragraphs)
  {
    var parts: seq<string> := [];
    for i := 0 to |paragraphs|
      invariant |parts| == i
      invariant forall j :: 0 <= j < i ==> parts[j] == Text(paragraphs[j].runs)
    {
      parts := parts + [Text(paragraphs[i].runs)];
    }
    assert parts == Texts(paragraphs);
    text := Join(parts, '\n');
    if |paragraphs| >= 1 && (forall i :: 0 <= i < |paragraphs| ==> '\n' !in Text(paragraphs[i].runs)) {
      SplitJoin(parts, '\n');
    }
  }

  // ---------------------------------------------------------------------
  // Properties of the conversion

  /** Lines that are all blank after `strip()` append nothing and leave no
      current section. */
  lemma {:induction false} ConvertAllBlank(lines: seq<string>)
    requires forall i :: 0 <= i < |lines| ==> Strip(lines[i]) == []
    ensures Convert(lines) == Conversion([], None)
  {
    if lines != [] {
      var init := lines[..|lines| - 1];
      ConvertAllBlank(init);
      assert ProcessLine(lines[|lines| - 1], None) == LineEffect(None, None);
    }
  }

  /** Text made only of white space gives a document with no paragraph
      (its margins are set all the same, by `ParseMarkdownToDocx`). */
  lemma BlankTextNoParagraphs(markdownText: string)
    requires Strip(markdownText) == []
    ensures Convert(Split(markdownText, '\n')).paragraphs == []
  {
    var lines := Split(markdownText, '\n');
    AllPartsBlank(lines, markdownText);
    ConvertAllBlank(lines);
  }

  lemma AllPartsBlank(lines: seq<string>, s: string)
    requires s == Join(lines, '\n')
    requires forall k :: 0 <= k < |s| ==> IsSpace(s[k])
    ensures forall i :: 0 <= i < |lines| ==> Strip(lines[i]) == []
  {
    forall i | 0 <= i < |lines|
      ensures Strip(lines[i]) == []
    {
      JoinedPartBlank(lines, i, s);
    }
  }

  /** A piece of a white-space text is blank. */
  lemma {:induction false} JoinedPartBlank(parts: seq<string>, i: nat, s: string)
    requires i < |parts| && s == Join(parts, '\n')
    requires forall k :: 0 <= k < |s| ==> IsSpace(s[k])
    ensures Strip(parts[i]) == []
    decreases i
  {
    if |parts| > 1 {
      var t := Join(parts[1..], '\n');
      assert s == parts[0] + ['\n'] + t;
      if i == 0 {
        forall k | 0 <= k < |parts[0]|
          ensures IsSpace(parts[0][k])
        {
          assert s[k] == parts[0][k];
        }
      } else {
        forall k | 0 <= k < |t|
          ensures IsSpace(t[k])
        {
          assert s[|parts[0]| + 1 + k] == t[k];
        }
        JoinedPartBlank(parts[1..], i - 1, t);
      }
    }
  }

  /** Whether a line appends a paragraph; it does not depend on the current
      section. */
  predicate Produces(raw: string)
  {
    Strip(raw) != [] && ClassifyLine(Normalized(raw)) != EmptyBullet
  }

  lemma ProducesIff(raw: string, section: Option<string>)
    ensures ProcessLine(raw, section).paragraph.Some? <==> Produces(raw)
  {
    if Strip(raw) != [] {
      LineStepCases(Normalized(raw), section);
    }
  }

  function CountProducing(lines: seq<string>): nat
  {
    if lines == [] then 0
    else CountProducing(lines[..|lines| - 1]) + (if Produces(lines[|lines| - 1]) then 1 else 0)
  }

  /** One paragraph per line that is neither blank nor an empty bullet. */
  lemma {:induction false} ConvertCount(lines: seq<string>)
    ensures |Convert(lines).paragraphs| == CountProducing(lines)
  {
    if lines != [] {
      ConvertCount(lines[..|lines| - 1]);
      ProducesIff(lines[|lines| - 1], Convert(lines[..|lines| - 1]).section);
    }
  }

  /** Converting one more line appends that line's paragraph, if any. */
  lemma ConvertSnoc(init: seq<string>, raw: string)
    ensures var before := Convert(init);
            Convert(init + [raw]).paragraphs == before.paragraphs + Emitted(ProcessLine(raw, before.section).paragraph)
  {
    assert (init + [raw])[..|init|] == init;
  }

  /** Paragraphs are only appended: converting more lines keeps the
      paragraphs of the first lines, in order, at the front. */
  lemma {:induction false} ConvertPrefix(a: seq<string>, b: seq<string>)
    ensures Convert(a).paragraphs <= Convert(a + b).paragraphs
    decreases |b|
  {
    if b == [] {
      assert a + b == a;
    } else {
      var init := a + b[..|b| - 1];
      assert a + b == init + [b[|b| - 1]];
      ConvertPrefix(a, b[..|b| - 1]);
      ConvertSnoc(init, b[|b| - 1]);
    }
  }

  /** A line holding no `**` is not changed by the normalisation. */
  lemma NoBoldMarkersUnchanged(line: string)
    requires forall k :: 0 <= k < |line| - 1 ==> !(line[k] == '*' && line[k + 1] == '*')
    ensures NormalizeBold(line) == line
  {
    NoDelimiterNoMatch(BoldPattern, line, 0);
    assert line[0..] == line;
  }

  /** A bullet whose text is empty is made only of bullet marks and spaces,
      so it is never upper-case: it is skipped exactly when it starts with a
      marker and its text is empty, whatever else the line satisfies. */
  lemma EmptyBulletIff(line: string)
    ensures ClassifyLine(line) == EmptyBullet <==> StartsWithBullet(line) && BulletText(line) == []
  {
    if StartsWithBullet(line) && BulletText(line) == [] {
      var r := LStripChars(line, BulletMarks);
      forall i | 0 <= i < |line|
        ensures !IsCased(line[i])
      {
        if i >= |line| - |r| {
          assert line[i] == r[i - (|line| - |r|)];
        }
      }
      UncasedNotUpper(line);
    }
  }

  /** The title test comes first: a long upper-case line is a centred bold
      title even when it holds a colon or starts with a bullet marker, and
      the current section is kept. */
  lemma TitleFirst(raw: string, section: Option<string>)
    requires Strip(raw) != []
    requires IsUpper(Normalized(raw)) && |Normalized(raw)| > 10
    ensures var e := ProcessLine(raw, section);
            e.section == section && e.paragraph.Some? &&
            e.paragraph.value.runs == [Run(Normalized(raw), Bold)] &&
            e.paragraph.value.style == None &&
            e.paragraph.value.alignment == Center &&
            e.paragraph.value.spaceBefore == None &&
            e.paragraph.value.spaceAfter == Some(12) &&
            e.paragraph.value.leftIndent == None
  {
    LineStepCases(Normalized(raw), section);
  }

  /** A field: the bold label is the stripped text before the first colon
      followed by a colon, and a second plain run holds a space and the
      stripped rest exactly when that rest is not blank. */
  lemma FieldRuns(line: string, section: Option<string>)
    requires ClassifyLine(line) == Field
    ensures ':' in line
    ensures var i := IndexOf(line, ':');
            var e := LineStep(line, section);
            var rest := Strip(line[i + 1..]);
            e.section == section && e.paragraph.Some? &&
            e.paragraph.value.style == None &&
            e.paragraph.value.alignment == Inherited &&
            e.paragraph.value.spaceBefore == None &&
            e.paragraph.value.spaceAfter == Some(6) &&
            e.paragraph.value.leftIndent == None &&
            1 <= |e.paragraph.value.runs| <= 2 &&
            e.paragraph.value.runs[0] == Run(Strip(line[..i]) + ":", Bold) &&
            (|e.paragraph.value.runs| == 2 <==> rest != []) &&
            (rest != [] ==> e.paragraph.value.runs[1] == Run(" " + rest, Plain))
  {
    LineStepCases(line, section);
    var i := IndexOf(line, ':');
    var parts := SplitFirst(line, ':');
    SplitAtFirst(line, ':', parts, i);
  }

  /** The two parts of `split(c, 1)` are the text before and after the
      first `c`. */
  lemma SplitAtFirst(s: string, c: char, parts: seq<string>, i: nat)
    requires c in s && parts == SplitFirst(s, c) && i == IndexOf(s, c)
    ensures parts[0] == s[..i] && parts[1] == s[i + 1..]
  {
    assert s[..|parts[0]|] == parts[0];
  }

  /** The keyword runs: with a colon, the bold label before the first colon
      and the plain rest after it; without one, the whole text in bold with
      a colon added. Either way the runs spell the text, plus `:` when it
      holds none. */
  lemma LabelRunsShape(text: string)
    ensures ':' in text ==>
              LabelRuns(text) == [Run(text[..IndexOf(text, ':')] + ":", Bold), Run(text[IndexOf(text, ':') + 1..], Plain)]
    ensures ':' !in text ==> LabelRuns(text) == [Run(text + ":", Bold)]
    ensures Text(LabelRuns(text)) == (if ':' in text then text else text + ":")
  {
    var parts := SplitFirst(text, ':');
    var runs := LabelRuns(text);
    if |parts| > 1 {
      SplitAtFirst(text, ':', parts, IndexOf(text, ':'));
      assert runs == [Run(parts[0] + ":", Bold), Run(parts[1], Plain)];
      assert Text(runs) == (parts[0] + ":") + parts[1] by {
        assert Text(runs) == runs[0].text + Text(runs[1..]);
        assert runs[1..] == [Run(parts[1], Plain)];
      }
    } else {
      assert runs == [Run(parts[0] + ":", Bold)];
      assert Text(runs) == runs[0].text + Text(runs[1..]);
    }
  }

  /** A bullet whose lower-cased text starts with a keyword gets a bold
      label: the text before the first colon plus `:`, followed by the rest
      as a plain run when there is a colon; the colon is added even when the
      text has none. Any other bullet is one plain run. */
  lemma BulletRunsText(text: string)
    ensures HasKeyword(text) ==>
              BulletRuns(text)[0].emphasis == Bold &&
              Text(BulletRuns(text)) == (if ':' in text then text else text + ":")
    ensures HasKeyword(text) && ':' in text ==>
              BulletRuns(text) == [Run(text[..IndexOf(text, ':')] + ":", Bold), Run(text[IndexOf(text, ':') + 1..], Plain)]
    ensures HasKeyword(text) && ':' !in text ==> BulletRuns(text) == [Run(text + ":", Bold)]
    ensures !HasKeyword(text) ==> BulletRuns(text) == [Run(text, Plain)]
  {
    LabelRunsShape(text);
  }

  /** A bullet item: list style, two points after, the runs of its text. */
  lemma BulletShape(line: string, section: Option<string>)
    requires ClassifyLine(line) == Bullet
    ensures var e := LineStep(line, section);
            e.section == section && e.paragraph.Some? &&
            e.paragraph.value.style == Some(ListBulletStyle) &&
            e.paragraph.value.alignment == Inherited &&
            e.paragraph.value.spaceBefore == None &&
            e.paragraph.value.spaceAfter == Some(2) &&
            e.paragraph.value.leftIndent == None &&
            e.paragraph.value.runs == BulletRuns(BulletText(line)) &&
            BulletText(line) != []
  {
    LineStepCases(line, section);
  }

  /** A section header: one bold run of the line, twelve points before and
      six after, and the line becomes the current section whatever it was;
      a header is short, since a longer upper-case line is a title. */
  lemma HeaderShape(line: string, section: Option<string>)
    requires ClassifyLine(line) == Header
    ensures var e := LineStep(line, section);
            e.section == Some(line) && e.paragraph.Some? &&
            e.paragraph.value.runs == [Run(line, Bold)] &&
            e.paragraph.value.style == None &&
            e.paragraph.value.alignment == Inherited &&
            e.paragraph.value.spaceBefore == Some(12) &&
            e.paragraph.value.spaceAfter == Some(6) &&
            e.paragraph.value.leftIndent == None
    ensures IsUpper(line) && ':' !in line && |line| <= 10
  {
    LineStepCases(line, section);
  }

  /** The section changes only at a header, and then to that header's
      line: upper-case, without a colon, and at most ten characters long. */
  lemma SectionOnlyFromHeader(raw: string, section: Option<string>)
    requires ProcessLine(raw, section).section != section
    ensures Strip(raw) != [] && ClassifyLine(Normalized(raw)) == Header
    ensures ProcessLine(raw, section).section == Some(Normalized(raw))
    ensures ShortSection(ProcessLine(raw, section).section)
  {
    LineStepCases(Normalized(raw), section);
  }

  predicate ShortSection(section: Option<string>)
  {
    section.None? || (IsUpper(section.value) && ':' !in section.value && |section.value| <= 10)
  }

  lemma {:induction false} ConvertSectionShort(lines: seq<string>)
    ensures ShortSection(Convert(lines).section)
  {
    if lines != [] {
      var before := Convert(lines[..|lines| - 1]);
      ConvertSectionShort(lines[..|lines| - 1]);
      if ProcessLine(lines[|lines| - 1], before.section).section != before.section {
        SectionOnlyFromHeader(lines[|lines| - 1], before.section);
      }
    }
  }

  /** A section of at most ten characters never holds the eleven
      characters of `OBSERVAÇÕES`. */
  lemma ShortSectionNeverIndents(section: Option<string>)
    requires ShortSection(section)
    ensures !Indents(section)
  {
    assert |ObservacoesSection| == 11;
  }

  /** A plain paragraph is one plain run equal to the line, with two points
      after; it is indented exactly when `Indents` holds of the section. */
  lemma BodyShape(line: string, section: Option<string>)
    requires ClassifyLine(line) == Body
    ensures var e := LineStep(line, section);
            e.section == section && e.paragraph.Some? &&
            e.paragraph.value.runs == [Run(line, Plain)] &&
            e.paragraph.value.style == None &&
            e.paragraph.value.alignment == Inherited &&
            e.paragraph.value.spaceBefore == None &&
            e.paragraph.value.spaceAfter == Some(2) &&
            e.paragraph.value.leftIndent == (if Indents(section) then Some(20) else None)
  {
    LineStepCases(line, section);
  }

  /** So no paragraph of a conversion is ever indented. */
  lemma {:induction false} NoIndentEver(lines: seq<string>)
    ensures forall i :: 0 <= i < |Convert(lines).paragraphs| ==> Convert(lines).paragraphs[i].leftIndent == None
  {
    if lines != [] {
      var init := lines[..|lines| - 1];
      var before := Convert(init);
      NoIndentEver(init);
      ConvertSectionShort(init);
      ShortSectionNeverIndents(before.section);
      var raw := lines[|lines| - 1];
      if Strip(raw) != [] {
        LineStepCases(Normalized(raw), before.section);
      }
    }
  }

  /** The normalised line keeps only characters of the raw line. */
  lemma NormalizedKeepsCharacters(raw: string)
    ensures forall c :: c in Normalized(raw) ==> c in raw
  {
    var t := Strip(raw);
    SubKeepsCharacters(BoldPattern, t, 0);
    assert t[0..] == t;
  }

  lemma TextOfPair(a: Run, b: Run)
    ensures Text([a, b]) == a.text + b.text
  {
    assert [a, b][1..] == [b];
    assert Text([b]) == b.text + Text([]);
  }

  lemma TextOfOne(a: Run)
    ensures Text([a]) == a.text
  {
    assert Text([a]) == a.text + Text([]);
  }

  lemma FieldNoNewline(line: string)
    requires '\n' !in line
    ensures '\n' !in Text(FieldParagraph(line).runs)
  {
    var parts := SplitFirst(line, ':');
    SplitFirstKeepsCharacters(line, ':');
    var runs := FieldParagraph(line).runs;
    var name := Strip(parts[0]) + ":";
    assert '\n' !in name by {
      assert '\n' !in parts[0];
    }
    if |parts| > 1 && Strip(parts[1]) != [] {
      var value := " " + Strip(parts[1]);
      assert '\n' !in value by {
        assert '\n' !in parts[1];
      }
      assert runs == [Run(name, Bold), Run(value, Plain)];
      TextOfPair(Run(name, Bold), Run(value, Plain));
    } else {
      assert runs == [Run(name, Bold)];
      TextOfOne(Run(name, Bold));
    }
  }

  lemma BulletNoNewline(text: string)
    requires '\n' !in text
    ensures '\n' !in Text(BulletRuns(text))
  {
    BulletRunsText(text);
    if !HasKeyword(text) {
      assert Text([Run(text, Plain)]) == text + Text([]);
    }
  }

  /** No paragraph built from a line without a newline holds one. */
  lemma LineStepNoNewline(line: string, section: Option<string>)
    requires '\n' !in line
    ensures LineStep(line, section).paragraph.Some? ==> '\n' !in Text(LineStep(line, section).paragraph.value.runs)
  {
    LineStepCases(line, section);
    var k := ClassifyLine(line);
    if k == Field {
      FieldNoNewline(line);
    } else if k == Bullet {
      BulletNoNewline(BulletText(line));
    } else {
      assert Text([Run(line, Plain)]) == line + Text([]);
      assert Text([Run(line, Bold)]) == line + Text([]);
    }
  }

  /** No paragraph of a conversion holds a newline. */
  lemma {:induction false} ConvertNoNewline(lines: seq<string>)
    requires forall i :: 0 <= i < |lines| ==> '\n' !in lines[i]
    ensures forall i :: 0 <= i < |Convert(lines).paragraphs| ==> '\n' !in Text(Convert(lines).paragraphs[i].runs)
  {
    if lines != [] {
      var init := lines[..|lines| - 1];
      var raw := lines[|lines| - 1];
      ConvertNoNewline(init);
      if Strip(raw) != [] {
        NormalizedKeepsCharacters(raw);
        LineStepNoNewline(Normalized(raw), Convert(init).section);
      }
    }
  }

  /** Reading back the text of a converted document, non-empty, and
      splitting it on newlines gives the paragraph texts in order. */
  lemma ConvertedTextRoundTrip(markdownText: string)
    ensures var texts := Texts(Convert(Split(markdownText, '\n')).paragraphs);
            |texts| >= 1 ==> Split(Join(texts, '\n'), '\n') == texts
  {
    LinesRoundTrip(Split(markdownText, '\n'));
  }

  lemma LinesRoundTrip(lines: seq<string>)
    requires forall i :: 0 <= i < |lines| ==> '\n' !in lines[i]
    ensures var texts := Texts(Convert(lines).paragraphs);
            |texts| >= 1 ==> Split(Join(texts, '\n'), '\n') == texts
  {
    var ps := Convert(lines).paragraphs;
    ConvertNoNewline(lines);
    if |ps| >= 1 {
      SplitJoin(Texts(ps), '\n');
    }
  }
}
