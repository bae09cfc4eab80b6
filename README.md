# Markdown-to-Word converter: a Dafny model

This project models the core of `MarkdownToDocxConverter` in
`projeto/markdown_converter.py`, the converter that turns the plain text of a
therapeutic report into a Word document. It covers three pieces:

- `parse_markdown_to_docx` (module `Converter`). The text is split into lines.
  Each line is stripped, blank lines are skipped, `**x**` is collapsed to `x`,
  and the line goes through an ordered chain of five tests: title, field,
  section header, bullet item, plain paragraph. The chain carries one piece of
  state, `current_section`, and every section's margins are set to 72pt.
- `process_inline_formatting` (module `InlineFormatting`). It finds the bold
  and italic spans with two regular expressions, drops an italic match whose
  own two delimiters are `*` and which has a `*` just before and just after
  it, sorts the spans by start offset, and walks the text with `last_end`,
  emitting plain and formatted runs.
- The join in `extract_text_from_docx` (`Converter.ExtractText`).

The supporting modules are:

- `PyText`: the Python `str` operations the code relies on, with Python's
  edge cases. `''.split(c)` is `['']`, `strip()` uses the `isspace()` set,
  `split(':', 1)` splits once, and `isupper()` needs at least one cased
  character.
- `Regex`: the two patterns as lazy left-to-right scanners (`finditer` and
  `re.sub`). `.` does not match a newline.
- `DocModel`: runs, paragraphs, sections, and a `Document` class whose
  paragraph list only grows.

`Converter.Convert` specifies the line loop as a fold of `ProcessLine`.
`ParseMarkdownToDocx` is the loop itself, with its `continue` chain, and is
proved to produce the paragraphs of `Convert`. The properties of the
conversion are then proved about `Convert`. In the same way,
`ProcessInlineFormatting` is proved equal to `InlineRuns`, and the properties
of inline formatting are proved about `InlineRuns`.

Some consequences of the code, as written, that the model makes explicit:

- **`OBSERVATIONS` is a title, not a header.** `OBSERVATIONS` has 12
  characters and is upper-case, so the title test at
  `projeto/markdown_converter.py:61` takes it before the header test at line
  81, and it never becomes the current section (`TitleFirst`).
- **The observations indent never happens.** Only a header, at line 82, sets
  `current_section`, and a header has at most ten characters, because a longer
  upper-case line is a title. `OBSERVAÇÕES` has eleven, so the test at line 111
  never succeeds and no paragraph is ever indented (`ConvertSectionShort`,
  `ShortSectionNeverIndents`, `NoIndentEver`).
- **Keyword bullets always get a colon.** Line 98 only checks the keyword
  prefix. When the text has no colon, line 100 still adds one, so the bold
  label is the whole text plus `:` (`BulletRunsText`).
- **Spans can overlap.** The neighbour test at lines 143-145 does not keep
  bold and italic spans apart: in `**a**` the italic pattern also matches the
  two `**`. For that text the runs are bold `a`, an empty italic run, plain
  `a`, and another empty italic run (`BoldTextOverlaps`).

## Model

| member | source | states |
|---|---|---|
| Converter.ParseMarkdownToDocx | projeto/markdown_converter.py:39-120 | the new document keeps the template's sections, all four margins of every section are 72pt, and its paragraphs are exactly those of `Convert` over `split('\n')` of the text |
| Converter.SetAllMargins | projeto/markdown_converter.py:42-47 | after the loop every section has 72pt margins; the number of sections and the paragraphs are unchanged |
| Converter.AddLines | projeto/markdown_converter.py:49-114 | starting from no paragraph, with `current_section = None`, the loop appends exactly the paragraphs of `Convert(lines)` and leaves the sections alone |
| Converter.AddLine | projeto/markdown_converter.py:52-58 | one iteration: a blank line appends nothing and keeps the section; otherwise the stripped, normalised line goes through the chain; the appended paragraph and the new section are those of `ProcessLine` |
| Converter.AddNormalized | projeto/markdown_converter.py:60-114 | the chain with early returns appends the paragraph of `LineStep` (none for an empty bullet) and returns its section |
| Converter.ClassifyLine | projeto/markdown_converter.py:61-107 | the chain of tests on a normalised line in the code's order: title, field, header, bullet (empty bullet when its text is empty), plain paragraph |
| Converter.LineStep | projeto/markdown_converter.py:60-114 | the paragraph each branch appends (none for an empty bullet) and the section after it: only a header changes it, to its line |
| Converter.ProcessLine | projeto/markdown_converter.py:53-114 | one loop iteration on a raw line: nothing for a blank line, otherwise `LineStep` of the stripped, normalised line |
| Converter.Convert | projeto/markdown_converter.py:49-114 | the loop over the lines from no paragraph and `current_section = None`, appending each line's paragraph |
| Converter.TitleParagraph | projeto/markdown_converter.py:62-66 | one bold run of the line, centred, 12pt after |
| Converter.FieldParagraph | projeto/markdown_converter.py:71-77 | the stripped label plus `:` in bold, then `' ' + rest.strip()` when that is not empty, 6pt after |
| Converter.HeaderParagraph | projeto/markdown_converter.py:83-87 | one bold run of the line, 12pt before and 6pt after |
| Converter.BulletRuns | projeto/markdown_converter.py:98-105 | the keyword test picks the label runs, otherwise one plain run of the text |
| Converter.LabelRuns | projeto/markdown_converter.py:99-103 | the text before the first colon plus `:` in bold, then the rest when there was a colon |
| Converter.BulletParagraph | projeto/markdown_converter.py:95-106 | the `List Bullet` style, the bullet runs, 2pt after |
| Converter.BodyParagraph | projeto/markdown_converter.py:110-114 | one plain run of the line, 2pt after, 20pt left indent when `Indents` holds |
| Converter.Indents | projeto/markdown_converter.py:111 | the section is set, not empty, and its `upper()` contains `OBSERVAÇÕES` |
| Converter.HasKeyword | projeto/markdown_converter.py:98 | the `lower()` of the text starts with one of the three keywords |
| Converter.BulletText | projeto/markdown_converter.py:92 | `lstrip('-• ')` followed by `strip()` |
| Converter.NormalizeBold | projeto/markdown_converter.py:58 | the normalisation never makes a line longer |
| Converter.Normalized | projeto/markdown_converter.py:53-58 | `line.strip()` followed by the bold `re.sub`: the line every test and every run of the chain uses |
| Converter.StartsWithBullet | projeto/markdown_converter.py:70 | `line.startswith('-') or line.startswith('•')`: the line is not empty and its first character is `-` or `•` (the same test as line 91) |
| Converter.NoBoldMarkersUnchanged | projeto/markdown_converter.py:58 | a line with no `**` in it is left unchanged by the normalisation |
| Converter.NormalizedKeepsCharacters | projeto/markdown_converter.py:53-58 | stripping and normalising only keep characters of the raw line |
| Converter.ConvertPrefix | projeto/markdown_converter.py:52-114 | paragraphs are only appended: the paragraphs of a prefix of the lines are a prefix of the paragraphs of all of them |
| Converter.ProducesIff | projeto/markdown_converter.py:54-94 | a line appends a paragraph if and only if it is not blank and not an empty bullet, whatever the current section |
| Converter.ConvertCount | projeto/markdown_converter.py:52-114 | the number of paragraphs equals the number of lines that are neither blank nor empty bullets |
| Converter.ConvertAllBlank | projeto/markdown_converter.py:53-55 | lines that are all blank give no paragraph and no current section |
| Converter.BlankTextNoParagraphs | projeto/markdown_converter.py:49-55 | a text made only of white space gives a document with no paragraph |
| Converter.AllPartsBlank | projeto/markdown_converter.py:49-55 | every line of a white-space text is blank after `strip()` |
| Converter.JoinedPartBlank | projeto/markdown_converter.py:49-55 | one piece of a newline-joined white-space text is blank after `strip()` |
| Converter.TitleFirst | projeto/markdown_converter.py:61-67 | a long upper-case line is one bold centred run of the normalised line, with 12pt after, no style, no space before and no indent, and the section kept, even if it has a colon or starts with a marker |
| Converter.FieldRuns | projeto/markdown_converter.py:70-78 | a field has no style, no alignment, no space before and no indent, and 6pt after; its first run is the stripped text before the first colon plus `:` in bold; a second plain run `' ' + rest` exists exactly when the stripped rest is not empty; the section is kept |
| Converter.HeaderShape | projeto/markdown_converter.py:81-88 | a header is one bold run of the line with 12pt before, 6pt after, no style, alignment or indent; the line becomes the current section whatever it was; the line is upper-case, has no colon and at most ten characters |
| Converter.SectionOnlyFromHeader | projeto/markdown_converter.py:80-88 | the current section changes only at a header, to that header's line: upper-case, no colon, at most ten characters |
| Converter.ConvertSectionShort | projeto/markdown_converter.py:50-82 | after any lines the current section is none or such a short header |
| Converter.ShortSectionNeverIndents | projeto/markdown_converter.py:111-112 | a section of at most ten characters never passes the `OBSERVAÇÕES` test |
| Converter.EmptyBulletIff | projeto/markdown_converter.py:91-94 | a line is skipped as an empty bullet exactly when it starts with `-` or `•` and nothing is left after `lstrip('-• ').strip()` |
| Converter.BulletShape | projeto/markdown_converter.py:91-107 | a bullet item gets the `List Bullet` style, no alignment, no space before, no indent, 2pt after and the runs of its non-empty text, and keeps the section |
| Converter.BulletRunsText | projeto/markdown_converter.py:97-105 | with a keyword prefix the first run is bold and the runs are the text before the first colon plus `:` in bold, then the plain rest after that colon; without a colon, the whole text plus `:` in bold; without a keyword, the whole text as one plain run |
| Converter.LabelRunsShape | projeto/markdown_converter.py:99-103 | with a colon, the bold label before the first colon plus `:` and the plain rest after it; without one, the whole text plus `:` in bold; the runs spell the text, plus `:` when it holds none |
| Converter.BodyShape | projeto/markdown_converter.py:109-114 | a plain paragraph is one plain run of the line with no style, no alignment, no space before and 2pt after; its left indent is 20pt exactly when the current section passes the `OBSERVAÇÕES` test, and unset otherwise |
| Converter.NoIndentEver | projeto/markdown_converter.py:109-114 | no paragraph of any conversion is indented |
| Converter.FieldNoNewline | projeto/markdown_converter.py:70-78 | a field built from a line without a newline has no newline in its text |
| Converter.BulletNoNewline | projeto/markdown_converter.py:97-105 | the same for a bullet item's runs |
| Converter.LineStepNoNewline | projeto/markdown_converter.py:60-114 | the same for every kind of paragraph |
| Converter.ConvertNoNewline | projeto/markdown_converter.py:49-114 | no paragraph of a conversion holds a newline |
| Converter.Texts | projeto/markdown_converter.py:16-18 | one text per paragraph, in order, each the concatenation of its runs |
| Converter.ExtractText | projeto/markdown_converter.py:13-19 | the result is the paragraph texts joined with newlines; with at least one paragraph and no newline inside a text, splitting it again gives back the texts |
| Converter.LinesRoundTrip | projeto/markdown_converter.py:13-114 | for lines without newlines, when at least one paragraph is produced, the extracted text of the converted document splits back into its paragraph texts |
| Converter.ConvertedTextRoundTrip | projeto/markdown_converter.py:13-114 | for any input text that produces at least one paragraph, extracting the text of the converted document and splitting it on newlines gives the paragraph texts, in order |
| ConverterExamples.MarkerOnlySkipped | projeto/markdown_converter.py:91-94 | the line `- ` appends no paragraph and keeps the section |
| ConverterExamples.MarkerNormalized | projeto/markdown_converter.py:53-58 | `- ` is not blank and normalises to `-` |
| ConverterExamples.MarkerClassified | projeto/markdown_converter.py:91-94 | `-` is an empty bullet |
| InlineFormatting.ProcessInlineFormatting | projeto/markdown_converter.py:122-174 | the runs added are those of `InlineRuns`: the whole text as one plain run when nothing matched, otherwise the walk over the sorted entries |
| InlineFormatting.InlineRuns | projeto/markdown_converter.py:149-174 | one plain run of the text when there is no entry, otherwise the walk over the sorted entries from 0 |
| InlineFormatting.Formats | projeto/markdown_converter.py:134-149 | the bold entries, then the kept italic entries, sorted by start |
| InlineFormatting.Walk | projeto/markdown_converter.py:157-174 | before each entry the text since `last_end` when the entry starts later, then its content with its emphasis, `last_end` set to its end; at the end the rest of the text when `last_end < len(text)` |
| InlineFormatting.SortByStart | projeto/markdown_converter.py:149 | repeated insertion by start offset |
| InlineFormatting.Insert | projeto/markdown_converter.py:149 | the entry is placed after every entry whose start is not larger |
| InlineFormatting.KeptItalics | projeto/markdown_converter.py:141-146 | one italic entry per italic match that the neighbour test does not drop, in order |
| InlineFormatting.BesideBold | projeto/markdown_converter.py:143-145 | both delimiters of the match are `*`, and a `*` stands just before and just after it |
| InlineFormatting.EmphasisOf | projeto/markdown_converter.py:164-168 | a `bold` entry gives a bold run, an `italic` entry an italic run |
| InlineFormatting.SpanOf | projeto/markdown_converter.py:138-146 | the tuple `(match.start(), match.end(), group, format_type)` of one match, as lines 138 and 146 append it |
| InlineFormatting.SpansOf | projeto/markdown_converter.py:137-138 | one such tuple per match, in `finditer` order, all with the same format |
| InlineFormatting.CollectFormats | projeto/markdown_converter.py:134-146 | the entries are the bold matches in order, followed by the italic matches the neighbour test keeps |
| InlineFormatting.AppendBold | projeto/markdown_converter.py:137-138 | one bold entry per bold match, appended in order |
| InlineFormatting.AppendItalics | projeto/markdown_converter.py:141-146 | the italic entries that pass the neighbour test, appended in order |
| InlineFormatting.SortFormats | projeto/markdown_converter.py:149 | the insertion sort gives `SortByStart`: sorted by start and stable |
| InlineFormatting.EmitRuns | projeto/markdown_converter.py:157-174 | the loop with `last_end` emits exactly `Walk(text, formats, 0)` |
| InlineFormatting.InsertSorted | projeto/markdown_converter.py:149 | inserting into a sorted list keeps it sorted |
| InlineFormatting.InsertPermutes | projeto/markdown_converter.py:149 | inserting adds exactly one entry, the inserted one |
| InlineFormatting.InsertAbove | projeto/markdown_converter.py:149 | a lower bound on the start of `x` and of every entry is a lower bound after the insertion |
| InlineFormatting.InsertAt | projeto/markdown_converter.py:149 | the insertion point is after the last entry whose start is not larger than that of `x` |
| InlineFormatting.SortByStartSorted | projeto/markdown_converter.py:149 | the sort result is in non-decreasing start order |
| InlineFormatting.SortByStartPermutes | projeto/markdown_converter.py:149 | the sort result is a permutation of its input |
| InlineFormatting.SortByStartStable | projeto/markdown_converter.py:149 | entries with the same start keep their relative order |
| InlineFormatting.InsertWithStart | projeto/markdown_converter.py:149 | inserting `x` adds it after the entries with the same start and changes no other start group |
| InlineFormatting.WithStartAppend | projeto/markdown_converter.py:149 | the entries of one start in a concatenation are those of each part, in order |
| InlineFormatting.WithStartNone | projeto/markdown_converter.py:149 | a list with no entry of a start has an empty group for it |
| InlineFormatting.WithStartHead | projeto/markdown_converter.py:149 | the first entry heads the group of its own start |
| InlineFormatting.WithStartMember | projeto/markdown_converter.py:149 | a non-empty group means an entry with that start exists |
| InlineFormatting.StableSortUnique | projeto/markdown_converter.py:149 | two sorted lists with the same start groups are equal, so any stable sort, the one `list.sort` runs included, gives the same list as `SortByStart` |
| InlineFormatting.SortByStartOfSorted | projeto/markdown_converter.py:149 | sorting a list already in start order leaves it unchanged |
| InlineFormatting.MatchesInText | projeto/markdown_converter.py:137-141 | every match `finditer` yields lies inside the text |
| InlineFormatting.KeptItalicsInText | projeto/markdown_converter.py:141-146 | the kept italic entries lie inside the text |
| InlineFormatting.FormatsInText | projeto/markdown_converter.py:134-149 | every sorted entry lies inside the text, so every slice the walk takes is defined |
| InlineFormatting.WalkPlainRunsNonEmpty | projeto/markdown_converter.py:160-174 | the walk never emits an empty plain run |
| InlineFormatting.FormattedRunsAppend | projeto/markdown_converter.py:157-174 | the formatted runs of a concatenation are those of each part, in order |
| InlineFormatting.WalkContentRuns | projeto/markdown_converter.py:157-170 | the walk emits each entry's content exactly once, with its emphasis, in order; every other run is plain |
| InlineFormatting.InlineContentRuns | projeto/markdown_converter.py:149-174 | the bold and italic runs added are the contents of the sorted entries, one each |
| InlineFormatting.InlineWithoutMarkers | projeto/markdown_converter.py:151-154 | text with no `*` and no `_` comes back as one plain run |
| InlineFormatting.WalkShift | projeto/markdown_converter.py:160-174 | before the next entry, the walk's text starts with the next character of the text |
| InlineFormatting.WalkShiftTail | projeto/markdown_converter.py:173-174 | the same after the last entry |
| InlineFormatting.WalkShiftGap | projeto/markdown_converter.py:160-161 | the same inside a gap before an entry |
| InlineFormatting.SpansOfInText | projeto/markdown_converter.py:137-138 | the entries made from the matches lie inside the text |
| InlineFormatting.WalkSpellsSub | projeto/markdown_converter.py:58-174 | over the matches of one pattern, the walk's text is the text with every match replaced by its content: the same string as the line normalisation `re.sub` |
| InlineFormatting.WalkSpellsSubMatch | projeto/markdown_converter.py:58-174 | the same step when a match begins at the current position |
| InlineFormatting.SpansOfFirstMatch | projeto/markdown_converter.py:58-137 | a match at the current position is the first entry, and `re.sub` replaces it by its content |
| InlineFormatting.NoBoldKeepsItalic | projeto/markdown_converter.py:143-145 | with no bold match, the neighbour test never drops an italic match |
| InlineFormatting.KeptAllItalics | projeto/markdown_converter.py:141-146 | when the test drops none, every italic match becomes an entry, in order |
| InlineFormatting.ItalicOnlyFormats | projeto/markdown_converter.py:134-149 | with no bold match, the sorted entries are the italic matches in `finditer` order |
| InlineFormatting.InlineItalicOnly | projeto/markdown_converter.py:122-174 | with no bold match, the text of the runs is the text with every `*…*` or `_…_` replaced by its content |
| InlineFormatting.MatchesIncrease | projeto/markdown_converter.py:137-141 | `finditer` yields matches in strictly increasing start order |
| InlineFormatting.BoldTextOverlaps | projeto/markdown_converter.py:122-174 | `**a**` gives bold `a`, an empty italic run, plain `a`, an empty italic run |
| InlineFormatting.ExampleFormats | projeto/markdown_converter.py:134-149 | the sorted entries of `**a**`: the bold `a` at 0-5 and empty italics at 0-2 and 3-5 |
| InlineFormatting.ExampleWalk | projeto/markdown_converter.py:157-174 | the walk over those entries |
| InlineFormatting.ExampleBoldMatches | projeto/markdown_converter.py:129-137 | the bold pattern finds one match in `**a**` |
| InlineFormatting.ExampleItalicMatches | projeto/markdown_converter.py:131-141 | the italic pattern finds the two `**` of `**a**` as matches with empty content |
| InlineFormatting.ExampleKeptItalics | projeto/markdown_converter.py:143-146 | the neighbour test keeps both |
| PyText.Strip | projeto/markdown_converter.py:53 | `strip()` is the one slice of its input left after removing the leading and trailing white space: everything outside it is white space, it is empty exactly when the text is all white space, otherwise it starts and ends with a non-space |
| PyText.IsSpace | projeto/markdown_converter.py:53 | the characters for which `str.isspace()` holds, the set `strip()` removes |
| PyText.LStrip | projeto/markdown_converter.py:53 | `lstrip()` drops exactly the leading white space: a suffix whose dropped prefix is all white space and which starts with a non-space |
| PyText.RStrip | projeto/markdown_converter.py:53 | `rstrip()` drops exactly the trailing white space |
| PyText.LStripChars | projeto/markdown_converter.py:92 | `lstrip('-• ')` drops a prefix made only of those characters and stops at the first other one |
| PyText.SplitFirst | projeto/markdown_converter.py:71-99 | `split(':', 1)` gives one part equal to the text when there is no colon, otherwise the two parts around the first colon |
| PyText.SplitFirstKeepsCharacters | projeto/markdown_converter.py:71 | both parts only hold characters of the text |
| PyText.Split | projeto/markdown_converter.py:49 | `split('\n')` is never empty, its pieces hold no newline, and joining them gives the text back |
| PyText.Join | projeto/markdown_converter.py:19 | `'\n'.join(parts)`: the pieces with one separator between each two |
| PyText.SplitJoin | projeto/markdown_converter.py:19-49 | splitting a newline-join of a non-empty list of newline-free pieces gives the pieces back |
| PyText.IndexAfterPrefix | projeto/markdown_converter.py:71 | in `a + c + b` with no `c` in `a`, the first `c` stands right after `a` |
| PyText.IndexOf | projeto/markdown_converter.py:71 | the index of the first occurrence of the character |
| PyText.Contains | projeto/markdown_converter.py:111 | Python's `sub in s`: `sub` occurs at some position of `s` |
| PyText.IsUpper | projeto/markdown_converter.py:61 | `isupper()`: at least one cased character, and every cased character is a capital |
| PyText.Upper | projeto/markdown_converter.py:111 | `upper()` keeps the length, turns each lower-case letter into its capital, keeps every other character, and leaves no lower-case letter |
| PyText.Lower | projeto/markdown_converter.py:98 | `lower()` keeps the length, turns each capital into its lower-case letter, keeps every other character, and leaves no capital |
| PyText.UncasedNotUpper | projeto/markdown_converter.py:61-81 | a text with no cased character is not `isupper()` |
| Regex.MatchAt | projeto/markdown_converter.py:58-131 | a match found at a position has delimiters at both ends, content equal to the text between them, no newline, and no delimiter inside (laziness) |
| Regex.FindAll | projeto/markdown_converter.py:137-141 | `finditer`'s matches each satisfy that, come without overlap and in order, are each the match that begins at their start, and none is skipped: no position before the first, between two, or after the last begins a match |
| Regex.FindAllAt | projeto/markdown_converter.py:58-137 | a match at the current position is the first one that `finditer` and `re.sub` meet |
| Regex.Sub | projeto/markdown_converter.py:58 | `re.sub` never makes the text longer |
| Regex.CloseFrom | projeto/markdown_converter.py:58-131 | the lazy group ends at the first closing delimiter, with no newline before it |
| Regex.CloseFromFinds | projeto/markdown_converter.py:129-131 | if a closing delimiter follows with no newline between, the lazy group ends there or earlier |
| Regex.NoDelimiterNoMatch | projeto/markdown_converter.py:58-141 | text with no delimiter has no match and `re.sub` leaves it unchanged |
| Regex.NoMatchAnywhere | projeto/markdown_converter.py:137 | when `finditer` finds nothing, no position begins a match |
| Regex.NoMatchSubUnchanged | projeto/markdown_converter.py:58 | when there is no match, `re.sub` changes nothing |
| Regex.SubKeepsCharacters | projeto/markdown_converter.py:58 | `re.sub` keeps only characters of its input |
| DocModel.TextAppend | projeto/markdown_converter.py:18 | a paragraph's text over two lists of runs is the concatenation of their texts |
| DocModel.Text | projeto/markdown_converter.py:18 | `para.text`: the runs' texts one after another |
| DocModel.Document.constructor | projeto/markdown_converter.py:40 | `docx.Document()`: the template's sections and no paragraph |
| DocModel.Document.SetMargins | projeto/markdown_converter.py:44-47 | one section gets the four margins; nothing else changes |
| DocModel.Document.AddParagraph | projeto/markdown_converter.py:62 | the paragraph is appended at the end; the sections are unchanged |

## Left out

- Saving the document (`doc.save` and `BytesIO`, lines 116-120) and opening a
  `.docx` file (line 15) are file I/O. The model returns the document, and
  `ExtractText` starts from the opened document's paragraphs.
- `parse_markdown_to_docx` never reads its `output_path` and `drive_id`
  arguments, so the model has no such parameters.
- `docx.Document()` comes from python-docx's default template. Its sections
  are the `template` parameter.
- Spacing is recorded as the code assigns it. Lines 66, 77, 86-87, 106 and
  114 assign `space_before` and `space_after` on the paragraph object, not on
  its `paragraph_format`. Whether python-docx writes such attributes to the
  saved file is library behaviour. The model records the assigned values as
  paragraph properties.
- LinesRoundTrip, ConvertedTextRoundTrip: both assume that saving and
  reopening a document gives back each run's text unchanged. The save and
  reopen are python-docx behaviour and are not modelled. A run text holding
  a carriage return or a control character that XML cannot hold may be
  written differently or rejected when the file is saved.
- Lengths are plain numbers of points. python-docx's `Pt` and EMU units are
  not modelled.
- `add_document_property` (lines 21-37) is not part of this model. Neither is
  the command-line code (`show_usage_and_exit` and `main`, lines 176 onwards),
  nor the other files (`app.py`, the backend and Google Drive code). They are
  reflection around python-docx, argument parsing and web I/O.
- ParseMarkdownToDocx: each branch builds its paragraph as one value and then
  appends it. The code appends an empty paragraph first and sets its runs,
  style and spacing afterwards. The end state is the same, because nothing
  else reads the paragraph in between.
- ProcessInlineFormatting: returns the runs it would add rather than changing
  a paragraph it is given. `process_inline_formatting` is defined in the class
  without `self`, and nothing in the source calls it, so the converter's
  paragraphs never pass through it.
- SortFormats: runs an insertion sort where Python runs Timsort. Both are
  stable sorts by start offset, and `StableSortUnique` shows that every
  stable sort gives the same list.
- PyText.Upper, PyText.Lower, PyText.IsUpper: case covers only the ASCII
  letters and ê, ç, õ, Ê, Ç, Õ, the accented letters of the keywords. Every
  other character counts as uncased. Full Unicode case mapping is not
  modelled.
- PyText.IsSpace: the `isspace()` set is written out for Unicode's white-space
  characters. Python's other `str` details, such as the bytes and encoding
  behind the document text, are not modelled.
- Regex: only the two patterns the code uses are modelled, and only through
  what the code reads from them: the span, the groups and the substitution.
