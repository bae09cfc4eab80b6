/**
 Concrete lines run through the classifier chain.
 */
module ConverterExamples {
  import opened Optional
  import opened PyText
  import opened DocModel
  import opened Converter

  /** A marker with nothing after it, `- `, is skipped and leaves the
      current section alone. */
  lemma MarkerOnlySkipped(raw: string, section: Option<string>)
    requires raw == "- "
    ensures ProcessLine(raw, section) == LineEffect(None, section)
  {
    MarkerNormalized(raw);
    MarkerClassified("-");
    LineStepCases("-", section);
  }

  lemma MarkerNormalized(raw: string)
    requires raw == "- "
    ensures Strip(raw) != [] && Normalized(raw) == "-"
  {
    assert LStrip(raw) == raw;
    assert RStrip(raw) == RStrip("-");
    assert RStrip("-") == "-";
    NoBoldMarkersUnchanged("-");
  }

  lemma MarkerClassified(line: string)
    requires line == "-"
    ensures ClassifyLine(line) == EmptyBullet
  {
    assert StartsWithBullet(line);
    assert LStripChars(line, BulletMarks) == [];
    EmptyBulletIff(line);
  }
}
