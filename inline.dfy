/**
 `process_inline_formatting`: split a text into plain, bold and italic runs.

 The bold matches are collected first, then the italic matches that the
 neighbour test does not drop. The list is sorted by start offset with a
 stable sort, and it is walked with `last_end`. Nothing makes bold and
 italic spans disjoint (see `BoldTextOverlaps`), so the walk is modelled
 exactly as written, including when a span starts before `last_end`.
 */
module InlineFormatting {
  import opened Optional
  import opened Regex
  import opened DocModel

  /** The `format_type` of an entry: `'bold'` or `'italic'`. */
  datatype Format = BoldFormat | ItalicFormat

  /** One entry of `formats`: `(start, end, content, format_type)`. */
  datatype Span = Span(start: nat, end: nat, content: string, format: Format)

  function SpanOf(m: Match, f: Format): Span
  {
    Span(m.start, m.end, m.content, f)
  }

  /** One entry per match, in order, all with format `f`. */
  function SpansOf(ms: seq<Match>, f: Format): seq<Span>
  {
    seq(|ms|, i requires 0 <= i < |ms| => SpanOf(ms[i], f))
  }

  lemma SpansOfSnoc(ms: seq<Match>, m: Match, f: Format)
    ensures SpansOf(ms + [m], f) == SpansOf(ms, f) + [SpanOf(m, f)]
  {
  }

  /** The neighbour test of lines 143-145: an italic match `*…*` that has a
      `*` just before it and a `*` just after it is taken to belong to a bold
      delimiter and is dropped. */
  predicate BesideBold(text: string, m: Match)
    requires m.start <= |text|
  {
    m.open == '*' && m.close == '*' &&
    m.start > 0 && text[m.start - 1] == '*' &&
    m.end < |text| && text[m.end] == '*'
  }

  predicate InText(text: string, ms: seq<Match>)
  {
    forall i :: 0 <= i < |ms| ==> ms[i].start <= ms[i].end <= |text|
  }

  /** The entries appended for the italic matches that are kept, in order. */
  function KeptItalics(text: string, ms: seq<Match>): seq<Span>
    requires InText(text, ms)
  {
    if ms == [] then []
    else
      var m := ms[|ms| - 1];
      KeptItalics(text, ms[..|ms| - 1]) + (if BesideBold(text, m) then [] else [SpanOf(m, ItalicFormat)])
  }

  predicate SortedByStart(s: seq<Span>)
  {
    forall i, j :: 0 <= i < j < |s| ==> s[i].start <= s[j].start
  }

  /** Insert `x` after every entry whose start is not larger than its own. */
  function Insert(s: seq<Span>, x: Span): seq<Span>
  {
    if s == [] then [x]
    else if x.start < s[0].start then [x] + s
    else [s[0]] + Insert(s[1..], x)
  }

  lemma {:induction false} InsertPermutes(s: seq<Span>, x: Span)
    ensures multiset(Insert(s, x)) == multiset(s) + multiset{x}
  {
    if s != [] && x.start >= s[0].start {
      InsertPermutes(s[1..], x);
      assert s == [s[0]] + s[1..];
    }
  }

  lemma {:induction false} InsertSorted(s: seq<Span>, x: Span)
    requires SortedByStart(s)
    ensures SortedByStart(Insert(s, x))
  {
    if s != [] && x.start >= s[0].start {
      var rest := Insert(s[1..], x);
      InsertSorted(s[1..], x);
      InsertAbove(s[1..], x, s[0].start);
      assert Insert(s, x) == [s[0]] + rest;
    }
  }

  /** A lower bound of the entries and of `x` bounds the result too. */
  lemma {:induction false} InsertAbove(s: seq<Span>, x: Span, b: nat)
    requires b <= x.start && forall i :: 0 <= i < |s| ==> b <= s[i].start
    ensures forall i :: 0 <= i < |Insert(s, x)| ==> b <= Insert(s, x)[i].start
  {
    if s != [] && x.start >= s[0].start {
      InsertAbove(s[1..], x, b);
    }
  }

  /** Stable sort by start offset (insertion sort): the order in which
      `formats.sort(key=lambda x: x[0])` leaves the list. */
  function SortByStart(s: seq<Span>): seq<Span>
  {
    if s == [] then [] else Insert(SortByStart(s[..|s| - 1]), s[|s| - 1])
  }

  /** The sort is a permutation. */
  lemma {:induction false} SortByStartPermutes(s: seq<Span>)
    ensures multiset(SortByStart(s)) == multiset(s)
  {
    if s != [] {
      SortByStartPermutes(s[..|s| - 1]);
      InsertPermutes(SortByStart(s[..|s| - 1]), s[|s| - 1]);
      assert s == s[..|s| - 1] + [s[|s| - 1]];
    }
  }

  /** The sort leaves the entries in non-decreasing start order. */
  lemma {:induction false} SortByStartSorted(s: seq<Span>)
    ensures SortedByStart(SortByStart(s))
  {
    if s != [] {
      SortByStartSorted(s[..|s| - 1]);
      InsertSorted(SortByStart(s[..|s| - 1]), s[|s| - 1]);
    }
  }

  /** The entries whose start offset is `k`, in their order. */
  function WithStart(s: seq<Span>, k: nat): seq<Span>
  {
    if s == [] then []
    else (if s[0].start == k then [s[0]] else []) + WithStart(s[1..], k)
  }

  lemma {:induction false} WithStartAppend(a: seq<Span>, b: seq<Span>, k: nat)
    ensures WithStart(a + b, k) == WithStart(a, k) + WithStart(b, k)
  {
    if a == [] {
      assert a + b == b;
    } else {
      var head := if a[0].start == k then [a[0]] else [];
      assert (a + b)[0] == a[0];
      assert (a + b)[1..] == a[1..] + b;
      assert WithStart(a + b, k) == head + WithStart(a[1..] + b, k);
      WithStartAppend(a[1..], b, k);
      assert WithStart(a, k) == head + WithStart(a[1..], k);
    }
  }

  lemma {:induction false} WithStartNone(s: seq<Span>, k: nat)
    requires forall i :: 0 <= i < |s| ==> s[i].start != k
    ensures WithStart(s, k) == []
  {
    if s != [] {
      WithStartNone(s[1..], k);
    }
  }

  lemma {:induction false} InsertWithStart(s: seq<Span>, x: Span, k: nat)
    requires SortedByStart(s)
    ensures WithStart(Insert(s, x), k) == WithStart(s, k) + (if x.start == k then [x] else [])
  {
    var xs := if x.start == k then [x] else [];
    WithStartSingle(x, k);
    if s == [] {
      assert Insert(s, x) == [x];
    } else if x.start < s[0].start {
      assert Insert(s, x) == [x] + s;
      WithStartAppend([x], s, k);
      if x.start == k {
        forall i | 0 <= i < |s| ensures s[i].start != k {
          assert s[0].start <= s[i].start;
        }
        WithStartNone(s, k);
      }
    } else {
      var tail := s[1..];
      SortedTail(s);
      InsertWithStart(tail, x, k);
      assert Insert(s, x) == [s[0]] + Insert(tail, x);
      WithStartAppend([s[0]], Insert(tail, x), k);
      assert s == [s[0]] + tail;
      WithStartAppend([s[0]], tail, k);
    }
  }

  lemma WithStartSingle(x: Span, k: nat)
    ensures WithStart([x], k) == if x.start == k then [x] else []
  {
    assert [x][1..] == [];
  }

  lemma SortedTail(s: seq<Span>)
    requires SortedByStart(s) && s != []
    ensures SortedByStart(s[1..])
  {
    var tail := s[1..];
    forall i, j | 0 <= i < j < |tail| ensures tail[i].start <= tail[j].start {
      assert tail[i] == s[i + 1] && tail[j] == s[j + 1];
    }
  }

  /** Stability: among the entries with the same start offset, sorting keeps
      the original order. */
  lemma {:induction false} SortByStartStable(s: seq<Span>, k: nat)
    ensures WithStart(SortByStart(s), k) == WithStart(s, k)
  {
    if s != [] {
      var init, x := s[..|s| - 1], s[|s| - 1];
      SortByStartStable(init, k);
      SortByStartSorted(init);
      InsertWithStart(SortByStart(init), x, k);
      assert s == init + [x];
      WithStartAppend(init, [x], k);
    }
  }

  lemma {:induction false} WithStartHead(s: seq<Span>)
    requires s != []
    ensures WithStart(s, s[0].start) != [] && WithStart(s, s[0].start)[0] == s[0]
  {
  }

  lemma {:induction false} WithStartMember(s: seq<Span>, k: nat)
    requires WithStart(s, k) != []
    ensures exists i :: 0 <= i < |s| && s[i].start == k
  {
    if s[0].start != k {
      WithStartMember(s[1..], k);
      var i :| 0 <= i < |s[1..]| && s[1..][i].start == k;
      assert s[i + 1].start == k;
    }
  }

  /** A sorted sequence is determined by its entries of each start offset
      and their order: so every stable sort gives the same result, whatever
      algorithm Python's `list.sort` runs. */
  lemma {:induction false} StableSortUnique(t: seq<Span>, u: seq<Span>)
    requires SortedByStart(t) && SortedByStart(u)
    requires forall k: nat :: WithStart(t, k) == WithStart(u, k)
    ensures t == u
    decreases |t|
  {
    if t == [] {
      if u != [] {
        WithStartHead(u);
      }
    } else if u == [] {
      WithStartHead(t);
    } else {
      WithStartHead(t);
      WithStartHead(u);
      var kt, ku := t[0].start, u[0].start;
      WithStartMember(t, ku);
      WithStartMember(u, kt);
      assert kt == ku;
      assert WithStart(t, kt) == WithStart(u, kt);
      assert t[0] == u[0];
      forall k: nat ensures WithStart(t[1..], k) == WithStart(u[1..], k) {
        assert WithStart(t, k) == WithStart(u, k);
        assert WithStart(t, k) == (if kt == k then [t[0]] else []) + WithStart(t[1..], k);
        assert WithStart(u, k) == (if kt == k then [u[0]] else []) + WithStart(u[1..], k);
        if kt == k {
          assert WithStart(t[1..], k) == WithStart(t, k)[1..];
          assert WithStart(u[1..], k) == WithStart(u, k)[1..];
        } else {
          assert WithStart(t[1..], k) == WithStart(t, k);
          assert WithStart(u[1..], k) == WithStart(u, k);
        }
      }
      StableSortUnique(t[1..], u[1..]);
      assert t == [t[0]] + t[1..];
      assert u == [u[0]] + u[1..];
    }
  }

  /** Sorting a list that is already in start order leaves it unchanged. */
  lemma SortByStartOfSorted(s: seq<Span>)
    requires SortedByStart(s)
    ensures SortByStart(s) == s
  {
    forall k: nat ensures WithStart(SortByStart(s), k) == WithStart(s, k) {
      SortByStartStable(s, k);
    }
    SortByStartSorted(s);
    StableSortUnique(SortByStart(s), s);
  }

  /** If `j` is where the first entry with a larger start stands, inserting
      `x` puts it at index `j`. */
  lemma {:induction false} InsertAt(s: seq<Span>, x: Span, j: nat)
    requires j <= |s|
    requires forall t :: 0 <= t < j ==> s[t].start <= x.start
    requires j < |s| ==> x.start < s[j].start
    ensures Insert(s, x) == s[..j] + [x] + s[j..]
  {
    if s == [] || x.start < s[0].start {
      assert j == 0;
    } else {
      assert j > 0;
      InsertAt(s[1..], x, j - 1);
      assert s[..j] == [s[0]] + s[1..][..j - 1];
      assert s[j..] == s[1..][j - 1..];
    }
  }

  /** The emphasis a span's run gets. */
  function EmphasisOf(f: Format): Emphasis
  {
    if f == BoldFormat then Bold else Italic
  }

  predicate NoEmptyPlainRun(runs: seq<Run>)
  {
    forall i :: 0 <= i < |runs| && runs[i].emphasis == Plain ==> runs[i].text != []
  }

  predicate SpansInText(text: string, spans: seq<Span>)
  {
    forall i :: 0 <= i < |spans| ==> spans[i].start <= |text| && spans[i].end <= |text|
  }

  /** The walk of lines 157-174 from `last_end` on: before each entry the
      text since `last_end` when the entry starts later, then the entry's
      content with its emphasis; at the end the rest of the text, if any. */
  function Walk(text: string, spans: seq<Span>, lastEnd: nat): seq<Run>
    requires lastEnd <= |text| && SpansInText(text, spans)
    decreases |spans|
  {
    if spans == [] then
      (if lastEnd < |text| then [Run(text[lastEnd..], Plain)] else [])
    else
      var f := spans[0];
      var gap := if f.start > lastEnd then [Run(text[lastEnd..f.start], Plain)] else [];
      var rest := Walk(text, spans[1..], f.end);
      gap + [Run(f.content, EmphasisOf(f.format))] + rest
  }

  /** Every plain run the walk emits is non-empty: a gap is emitted only
      when the entry starts after `last_end`, the tail only when
      `last_end < len(text)`. */
  lemma {:induction false} WalkPlainRunsNonEmpty(text: string, spans: seq<Span>, lastEnd: nat)
    requires lastEnd <= |text| && SpansInText(text, spans)
    ensures NoEmptyPlainRun(Walk(text, spans, lastEnd))
    decreases |spans|
  {
    if spans != [] {
      var f := spans[0];
      WalkPlainRunsNonEmpty(text, spans[1..], f.end);
      var gap := if f.start > lastEnd then [Run(text[lastEnd..f.start], Plain)] else [];
      var rest := Walk(text, spans[1..], f.end);
      var runs := gap + [Run(f.content, EmphasisOf(f.format))] + rest;
      forall i | 0 <= i < |runs| && runs[i].emphasis == Plain
        ensures runs[i].text != []
      {
        if i >= |gap| + 1 {
          assert runs[i] == rest[i - |gap| - 1];
        }
      }
    }
  }

  /** The entries of `formats` after the sort: kept italic matches and bold
      matches together, in stable start order. */
  function Formats(text: string): seq<Span>
  {
    var bold := FindAll(BoldPattern, text, 0);
    var italic := FindAll(ItalicPattern, text, 0);
    SortByStart(SpansOf(bold, BoldFormat) + KeptItalics(text, italic))
  }

  /** Every match of the search lies inside the text. */
  lemma MatchesInText(pat: Pattern, text: string, p: nat)
    requires p <= |text|
    ensures InText(text, FindAll(pat, text, p))
  {
    var ms := FindAll(pat, text, p);
    forall i | 0 <= i < |ms| ensures ms[i].start <= ms[i].end <= |text| {
      assert Sound(pat, text, ms[i]);
    }
  }

  lemma KeptItalicsInText(text: string, ms: seq<Match>)
    requires InText(text, ms)
    ensures SpansInText(text, KeptItalics(text, ms))
  {
    if ms != [] {
      KeptItalicsInText(text, ms[..|ms| - 1]);
    }
  }

  lemma FormatsInText(text: string)
    ensures SpansInText(text, Formats(text))
  {
    var bold := FindAll(BoldPattern, text, 0);
    var italic := FindAll(ItalicPattern, text, 0);
    MatchesInText(BoldPattern, text, 0);
    MatchesInText(ItalicPattern, text, 0);
    var all := SpansOf(bold, BoldFormat) + KeptItalics(text, italic);
    KeptItalicsInText(text, italic);
    assert SpansInText(text, all);
    SortKeepsInText(text, all);
  }

  /** Sorting only reorders the entries, so they stay inside the text. */
  lemma SortKeepsInText(text: string, all: seq<Span>)
    requires SpansInText(text, all)
    ensures SpansInText(text, SortByStart(all))
  {
    var sorted := SortByStart(all);
    SortByStartPermutes(all);
    forall i | 0 <= i < |sorted| ensures sorted[i].start <= |text| && sorted[i].end <= |text| {
      assert sorted[i] in multiset(all);
      var j :| 0 <= j < |all| && all[j] == sorted[i];
    }
  }

  /** The runs that `process_inline_formatting` adds: the whole text as one
      plain run when nothing matched, otherwise the walk. */
  function InlineRuns(text: string): seq<Run>
  {
    var formats := Formats(text);
    FormatsInText(text);
    if formats == [] then [Run(text, Plain)] else Walk(text, formats, 0)
  }

  /** `formats.sort(key=lambda x: x[0])`, as an insertion sort. */
  method SortFormats(formats: seq<Span>) returns (sorted: seq<Span>)
    ensures sorted == SortByStart(formats)
  {
    sorted := [];
    for i := 0 to |formats|
      invariant sorted == SortByStart(formats[..i])
    {
      var x := formats[i];
      var j := 0;
      while j < |sorted| && sorted[j].start <= x.start
        invariant j <= |sorted|
        invariant forall t :: 0 <= t < j ==> sorted[t].start <= x.start
      {
        j := j + 1;
      }
      InsertAt(sorted, x, j);
      assert formats[..i + 1][..i] == formats[..i];
      sorted := sorted[..j] + [x] + sorted[j..];
    }
    assert formats[..|formats|] == formats;
  }

  /** Lines 134-146: the bold matches, then the italic matches that the
      neighbour test keeps, in the order `finditer` yields them. */
  method CollectFormats(text: string) returns (formats: seq<Span>)
    ensures formats == SpansOf(FindAll(BoldPattern, text, 0), BoldFormat) + KeptItalics(text, FindAll(ItalicPattern, text, 0))
  {
    var bold := FindAll(BoldPattern, text, 0);
    formats := AppendBold([], bold);
    assert formats == SpansOf(bold, BoldFormat);
    var italic := FindAll(ItalicPattern, text, 0);
    MatchesInText(ItalicPattern, text, 0);
    formats := AppendItalics(text, formats, italic);
  }

  /** Lines 137-138: one bold entry per match, appended in order. */
  method AppendBold(formats: seq<Span>, bold: seq<Match>) returns (r: seq<Span>)
    ensures r == formats + SpansOf(bold, BoldFormat)
  {
    r := formats;
    for i := 0 to |bold|
      invariant r == formats + SpansOf(bold[..i], BoldFormat)
    {
      SpansOfSnoc(bold[..i], bold[i], BoldFormat);
      assert bold[..i + 1] == bold[..i] + [bold[i]];
      r := r + [Span(bold[i].start, bold[i].end, bold[i].content, BoldFormat)];
    }
    assert bold[..|bold|] == bold;
  }

  /** Lines 141-146: the italic entries that the neighbour test keeps,
      appended in order. */
  method AppendItalics(text: string, formats: seq<Span>, italic: seq<Match>) returns (r: seq<Span>)
    requires InText(text, italic)
    ensures r == formats + KeptItalics(text, italic)
  {
    r := formats;
    for i := 0 to |italic|
      invariant r == formats + KeptItalics(text, italic[..i])
    {
      var m := italic[i];
      assert italic[..i + 1][..i] == italic[..i];
      if !BesideBold(text, m) {
        r := r + [Span(m.start, m.end, m.content, ItalicFormat)];
      }
    }
    assert italic[..|italic|] == italic;
  }

  /** One step of the walk from entry `i`: the gap before the entry, if
      any, the entry's own run, and the walk over the entries after it. */
  lemma WalkAt(text: string, spans: seq<Span>, i: nat, lastEnd: nat)
    requires lastEnd <= |text| && SpansInText(text, spans) && i < |spans|
    ensures SpansInText(text, spans[i..]) && SpansInText(text, spans[i + 1..])
    ensures Walk(text, spans[i..], lastEnd) ==
      (if spans[i].start > lastEnd then [Run(text[lastEnd..spans[i].start], Plain)] else []) +
      [Run(spans[i].content, EmphasisOf(spans[i].format))] + Walk(text, spans[i + 1..], spans[i].end)
  {
    assert spans[i..][0] == spans[i];
    assert spans[i..][1..] == spans[i + 1..];
  }

  lemma RunsAssoc(a: seq<Run>, b: seq<Run>, c: seq<Run>)
    ensures a + (b + c) == (a + b) + c
  {
  }

  /** Lines 157-174: the walk over the sorted entries with `last_end`. */
  method EmitRuns(text: string, formats: seq<Span>) returns (runs: seq<Run>)
    requires SpansInText(text, formats)
    ensures runs == Walk(text, formats, 0)
  {
    var lastEnd: nat := 0;
    runs := [];
    assert formats[0..] == formats;
    for i := 0 to |formats|
      invariant lastEnd <= |text|
      invariant SpansInText(text, formats[i..])
      invariant Walk(text, formats, 0) == runs + Walk(text, formats[i..], lastEnd)
    {
      var f := formats[i];
      ghost var before, oldEnd := runs, lastEnd;
      ghost var gap := if f.start > lastEnd then [Run(text[lastEnd..f.start], Plain)] else [];
      WalkAt(text, formats, i, lastEnd);
      if f.start > lastEnd {
        runs := runs + [Run(text[lastEnd..f.start], Plain)];
      }
      runs := runs + [Run(f.content, EmphasisOf(f.format))];
      lastEnd := f.end;
      ghost var rest := Walk(text, formats[i + 1..], lastEnd);
      assert runs == before + (gap + [Run(f.content, EmphasisOf(f.format))]);
      assert Walk(text, formats[i..], oldEnd) == (gap + [Run(f.content, EmphasisOf(f.format))]) + rest;
      RunsAssoc(before, gap + [Run(f.content, EmphasisOf(f.format))], rest);
    }
    if lastEnd < |text| {
      runs := runs + [Run(text[lastEnd..], Plain)];
    }
  }

  /** `process_inline_formatting(paragraph, text)`, returning the runs it
      adds to the paragraph. */
  method ProcessInlineFormatting(text: string) returns (runs: seq<Run>)
    ensures runs == InlineRuns(text)
  {
    var formats := CollectFormats(text);
    formats := SortFormats(formats);
    FormatsInText(text);
    if formats == [] {
      runs := [Run(text, Plain)];
      return;
    }
    runs := EmitRuns(text, formats);
  }

  /** The formatted (bold or italic) runs among `runs`, in order. */
  function FormattedRuns(runs: seq<Run>): seq<Run>
  {
    if runs == [] then []
    else (if runs[0].emphasis == Plain then [] else [runs[0]]) + FormattedRuns(runs[1..])
  }

  lemma {:induction false} FormattedRunsAppend(a: seq<Run>, b: seq<Run>)
    ensures FormattedRuns(a + b) == FormattedRuns(a) + FormattedRuns(b)
  {
    if a == [] {
      assert a + b == b;
    } else {
      assert (a + b)[1..] == a[1..] + b;
      FormattedRunsAppend(a[1..], b);
    }
  }

  /** The run each entry contributes: its content, bold or italic. */
  function ContentRuns(spans: seq<Span>): seq<Run>
  {
    if spans == [] then []
    else [Run(spans[0].content, EmphasisOf(spans[0].format))] + ContentRuns(spans[1..])
  }

  /** The walk emits each entry's content exactly once, in the entries'
      order, and every other run it emits is plain. */
  lemma {:induction false} WalkContentRuns(text: string, spans: seq<Span>, lastEnd: nat)
    requires lastEnd <= |text| && SpansInText(text, spans)
    ensures FormattedRuns(Walk(text, spans, lastEnd)) == ContentRuns(spans)
    decreases |spans|
  {
    if spans != [] {
      var f := spans[0];
      var gap := if f.start > lastEnd then [Run(text[lastEnd..f.start], Plain)] else [];
      var rest := Walk(text, spans[1..], f.end);
      WalkContentRuns(text, spans[1..], f.end);
      FormattedRunsAppend(gap + [Run(f.content, EmphasisOf(f.format))], rest);
      FormattedRunsAppend(gap, [Run(f.content, EmphasisOf(f.format))]);
      assert FormattedRuns(gap) == [];
    }
  }

  /** The formatted runs of `process_inline_formatting` are the contents of
      the sorted entries, one each, in stable start order. */
  lemma InlineContentRuns(text: string)
    ensures FormattedRuns(InlineRuns(text)) == ContentRuns(Formats(text))
  {
    FormatsInText(text);
    if Formats(text) != [] {
      WalkContentRuns(text, Formats(text), 0);
    }
  }

  /** Text with no `*` and no `_` comes back as a single plain run. */
  lemma InlineWithoutMarkers(text: string)
    requires '*' !in text && '_' !in text
    ensures InlineRuns(text) == [Run(text, Plain)]
  {
    NoDelimiterNoMatch(BoldPattern, text, 0);
    NoDelimiterNoMatch(ItalicPattern, text, 0);
    assert SpansOf([], BoldFormat) + KeptItalics(text, []) == [];
  }

  /** One step of the plain text in front of the next entry. */
  lemma WalkShift(text: string, spans: seq<Span>, p: nat)
    requires p < |text| && SpansInText(text, spans)
    requires spans != [] ==> p < spans[0].start
    ensures Text(Walk(text, spans, p)) == [text[p]] + Text(Walk(text, spans, p + 1))
  {
    if spans == [] {
      WalkShiftTail(text, p);
    } else {
      WalkShiftGap(text, spans, p);
    }
  }

  lemma WalkShiftTail(text: string, p: nat)
    requires p < |text|
    ensures Text(Walk(text, [], p)) == [text[p]] + Text(Walk(text, [], p + 1))
  {
    assert text[p..] == [text[p]] + text[p + 1..];
    assert Text([Run(text[p..], Plain)]) == text[p..];
    if p + 1 < |text| {
      assert Text([Run(text[p + 1..], Plain)]) == text[p + 1..];
    }
  }

  lemma WalkShiftGap(text: string, spans: seq<Span>, p: nat)
    requires p < |text| && SpansInText(text, spans)
    requires spans != [] && p < spans[0].start
    ensures Text(Walk(text, spans, p)) == [text[p]] + Text(Walk(text, spans, p + 1))
  {
    var f := spans[0];
    var tail := [Run(f.content, EmphasisOf(f.format))] + Walk(text, spans[1..], f.end);
    var gap1 := if f.start > p + 1 then [Run(text[p + 1..f.start], Plain)] else [];
    TextAppend([Run(text[p..f.start], Plain)], tail);
    TextAppend(gap1, tail);
    assert Text([Run(text[p..f.start], Plain)]) == text[p..f.start];
    assert text[p..f.start] == [text[p]] + text[p + 1..f.start];
    if f.start > p + 1 {
      assert Text(gap1) == text[p + 1..f.start];
    }
    assert Walk(text, spans, p) == [Run(text[p..f.start], Plain)] + tail;
    assert Walk(text, spans, p + 1) == gap1 + tail;
  }

  lemma SpansOfInText(pat: Pattern, s: string, p: nat, f: Format)
    requires p <= |s|
    ensures SpansInText(s, SpansOf(FindAll(pat, s, p), f))
  {
    var ms := FindAll(pat, s, p);
    forall i | 0 <= i < |ms| ensures ms[i].start <= |s| && ms[i].end <= |s| {
      assert Sound(pat, s, ms[i]);
    }
  }

  /** For the successive matches of one pattern, the walk spells out the
      text with every match replaced by its content: for the bold pattern
      that is exactly the line normalisation `re.sub(r'\*\*(.*?)\*\*', r'\1', s)`. */
  lemma {:induction false} WalkSpellsSub(pat: Pattern, s: string, p: nat, f: Format)
    requires p <= |s|
    ensures SpansInText(s, SpansOf(FindAll(pat, s, p), f))
    ensures Text(Walk(s, SpansOf(FindAll(pat, s, p), f), p)) == Sub(pat, s, p)
    decreases |s| - p
  {
    SpansOfInText(pat, s, p, f);
    if p < |s| {
      var spans := SpansOf(FindAll(pat, s, p), f);
      match MatchAt(pat, s, p)
      case Some(m) =>
        WalkSpellsSubMatch(pat, s, p, f, m);
      case None =>
        assert FindAll(pat, s, p) == FindAll(pat, s, p + 1);
        WalkSpellsSub(pat, s, p + 1, f);
        WalkShift(s, spans, p);
    }
  }

  lemma {:induction false} WalkSpellsSubMatch(pat: Pattern, s: string, p: nat, f: Format, m: Match)
    requires p < |s| && MatchAt(pat, s, p) == Some(m)
    requires SpansInText(s, SpansOf(FindAll(pat, s, p), f))
    ensures Text(Walk(s, SpansOf(FindAll(pat, s, p), f), p)) == Sub(pat, s, p)
    decreases |s| - p, 0
  {
    var ms := FindAll(pat, s, m.end);
    var spans := SpansOf(FindAll(pat, s, p), f);
    SpansOfFirstMatch(pat, s, p, f, m);
    WalkSpellsSub(pat, s, m.end, f);
    var run := Run(m.content, EmphasisOf(f));
    var rest := Walk(s, SpansOf(ms, f), m.end);
    WalkHead(s, spans, p);
    assert Walk(s, spans, p) == [run] + rest;
    TextAppend([run], rest);
    assert Text([run]) == m.content;
  }

  /** When a match begins at `p`, it is the first entry of the search from `p`. */
  lemma SpansOfFirstMatch(pat: Pattern, s: string, p: nat, f: Format, m: Match)
    requires p < |s| && MatchAt(pat, s, p) == Some(m)
    ensures m.end <= |s|
    ensures SpansOf(FindAll(pat, s, p), f) != []
    ensures SpansOf(FindAll(pat, s, p), f)[0] == SpanOf(m, f)
    ensures SpansOf(FindAll(pat, s, p), f)[1..] == SpansOf(FindAll(pat, s, m.end), f)
    ensures Sub(pat, s, p) == m.content + Sub(pat, s, m.end)
  {
    var ms := FindAll(pat, s, m.end);
    FindAllAt(pat, s, p, m);
    var spans := SpansOf([m] + ms, f);
    assert spans[0] == SpanOf(m, f);
    assert spans[1..] == SpansOf(ms, f);
  }

  /** The walk over entries whose first one starts at `last_end`: no gap. */
  lemma WalkHead(text: string, spans: seq<Span>, lastEnd: nat)
    requires lastEnd <= |text| && SpansInText(text, spans) && spans != [] && spans[0].start == lastEnd
    ensures Walk(text, spans, lastEnd) ==
      [Run(spans[0].content, EmphasisOf(spans[0].format))] + Walk(text, spans[1..], spans[0].end)
  {
  }

  /** With no `**…**` match, an italic match is never dropped by the
      neighbour test: a `*…*` match with a `*` on each side would itself
      lie inside a bold match. */
  lemma NoBoldKeepsItalic(text: string, m: Match)
    requires Sound(ItalicPattern, text, m)
    requires FindAll(BoldPattern, text, 0) == []
    ensures !BesideBold(text, m)
  {
    if BesideBold(text, m) {
      var b := m.start - 1;
      assert DelimiterAt(BoldPattern, text, b);
      assert forall j :: m.start + 1 <= j < m.end - 1 ==> text[j] == m.content[j - m.start - 1];
      CloseFromFinds(BoldPattern, text, b + 2, m.end - 1);
      NoMatchAnywhere(BoldPattern, text, 0, b);
      assert false;
    }
  }

  lemma {:induction false} KeptAllItalics(text: string, ms: seq<Match>)
    requires InText(text, ms)
    requires forall i :: 0 <= i < |ms| ==> !BesideBold(text, ms[i])
    ensures KeptItalics(text, ms) == SpansOf(ms, ItalicFormat)
  {
    if ms != [] {
      KeptAllItalics(text, ms[..|ms| - 1]);
    }
  }

  /** Text that holds italic markup only: the runs spell out the text with
      each `*…*` or `_…_` match replaced by its content. */
  lemma InlineItalicOnly(text: string)
    requires FindAll(BoldPattern, text, 0) == []
    ensures Text(InlineRuns(text)) == Sub(ItalicPattern, text, 0)
  {
    var spans := ItalicOnlyFormats(text);
    if spans == [] {
      NoMatchSubUnchanged(ItalicPattern, text, 0);
      assert Text([Run(text, Plain)]) == text;
    } else {
      WalkSpellsSub(ItalicPattern, text, 0, ItalicFormat);
    }
  }

  /** With no bold match, the sorted entries are the italic matches in
      `finditer` order. */
  lemma ItalicOnlyFormats(text: string) returns (spans: seq<Span>)
    requires FindAll(BoldPattern, text, 0) == []
    ensures spans == SpansOf(FindAll(ItalicPattern, text, 0), ItalicFormat)
    ensures Formats(text) == spans
  {
    var italic := FindAll(ItalicPattern, text, 0);
    forall i | 0 <= i < |italic| ensures !BesideBold(text, italic[i]) {
      NoBoldKeepsItalic(text, italic[i]);
    }
    SpansOfInText(ItalicPattern, text, 0, ItalicFormat);
    KeptAllItalics(text, italic);
    spans := SpansOf(italic, ItalicFormat);
    assert SpansOf([], BoldFormat) + spans == spans;
    assert SortedByStart(spans) by {
      forall i, j | 0 <= i < j < |spans| ensures spans[i].start <= spans[j].start {
        MatchesIncrease(ItalicPattern, text, italic, i, j);
      }
    }
    SortByStartOfSorted(spans);
  }

  /** `finditer`'s matches come in increasing start order. */
  lemma {:induction false} MatchesIncrease(pat: Pattern, text: string, ms: seq<Match>, i: nat, j: nat)
    requires ms == FindAll(pat, text, 0)
    requires i < j < |ms|
    ensures ms[i].start < ms[j].start
    decreases j - i
  {
    assert Sound(pat, text, ms[j - 1]);
    if i < j - 1 {
      MatchesIncrease(pat, text, ms, i, j - 1);
    }
  }

  /** `**a**` also holds the italic matches `**` at 0 and at 3, which the
      neighbour test keeps: the walk emits the bold `a`, then an empty
      italic run, the `a` again as plain text, and a second empty italic run. */
  lemma BoldTextOverlaps(t: string)
    requires t == "**a**"
    ensures InlineRuns(t) == [Run("a", Bold), Run("", Italic), Run("a", Plain), Run("", Italic)]
  {
    ExampleFormats(t);
    ExampleWalk(t);
  }

  lemma ExampleWalk(t: string)
    requires t == "**a**"
    ensures Walk(t, [Span(0, 5, "a", BoldFormat), Span(0, 2, "", ItalicFormat), Span(3, 5, "", ItalicFormat)], 0)
              == [Run("a", Bold), Run("", Italic), Run("a", Plain), Run("", Italic)]
  {
    var b := Span(0, 5, "a", BoldFormat);
    var i1 := Span(0, 2, "", ItalicFormat);
    var i2 := Span(3, 5, "", ItalicFormat);
    ExampleWalkTail(t);
    assert Walk(t, [i1, i2], 5) == [Run("", Italic)] + Walk(t, [i2], 2) by {
      assert [i1, i2][1..] == [i2];
    }
    assert Walk(t, [b, i1, i2], 0) == [Run("a", Bold)] + Walk(t, [i1, i2], 5) by {
      assert [b, i1, i2][1..] == [i1, i2];
    }
  }

  lemma ExampleWalkTail(t: string)
    requires t == "**a**"
    ensures Walk(t, [Span(3, 5, "", ItalicFormat)], 2) == [Run("a", Plain), Run("", Italic)]
  {
    assert t[2..3] == "a";
  }

  lemma ExampleFormats(t: string)
    requires t == "**a**"
    ensures Formats(t) == [Span(0, 5, "a", BoldFormat), Span(0, 2, "", ItalicFormat), Span(3, 5, "", ItalicFormat)]
  {
    ExampleBoldSpans(t);
    ExampleKeptItalics(t);
    ExampleSorted();
    assert [Span(0, 5, "a", BoldFormat)] + [Span(0, 2, "", ItalicFormat), Span(3, 5, "", ItalicFormat)]
      == [Span(0, 5, "a", BoldFormat), Span(0, 2, "", ItalicFormat), Span(3, 5, "", ItalicFormat)];
  }

  lemma ExampleSorted()
    ensures SortByStart([Span(0, 5, "a", BoldFormat), Span(0, 2, "", ItalicFormat), Span(3, 5, "", ItalicFormat)])
      == [Span(0, 5, "a", BoldFormat), Span(0, 2, "", ItalicFormat), Span(3, 5, "", ItalicFormat)]
  {
    var s := [Span(0, 5, "a", BoldFormat), Span(0, 2, "", ItalicFormat), Span(3, 5, "", ItalicFormat)];
    assert SortedByStart(s);
    SortByStartOfSorted(s);
  }

  lemma ExampleBoldSpans(t: string)
    requires t == "**a**"
    ensures SpansOf(FindAll(BoldPattern, t, 0), BoldFormat) == [Span(0, 5, "a", BoldFormat)]
  {
    ExampleBoldMatches(t);
  }

  lemma ExampleKeptItalics(t: string)
    requires t == "**a**"
    ensures KeptItalics(t, FindAll(ItalicPattern, t, 0)) == [Span(0, 2, "", ItalicFormat), Span(3, 5, "", ItalicFormat)]
  {
    ExampleItalicMatches(t);
    var im := [Match(0, 2, '*', "", '*'), Match(3, 5, '*', "", '*')];
    assert !BesideBold(t, im[0]) && !BesideBold(t, im[1]);
    assert im[..1] == [im[0]];
    assert KeptItalics(t, im[..1]) == [Span(0, 2, "", ItalicFormat)];
  }

  lemma ExampleBoldMatches(t: string)
    requires t == "**a**"
    ensures FindAll(BoldPattern, t, 0) == [Match(0, 5, '*', "a", '*')]
  {
    assert CloseFrom(BoldPattern, t, 3) == Some(3);
    assert CloseFrom(BoldPattern, t, 2) == Some(3);
    assert t[2..3] == "a";
    assert MatchAt(BoldPattern, t, 0) == Some(Match(0, 5, '*', "a", '*'));
    assert FindAll(BoldPattern, t, 5) == [];
  }

  lemma ExampleItalicMatches(t: string)
    requires t == "**a**"
    ensures FindAll(ItalicPattern, t, 0) == [Match(0, 2, '*', "", '*'), Match(3, 5, '*', "", '*')]
  {
    ExampleItalicAt(t, 0);
    ExampleItalicFrom2(t);
    assert FindAll(ItalicPattern, t, 0) == [Match(0, 2, '*', "", '*')] + FindAll(ItalicPattern, t, 2);
  }

  lemma ExampleItalicFrom2(t: string)
    requires t == "**a**"
    ensures FindAll(ItalicPattern, t, 2) == [Match(3, 5, '*', "", '*')]
  {
    assert !DelimiterAt(ItalicPattern, t, 2);
    assert FindAll(ItalicPattern, t, 2) == FindAll(ItalicPattern, t, 3);
    ExampleItalicAt(t, 3);
    assert FindAll(ItalicPattern, t, 5) == [];
  }

  /** The italic match at 0 and at 3: a `*` opens, the next `*` closes, and
      the lazy group between them is empty. */
  lemma ExampleItalicAt(t: string, p: nat)
    requires t == "**a**" && (p == 0 || p == 3)
    ensures MatchAt(ItalicPattern, t, p) == Some(Match(p, p + 2, '*', "", '*'))
  {
    assert DelimiterAt(ItalicPattern, t, p) && DelimiterAt(ItalicPattern, t, p + 1);
    assert CloseFrom(ItalicPattern, t, p + 1) == Some(p + 1);
    assert t[p + 1..p + 1] == [];
  }
}
