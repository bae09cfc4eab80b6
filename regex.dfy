/**
 The two regular expressions of the converter, written as left-to-right
 scanners with Python's `re` semantics:

   - `\*\*(.*?)\*\*`    (the bold pattern, used by `re.sub` and `finditer`)
   - `(\*|_)(.*?)(\*|_)` (the italic pattern, used by `finditer`)

 A search tries each position in turn. At a position where an opening
 delimiter stands, the lazy `(.*?)` takes the shortest content that is
 followed by a closing delimiter; `.` does not match a newline, so the
 content never crosses one. After a match the search resumes at the match's
 end, otherwise one position further on.
 */
module Regex {
  import opened Optional

  datatype Pattern = BoldPattern | ItalicPattern

  /** One match: the span `[start, end)`, the first character of the opening
      delimiter (group 1 of the italic pattern), the lazy group, and the last
      character of the closing delimiter (group 3 of the italic pattern). */
  datatype Match = Match(start: nat, end: nat, open: char, content: string, close: char)

  /** The length of one delimiter: `**` or one of `*` and `_`. */
  function Width(pat: Pattern): nat
  {
    if pat == BoldPattern then 2 else 1
  }

  /** A delimiter of `pat` stands at position `k` of `s`. */
  predicate DelimiterAt(pat: Pattern, s: string, k: nat)
  {
    match pat
    case BoldPattern => k + 1 < |s| && s[k] == '*' && s[k + 1] == '*'
    case ItalicPattern => k < |s| && (s[k] == '*' || s[k] == '_')
  }

  /** What every match of `pat` in `s` satisfies: delimiters at both ends,
      the content is the text between them, it holds no newline, and no
      delimiter starts inside it (the group is lazy). */
  predicate Sound(pat: Pattern, s: string, m: Match)
  {
    var w := Width(pat);
    m.start + 2 * w <= m.end <= |s| &&
    DelimiterAt(pat, s, m.start) && DelimiterAt(pat, s, m.end - w) &&
    m.open == s[m.start] && m.close == s[m.end - 1] &&
    m.content == s[m.start + w..m.end - w] &&
    '\n' !in m.content &&
    forall j :: m.start + w <= j < m.end - w ==> !DelimiterAt(pat, s, j)
  }

  /** Where the lazy group starting at `k` stops: the first closing
      delimiter, provided no newline comes before it. */
  function CloseFrom(pat: Pattern, s: string, k: nat): (r: Option<nat>)
    ensures r.Some? ==> k <= r.value && r.value + Width(pat) <= |s| && DelimiterAt(pat, s, r.value)
    ensures r.Some? ==> forall j :: k <= j < r.value ==> !DelimiterAt(pat, s, j) && s[j] != '\n'
    decreases |s| - k
  {
    if k >= |s| then None
    else if DelimiterAt(pat, s, k) then Some(k)
    else if s[k] == '\n' then None
    else CloseFrom(pat, s, k + 1)
  }

  /** The match of `pat` that begins exactly at position `p`, if any. */
  function MatchAt(pat: Pattern, s: string, p: nat): (r: Option<Match>)
    ensures r.Some? ==> r.value.start == p && Sound(pat, s, r.value)
  {
    var w := Width(pat);
    if !DelimiterAt(pat, s, p) then None
    else
      match CloseFrom(pat, s, p + w)
      case None => None
      case Some(k) =>
        var m := Match(p, k + w, s[p], s[p + w..k], s[k + w - 1]);
        assert forall j :: p + w <= j < k ==> s[j] != '\n';
        assert forall j :: 0 <= j < |m.content| ==> m.content[j] == s[p + w + j];
        Some(m)
  }

  /** No position in `[a, b)` begins a match of `pat`. */
  predicate NoMatchIn(pat: Pattern, s: string, a: nat, b: nat)
  {
    forall q :: a <= q < b ==> MatchAt(pat, s, q).None?
  }

  /** `ms` leaves out no match of `pat` from `p` on: each of its matches is
      the match that begins at its start, and no position before the first
      match, between two matches or after the last one begins a match. */
  predicate Complete(pat: Pattern, s: string, p: nat, ms: seq<Match>)
  {
    (forall i :: 0 <= i < |ms| ==> MatchAt(pat, s, ms[i].start) == Some(ms[i])) &&
    (ms == [] ==> NoMatchIn(pat, s, p, |s|)) &&
    (ms != [] ==> NoMatchIn(pat, s, p, ms[0].start) && NoMatchIn(pat, s, ms[|ms| - 1].end, |s|)) &&
    (forall i :: 0 < i < |ms| ==> NoMatchIn(pat, s, ms[i - 1].end, ms[i].start))
  }

  /** `pattern.finditer(s, p)`: the successive non-overlapping matches from
      position `p` on, in increasing order, none of them skipped. */
  function FindAll(pat: Pattern, s: string, p: nat): (ms: seq<Match>)
    requires p <= |s|
    ensures forall i :: 0 <= i < |ms| ==> Sound(pat, s, ms[i]) && p <= ms[i].start
    ensures forall i :: 0 < i < |ms| ==> ms[i - 1].end <= ms[i].start
    ensures Complete(pat, s, p, ms)
    decreases |s| - p
  {
    if p == |s| then []
    else
      match MatchAt(pat, s, p)
      case Some(m) =>
        var rest := FindAll(pat, s, m.end);
        CompleteCons(pat, s, m, rest);
        [m] + rest
      case None =>
        var rest := FindAll(pat, s, p + 1);
        CompleteSkip(pat, s, p, rest);
        rest
  }

  /** A match at `p` is the first one the search and the substitution meet. */
  lemma FindAllAt(pat: Pattern, s: string, p: nat, m: Match)
    requires p < |s| && MatchAt(pat, s, p) == Some(m)
    ensures m.end <= |s|
    ensures FindAll(pat, s, p) == [m] + FindAll(pat, s, m.end)
    ensures Sub(pat, s, p) == m.content + Sub(pat, s, m.end)
  {
  }

  lemma CompleteCons(pat: Pattern, s: string, m: Match, rest: seq<Match>)
    requires MatchAt(pat, s, m.start) == Some(m)
    requires m.end <= |s| && Complete(pat, s, m.end, rest)
    ensures Complete(pat, s, m.start, [m] + rest)
  {
    var ms := [m] + rest;
    forall i | 0 < i < |ms|
      ensures NoMatchIn(pat, s, ms[i - 1].end, ms[i].start)
    {
      if i > 1 {
        assert ms[i - 1] == rest[i - 2] && ms[i] == rest[i - 1];
      }
    }
    if rest == [] {
      assert ms[|ms| - 1] == m;
    } else {
      assert ms[|ms| - 1] == rest[|rest| - 1];
    }
  }

  lemma CompleteSkip(pat: Pattern, s: string, p: nat, rest: seq<Match>)
    requires p < |s| && MatchAt(pat, s, p).None?
    requires Complete(pat, s, p + 1, rest)
    ensures Complete(pat, s, p, rest)
  {
  }

  /** `re.sub(pattern, r'\1', s[p:])` for the bold pattern, and the same
      substitution of the lazy group for the italic pattern: every match is
      replaced by its content, every other character is kept. */
  function Sub(pat: Pattern, s: string, p: nat): (r: string)
    requires p <= |s|
    ensures |r| <= |s| - p
    decreases |s| - p
  {
    if p == |s| then []
    else
      match MatchAt(pat, s, p)
      case Some(m) => m.content + Sub(pat, s, m.end)
      case None => [s[p]] + Sub(pat, s, p + 1)
  }

  /** Text in which no delimiter of `pat` stands has no match and is left
      unchanged by the substitution. */
  lemma {:induction false} NoDelimiterNoMatch(pat: Pattern, s: string, p: nat)
    requires p <= |s|
    requires forall q :: p <= q < |s| ==> !DelimiterAt(pat, s, q)
    ensures FindAll(pat, s, p) == []
    ensures Sub(pat, s, p) == s[p..]
    decreases |s| - p
  {
    if p < |s| {
      assert MatchAt(pat, s, p).None?;
      NoDelimiterNoMatch(pat, s, p + 1);
      assert s[p..] == [s[p]] + s[p + 1..];
    }
  }

  /** If a closing delimiter stands at `c` and no newline lies between `k`
      and `c`, the lazy group from `k` stops at `c` or earlier. */
  lemma {:induction false} CloseFromFinds(pat: Pattern, s: string, k: nat, c: nat)
    requires k <= c && DelimiterAt(pat, s, c)
    requires forall j :: k <= j < c ==> s[j] != '\n'
    ensures CloseFrom(pat, s, k).Some? && CloseFrom(pat, s, k).value <= c
    decreases c - k
  {
    if k < c && !DelimiterAt(pat, s, k) {
      CloseFromFinds(pat, s, k + 1, c);
    }
  }

  /** When the search from `p` finds nothing, no position from `p` on
      begins a match. */
  lemma {:induction false} NoMatchAnywhere(pat: Pattern, s: string, p: nat, q: nat)
    requires p <= q < |s|
    requires FindAll(pat, s, p) == []
    ensures MatchAt(pat, s, q).None?
    decreases q - p
  {
    assert MatchAt(pat, s, p).None?;
    if p < q {
      NoMatchAnywhere(pat, s, p + 1, q);
    }
  }

  /** When the search finds nothing, the substitution changes nothing. */
  lemma {:induction false} NoMatchSubUnchanged(pat: Pattern, s: string, p: nat)
    requires p <= |s|
    requires FindAll(pat, s, p) == []
    ensures Sub(pat, s, p) == s[p..]
    decreases |s| - p
  {
    if p < |s| {
      assert MatchAt(pat, s, p).None?;
      NoMatchSubUnchanged(pat, s, p + 1);
      assert s[p..] == [s[p]] + s[p + 1..];
    }
  }

  /** The substitution only keeps characters of the text: every character
      of the result occurs at or after `p`. */
  lemma {:induction false} SubKeepsCharacters(pat: Pattern, s: string, p: nat)
    requires p <= |s|
    ensures forall c :: c in Sub(pat, s, p) ==> c in s[p..]
    decreases |s| - p
  {
    if p < |s| {
      match MatchAt(pat, s, p)
      case Some(m) =>
        SubKeepsCharacters(pat, s, m.end);
        SliceWithin(s, p, m.start + Width(pat), m.end - Width(pat));
        SliceWithin(s, p, m.end, |s|);
        assert s[m.end..|s|] == s[m.end..];
      case None =>
        SubKeepsCharacters(pat, s, p + 1);
        assert s[p..] == [s[p]] + s[p + 1..];
    }
  }

  lemma SliceWithin(s: string, p: nat, i: nat, j: nat)
    requires p <= i <= j <= |s|
    ensures forall c :: c in s[i..j] ==> c in s[p..]
  {
    forall c | c in s[i..j]
      ensures c in s[p..]
    {
      var k :| i <= k < j && s[k] == c;
      assert s[p..][k - p] == c;
    }
  }
}
