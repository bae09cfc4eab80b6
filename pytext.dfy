/**
 The subset of Python's `str` semantics that the converter relies on:
 `strip()`, `lstrip(chars)`, `split(sep)`, `split(sep, 1)`, `sep.join(...)`,
 the substring operator `in`, and the case functions `isupper()`, `lower()`
 and `upper()`.

 Case is modelled over a restricted alphabet: the ASCII letters plus the
 accented letters that occur in the converter's keywords (ê, ç, õ and their
 capitals). Every other character is uncased.
 */
module PyText {

  /** The characters for which Python's `str.isspace()` is true. */
  predicate IsSpace(c: char)
  {
    ('\U{9}' <= c <= '\U{D}') || ('\U{1C}' <= c <= '\U{20}') ||
    c == '\U{85}' || c == '\U{A0}' || c == '\U{1680}' ||
    ('\U{2000}' <= c <= '\U{200A}') || c == '\U{2028}' || c == '\U{2029}' ||
    c == '\U{202F}' || c == '\U{205F}' || c == '\U{3000}'
  }

  /** `s.lstrip()`: drop the leading whitespace. */
  function LStrip(s: string): (r: string)
    ensures |r| <= |s| && r == s[|s| - |r|..]
    ensures forall i :: 0 <= i < |s| - |r| ==> IsSpace(s[i])
    ensures r == [] || !IsSpace(r[0])
  {
    if s != [] && IsSpace(s[0]) then LStrip(s[1..]) else s
  }

  /** `s.rstrip()`: drop the trailing whitespace. */
  function RStrip(s: string): (r: string)
    ensures |r| <= |s| && r == s[..|r|]
    ensures forall i :: |r| <= i < |s| ==> IsSpace(s[i])
    ensures r == [] || !IsSpace(r[|r| - 1])
  {
    if s != [] && IsSpace(s[|s| - 1]) then RStrip(s[..|s| - 1]) else s
  }

  /** `s.strip()`: the text between the leading and the trailing whitespace;
      it is empty exactly when `s` is blank. The result is one slice of `s`,
      and everything outside it is white space. */
  function Strip(s: string): (r: string)
    ensures |r| <= |s|
    ensures var a := |s| - |LStrip(s)|;
            a + |r| <= |s| && r == s[a..a + |r|] &&
            (forall i :: 0 <= i < a ==> IsSpace(s[i])) &&
            (forall i :: a + |r| <= i < |s| ==> IsSpace(s[i]))
    ensures r == [] <==> forall i :: 0 <= i < |s| ==> IsSpace(s[i])
    ensures r == [] || (!IsSpace(r[0]) && !IsSpace(r[|r| - 1]))
    ensures forall c :: c in r ==> c in s
  {
    var l := LStrip(s);
    var r := RStrip(l);
    assert r == [] ==> l == [];
    r
  }

  /** `s.lstrip(chars)`: drop the leading characters that belong to `chars`. */
  function LStripChars(s: string, chars: set<char>): (r: string)
    ensures |r| <= |s| && r == s[|s| - |r|..]
    ensures forall i :: 0 <= i < |s| - |r| ==> s[i] in chars
    ensures r == [] || r[0] !in chars
    ensures forall c :: c in r ==> c in s
  {
    if s != [] && s[0] in chars then LStripChars(s[1..], chars) else s
  }

  /** The index of the first occurrence of `c` in `s`. */
  function IndexOf(s: string, c: char): (i: nat)
    requires c in s
    ensures i < |s| && s[i] == c && c !in s[..i]
  {
    if s[0] == c then 0 else 1 + IndexOf(s[1..], c)
  }

  /** `s.split(c, 1)`: one part when `c` does not occur, otherwise the text
      before and the text after its first occurrence. */
  function SplitFirst(s: string, c: char): (parts: seq<string>)
    ensures |parts| == if c in s then 2 else 1
    ensures c !in parts[0]
    ensures |parts| == 1 ==> parts[0] == s
    ensures |parts| == 2 ==> s == parts[0] + [c] + parts[1]
  {
    if c !in s then [s]
    else
      var i := IndexOf(s, c);
      assert s == s[..i] + [c] + s[i + 1..];
      [s[..i], s[i + 1..]]
  }

  /** Both parts of `s.split(c, 1)` only hold characters of `s`. */
  lemma SplitFirstKeepsCharacters(s: string, c: char)
    ensures forall i, x :: 0 <= i < |SplitFirst(s, c)| && x in SplitFirst(s, c)[i] ==> x in s
  {
    var parts := SplitFirst(s, c);
    if |parts| == 2 {
      forall x | x in parts[0] ensures x in s {
        var k :| 0 <= k < |parts[0]| && parts[0][k] == x;
        assert s[k] == x;
      }
      forall x | x in parts[1] ensures x in s {
        var k :| 0 <= k < |parts[1]| && parts[1][k] == x;
        assert s[|parts[0]| + 1 + k] == x;
      }
    }
  }

  /** `sep.join(parts)` for a one-character separator. */
  function Join(parts: seq<string>, sep: char): string
  {
    if parts == [] then []
    else if |parts| == 1 then parts[0]
    else parts[0] + [sep] + Join(parts[1..], sep)
  }

  /** `s.split(sep)` for a one-character separator: the pieces between the
      separators, never an empty list, and joining them gives `s` back. */
  function Split(s: string, sep: char): (parts: seq<string>)
    ensures |parts| >= 1
    ensures forall i :: 0 <= i < |parts| ==> sep !in parts[i]
    ensures Join(parts, sep) == s
    decreases |s|
  {
    if sep !in s then [s]
    else
      var i := IndexOf(s, sep);
      assert s == s[..i] + [sep] + s[i + 1..];
      [s[..i]] + Split(s[i + 1..], sep)
  }

  /** Joining pieces that do not contain the separator and splitting the
      result again gives the same pieces (a non-empty list is needed, since
      Python's `''.split(sep)` is `['']`, not `[]`). */
  lemma {:induction false} SplitJoin(parts: seq<string>, sep: char)
    requires |parts| >= 1
    requires forall i :: 0 <= i < |parts| ==> sep !in parts[i]
    ensures Split(Join(parts, sep), sep) == parts
    decreases |parts|
  {
    if |parts| == 1 {
      assert sep !in parts[0];
    } else {
      var s := Join(parts, sep);
      var tail := Join(parts[1..], sep);
      assert s == parts[0] + [sep] + tail;
      IndexAfterPrefix(parts[0], sep, tail);
      SplitJoin(parts[1..], sep);
      assert Split(s, sep) == [parts[0]] + Split(tail, sep);
      assert parts == [parts[0]] + parts[1..];
    }
  }

  /** In `a + [c] + b` with no `c` in `a`, the first `c` is the one after
      `a`. */
  lemma {:induction false} IndexAfterPrefix(a: string, c: char, b: string)
    requires c !in a
    ensures c in a + [c] + b
    ensures IndexOf(a + [c] + b, c) == |a|
    ensures (a + [c] + b)[..|a|] == a && (a + [c] + b)[|a| + 1..] == b
  {
    var s := a + [c] + b;
    assert s[|a|] == c;
    if a != [] {
      assert s[1..] == a[1..] + [c] + b;
      IndexAfterPrefix(a[1..], c, b);
    }
  }

  /** Python's `sub in s` for strings. */
  predicate Contains(s: string, sub: string)
    ensures Contains(s, sub) ==> |sub| <= |s|
    decreases |s|
  {
    sub <= s || (s != [] && Contains(s[1..], sub))
  }

  const LowerAccents: set<char> := {'\U{EA}', '\U{E7}', '\U{F5}'}  // ê ç õ
  const UpperAccents: set<char> := {'\U{CA}', '\U{C7}', '\U{D5}'}  // Ê Ç Õ

  predicate IsLowerChar(c: char)
  {
    ('a' <= c <= 'z') || c in LowerAccents
  }

  predicate IsUpperChar(c: char)
  {
    ('A' <= c <= 'Z') || c in UpperAccents
  }

  predicate IsCased(c: char)
  {
    IsLowerChar(c) || IsUpperChar(c)
  }

  /** Each cased letter of the alphabet and its partner are 32 code points
      apart, for the ASCII letters and for the three accented pairs alike. */
  function ToUpperChar(c: char): (u: char)
    ensures !IsLowerChar(u)
    ensures IsCased(c) <==> IsCased(u)
  {
    if IsLowerChar(c) then (c as int - 32) as char else c
  }

  function ToLowerChar(c: char): (l: char)
    ensures !IsUpperChar(l)
    ensures IsCased(c) <==> IsCased(l)
  {
    if IsUpperChar(c) then (c as int + 32) as char else c
  }

  /** Python's `s.isupper()`: at least one cased character, and every cased
      character is upper-case. */
  predicate IsUpper(s: string)
  {
    (exists i :: 0 <= i < |s| && IsCased(s[i])) &&
    (forall i :: 0 <= i < |s| && IsCased(s[i]) ==> IsUpperChar(s[i]))
  }

  /** `s.upper()`: same length, each lower-case letter becomes its capital,
      every other character is kept, and no lower-case letter is left. */
  function Upper(s: string): (r: string)
    ensures |r| == |s|
    ensures forall i :: 0 <= i < |r| ==> !IsLowerChar(r[i])
    ensures forall i :: 0 <= i < |s| && IsLowerChar(s[i]) ==> IsUpperChar(r[i]) && ToLowerChar(r[i]) == s[i]
    ensures forall i :: 0 <= i < |s| && !IsLowerChar(s[i]) ==> r[i] == s[i]
  {
    seq(|s|, i requires 0 <= i < |s| => ToUpperChar(s[i]))
  }

  /** `s.lower()`: same length, each capital becomes its lower-case letter,
      every other character is kept, and no upper-case letter is left. */
  function Lower(s: string): (r: string)
    ensures |r| == |s|
    ensures forall i :: 0 <= i < |r| ==> !IsUpperChar(r[i])
    ensures forall i :: 0 <= i < |s| && IsUpperChar(s[i]) ==> IsLowerChar(r[i]) && ToUpperChar(r[i]) == s[i]
    ensures forall i :: 0 <= i < |s| && !IsUpperChar(s[i]) ==> r[i] == s[i]
  {
    seq(|s|, i requires 0 <= i < |s| => ToLowerChar(s[i]))
  }

  /** A string made only of uncased characters is never `isupper()`. */
  lemma UncasedNotUpper(s: string)
    requires forall i :: 0 <= i < |s| ==> !IsCased(s[i])
    ensures !IsUpper(s)
  {
  }
}
