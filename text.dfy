/** Python `str` operations that the mirroring engine relies on, written out
    over `seq<char>`: strip, split, join, replace, find, lower-casing and
    decimal formatting. Each keeps Python's behaviour on the edge cases the
    engine can meet (an empty separator piece, an empty pattern for
    `replace`, a string made only of whitespace). */
module Text {

  datatype Option<+T> = None | Some(value: T)

  /** The characters `str.isspace()` accepts and `str.split()` / `str.strip()`
      cut on. */
  const Whitespace: set<char> :=
    {' ', '\t', '\n', '\r', '\U{0B}', '\U{0C}', '\U{1C}', '\U{1D}', '\U{1E}', '\U{1F}',
     '\U{85}', '\U{A0}', '\U{1680}', '\U{2000}', '\U{2001}', '\U{2002}', '\U{2003}',
     '\U{2004}', '\U{2005}', '\U{2006}', '\U{2007}', '\U{2008}', '\U{2009}', '\U{200A}',
     '\U{2028}', '\U{2029}', '\U{202F}', '\U{205F}', '\U{3000}'}

  predicate IsSpace(c: char) { c in Whitespace }

  predicate StartsWith(s: string, prefix: string) {
    |prefix| <= |s| && s[..|prefix|] == prefix
  }

  predicate EndsWith(s: string, suffix: string) {
    |suffix| <= |s| && s[|s| - |suffix|..] == suffix
  }

  /** `sub in s` for strings. */
  predicate Contains(s: string, sub: string) {
    exists i | 0 <= i <= |s| :: OccursAt(s, sub, i)
  }

  /** `sub` occurs in `s` starting at index `i`. */
  predicate OccursAt(s: string, sub: string, i: int) {
    0 <= i <= |s| - |sub| && s[i..i + |sub|] == sub
  }

  /** ASCII `str.lower()`. */
  function LowerChar(c: char): char {
    if 'A' <= c <= 'Z' then (c as int + 32) as char else c
  }

  function Lower(s: string): (r: string)
    ensures |r| == |s|
    ensures forall i :: 0 <= i < |s| ==> r[i] == LowerChar(s[i])
  {
    if s == [] then [] else [LowerChar(s[0])] + Lower(s[1..])
  }

  predicate IsUpper(c: char) { 'A' <= c <= 'Z' }

  predicate NoUpper(s: string) {
    forall i :: 0 <= i < |s| ==> !IsUpper(s[i])
  }

  /** `s.lstrip(chars)`. */
  function TrimLeft(s: string, cs: set<char>): (r: string)
    ensures |r| <= |s| && r == s[|s| - |r|..]
    ensures r == [] || r[0] !in cs
  {
    if s == [] || s[0] !in cs then s else TrimLeft(s[1..], cs)
  }

  /** `s.rstrip(chars)`. */
  function TrimRight(s: string, cs: set<char>): (r: string)
    ensures |r| <= |s| && r == s[..|r|]
    ensures r == [] || r[|r| - 1] !in cs
  {
    if s == [] || s[|s| - 1] !in cs then s else TrimRight(s[..|s| - 1], cs)
  }

  /** `s.strip(chars)`. */
  function StripChars(s: string, cs: set<char>): string {
    TrimRight(TrimLeft(s, cs), cs)
  }

  /** `s.strip()`. */
  function Strip(s: string): string {
    StripChars(s, Whitespace)
  }

  lemma StripEnds(s: string, cs: set<char>)
    ensures var r := StripChars(s, cs);
      (r == [] || (r[0] !in cs && r[|r| - 1] !in cs)) &&
      Contains(s, r)
  {
    var l := TrimLeft(s, cs);
    var r := TrimRight(l, cs);
    var i := |s| - |l|;
    assert OccursAt(s, r, i);
  }

  /** The strip is the slice of `s` that starts after the leading run. */
  lemma StripIsSlice(s: string, cs: set<char>) returns (d: nat)
    ensures d + |StripChars(s, cs)| <= |s| && StripChars(s, cs) == s[d..d + |StripChars(s, cs)|]
  {
    var l := TrimLeft(s, cs);
    var r := TrimRight(l, cs);
    d := |s| - |l|;
    SliceOfSuffix(s, d, |r|);
  }

  /** The strip from the two trims. */
  lemma StripVia(s: string, l: string, r: string, cs: set<char>)
    requires TrimLeft(s, cs) == l && TrimRight(l, cs) == r
    ensures StripChars(s, cs) == r
  {
  }

  lemma SliceOfSuffix(s: string, d: nat, n: nat)
    requires d + n <= |s|
    ensures s[d..][..n] == s[d..d + n]
  {
  }

  /** A string whose characters all lie outside `cs` is its own strip. */
  lemma StripNothing(s: string, cs: set<char>)
    requires forall i :: 0 <= i < |s| ==> s[i] !in cs
    ensures StripChars(s, cs) == s
  {
  }

  /** `s.find(c)`: the first index of `c`, or -1. */
  function Find(s: string, c: char): (r: int)
    ensures -1 <= r < |s|
    ensures r == -1 <==> c !in s
    ensures r >= 0 ==> s[r] == c && c !in s[..r]
  {
    if s == [] then -1
    else if s[0] == c then 0
    else var k := Find(s[1..], c); if k == -1 then -1 else k + 1
  }

  /** `s.rfind(c)`: the last index of `c`, or -1. */
  function RFind(s: string, c: char): (r: int)
    ensures -1 <= r < |s|
    ensures r == -1 <==> c !in s
    ensures r >= 0 ==> s[r] == c && c !in s[r + 1..]
  {
    if s == [] then -1
    else if s[|s| - 1] == c then |s| - 1
    else
      var t := s[..|s| - 1];
      var k := RFind(t, c);
      assert s == t + [s[|s| - 1]];
      assert k >= 0 ==> s[k + 1..] == t[k + 1..] + [s[|s| - 1]];
      k
  }

  /** `sep.join(parts)`. */
  function Join(parts: seq<string>, sep: string): string
  {
    if parts == [] then []
    else if |parts| == 1 then parts[0]
    else parts[0] + sep + Join(parts[1..], sep)
  }

  /** `s.split(sep)` for a non-empty separator: always at least one piece. */
  function Split(s: string, sep: string): (r: seq<string>)
    requires sep != []
    ensures |r| >= 1
    decreases |s|
  {
    if |s| < |sep| then [s]
    else if s[..|sep|] == sep then [""] + Split(s[|sep|..], sep)
    else var rest := Split(s[1..], sep); [[s[0]] + rest[0]] + rest[1..]
  }

  /** Splitting and re-joining with the same separator gives the string back. */
  lemma {:induction false} JoinSplit(s: string, sep: string)
    requires sep != []
    ensures Join(Split(s, sep), sep) == s
    decreases |s|
  {
    if |s| < |sep| {
    } else if s[..|sep|] == sep {
      var rest := Split(s[|sep|..], sep);
      JoinSplit(s[|sep|..], sep);
      JoinEmptyHead(rest, sep);
      assert s == sep + s[|sep|..];
    } else {
      var rest := Split(s[1..], sep);
      JoinSplit(s[1..], sep);
      JoinGrowHead(s[0], rest, sep);
      assert s == [s[0]] + s[1..];
    }
  }

  lemma JoinEmptyHead(rest: seq<string>, sep: string)
    requires rest != []
    ensures Join([""] + rest, sep) == sep + Join(rest, sep)
  {
    assert ([""] + rest)[1..] == rest;
  }

  lemma JoinGrowHead(x: char, rest: seq<string>, sep: string)
    requires rest != []
    ensures Join([[x] + rest[0]] + rest[1..], sep) == [x] + Join(rest, sep)
  {
    var r := [[x] + rest[0]] + rest[1..];
    if |rest| > 1 {
      assert r[1..] == rest[1..];
      assert Join(r, sep) == [x] + rest[0] + sep + Join(rest[1..], sep);
    }
  }

  /** A string without the separator splits into itself alone. */
  lemma {:induction false} SplitAbsent(s: string, sep: string)
    requires sep != [] && !Contains(s, sep)
    ensures Split(s, sep) == [s]
    decreases |s|
  {
    if |s| < |sep| {
    } else {
      assert !OccursAt(s, sep, 0);
      assert !Contains(s[1..], sep) by {
        forall i ensures !OccursAt(s[1..], sep, i) {
          if OccursAt(s[1..], sep, i) {
            assert s[1..][i..i + |sep|] == s[i + 1..i + 1 + |sep|];
            assert OccursAt(s, sep, i + 1);
          }
        }
      }
      SplitAbsent(s[1..], sep);
      assert s == [s[0]] + s[1..];
    }
  }

  /** `s.split(c)[0]`: the text before the first `c`. */
  function Before(s: string, c: char): (r: string)
    ensures c !in r
    ensures r == (if c in s then s[..Find(s, c)] else s)
  {
    var k := Find(s, c);
    if k == -1 then s else s[..k]
  }

  /** The longest prefix of `s` without whitespace. */
  function TakeWord(s: string): (r: string)
    ensures |r| <= |s| && r == s[..|r|]
    ensures forall i :: 0 <= i < |r| ==> !IsSpace(r[i])
    ensures |r| < |s| ==> IsSpace(s[|r|])
  {
    if s == [] || IsSpace(s[0]) then [] else [s[0]] + TakeWord(s[1..])
  }

  /** `s.split()`: the maximal runs of non-whitespace characters. */
  function Words(s: string): (r: seq<string>)
    ensures forall i :: 0 <= i < |r| ==> r[i] != [] && forall j :: 0 <= j < |r[i]| ==> !IsSpace(r[i][j])
    ensures s != [] && !IsSpace(s[0]) ==> r != [] && r[0] == TakeWord(s)
    decreases |s|
  {
    if s == [] then []
    else if IsSpace(s[0]) then Words(s[1..])
    else var w := TakeWord(s); [w] + Words(s[|w|..])
  }

  /** Re-splitting words joined by single spaces gives the words back. */
  lemma {:induction false} WordsJoin(ws: seq<string>)
    requires forall i :: 0 <= i < |ws| ==> ws[i] != [] && forall j :: 0 <= j < |ws[i]| ==> !IsSpace(ws[i][j])
    ensures Words(Join(ws, " ")) == ws
  {
    if ws == [] {
    } else {
      var w := ws[0];
      var s := Join(ws, " ");
      TakeWordOf(w, if |ws| == 1 then [] else " " + Join(ws[1..], " "));
      if |ws| == 1 {
        assert s == w + [];
        assert s[|w|..] == [];
      } else {
        assert s == w + (" " + Join(ws[1..], " "));
        WordsJoin(ws[1..]);
        assert s[|w|..] == " " + Join(ws[1..], " ");
        assert Words(s[|w|..]) == Words(Join(ws[1..], " "));
      }
    }
  }

  lemma {:induction false} TakeWordOf(w: string, rest: string)
    requires w != [] && forall j :: 0 <= j < |w| ==> !IsSpace(w[j])
    requires rest == [] || IsSpace(rest[0])
    ensures TakeWord(w + rest) == w
    decreases |w|
  {
    if |w| > 1 {
      assert (w + rest)[1..] == w[1..] + rest;
      TakeWordOf(w[1..], rest);
    } else {
      assert (w + rest)[1..] == rest;
    }
  }

  /** `s.replace(pat, rep)`: every non-overlapping occurrence of `pat`, left to
      right, becomes `rep`; an empty `pat` puts `rep` around every character. */
  function Replace(s: string, pat: string, rep: string): string
    decreases |s|
  {
    if pat == [] then Interleave(s, rep)
    else if |s| < |pat| then s
    else if s[..|pat|] == pat then rep + Replace(s[|pat|..], pat, rep)
    else [s[0]] + Replace(s[1..], pat, rep)
  }

  function Interleave(s: string, rep: string): (r: string)
    ensures |r| == |s| + (|s| + 1) * |rep|
  {
    if s == [] then rep else rep + [s[0]] + Interleave(s[1..], rep)
  }

  /** Replacing a non-empty pattern that does not occur changes nothing. */
  lemma {:induction false} ReplaceAbsent(s: string, pat: string, rep: string)
    requires pat != [] && !Contains(s, pat)
    ensures Replace(s, pat, rep) == s
    decreases |s|
  {
    if |s| >= |pat| {
      assert !OccursAt(s, pat, 0);
      assert !Contains(s[1..], pat) by {
        forall i ensures !OccursAt(s[1..], pat, i) {
          if OccursAt(s[1..], pat, i) {
            assert s[1..][i..i + |pat|] == s[i + 1..i + 1 + |pat|];
            assert OccursAt(s, pat, i + 1);
          }
        }
      }
      ReplaceAbsent(s[1..], pat, rep);
    }
  }

  /** Replacing a pattern by itself changes nothing. */
  lemma {:induction false} ReplaceSame(s: string, pat: string)
    requires pat != []
    ensures Replace(s, pat, pat) == s
    decreases |s|
  {
    if |s| >= |pat| {
      if s[..|pat|] == pat {
        ReplaceSame(s[|pat|..], pat);
        assert s == pat + s[|pat|..];
      } else {
        ReplaceSame(s[1..], pat);
        assert s == [s[0]] + s[1..];
      }
    }
  }

  function DigitChar(d: nat): char
    requires d < 10
  {
    "0123456789"[d]
  }

  /** `str(n)` for a natural number. */
  function NatToString(n: nat): (r: string)
    ensures r != []
    ensures forall i :: 0 <= i < |r| ==> '0' <= r[i] <= '9'
  {
    if n < 10 then [DigitChar(n)] else NatToString(n / 10) + [DigitChar(n % 10)]
  }

  /** Different numbers print differently. */
  lemma {:induction false} NatToStringInjective(a: nat, b: nat)
    requires NatToString(a) == NatToString(b)
    ensures a == b
    decreases a
  {
    var sa, sb := NatToString(a), NatToString(b);
    if a < 10 && b < 10 {
      assert sa[0] == DigitChar(a) && sb[0] == DigitChar(b);
    } else if a >= 10 && b >= 10 {
      assert sa[|sa| - 1] == DigitChar(a % 10) && sb[|sb| - 1] == DigitChar(b % 10);
      assert sa[..|sa| - 1] == NatToString(a / 10);
      assert sb[..|sb| - 1] == NatToString(b / 10);
      NatToStringInjective(a / 10, b / 10);
    }
  }

  // ------------------------------------------- splitting on one character

  /** The pieces of a split on `c` never contain `c`. */
  lemma {:induction false} SplitPiecesAvoid(s: string, c: char)
    ensures forall i :: 0 <= i < |Split(s, [c])| ==> c !in Split(s, [c])[i]
    decreases |s|
  {
    if |s| >= 1 {
      SplitPiecesAvoid(s[1..], c);
      if s[..1] != [c] {
        assert s[0] != c;
      }
    }
  }

  /** A string without `c` splits on `c` into itself alone. */
  lemma {:induction false} SplitAlone(a: string, c: char)
    requires c !in a
    ensures Split(a, [c]) == [a]
    decreases |a|
  {
    if a != [] {
      assert a[0] != c;
      assert a[..1] != [c] by { assert a[..1][0] == a[0]; }
      SplitAlone(a[1..], c);
      assert a == [a[0]] + a[1..];
    }
  }

  /** A piece without `c` followed by `c` splits off as the first piece. */
  lemma {:induction false} SplitCons(a: string, c: char, rest: string)
    requires c !in a
    ensures Split(a + [c] + rest, [c]) == [a] + Split(rest, [c])
    decreases |a|
  {
    var s := a + [c] + rest;
    if a == [] {
      assert s[..1] == [c] && s[1..] == rest;
    } else {
      assert s[0] == a[0] && a[0] != c;
      assert s[..1] != [c] by { assert s[..1][0] == s[0]; }
      assert s[1..] == a[1..] + [c] + rest;
      SplitCons(a[1..], c, rest);
      assert a == [a[0]] + a[1..];
    }
  }

  /** A leading character other than `c` joins the first piece. */
  lemma SplitOther(x: char, s: string, c: char)
    requires x != c
    ensures var r := Split(s, [c]);
      Split([x] + s, [c]) == [[x] + r[0]] + r[1..]
  {
    assert ([x] + s)[..1] != [c];
    assert ([x] + s)[1..] == s;
  }

  // ----------------------------------------------- strip, join and words

  /** A leading blank does not change the strip. */
  lemma StripLeadingSpace(p: string)
    ensures Strip(" " + p) == Strip(p)
  {
    assert (" " + p)[1..] == p;
  }

  /** A string with non-blank ends is its own strip. */
  lemma StripTight(x: string)
    requires x != [] && !IsSpace(x[0]) && !IsSpace(x[|x| - 1])
    ensures Strip(x) == x
  {
  }

  /** Stripping adds no character. */
  lemma StripAvoids(s: string, c: char)
    requires c !in s
    ensures c !in Strip(s)
  {
    StripCharsAvoids(s, Whitespace, c);
  }

  lemma StripCharsAvoids(s: string, cs: set<char>, c: char)
    requires c !in s
    ensures c !in StripChars(s, cs)
  {
    var l := TrimLeft(s, cs);
    assert forall i :: 0 <= i < |l| ==> l[i] == s[|s| - |l| + i];
    var r := TrimRight(l, cs);
    assert forall i :: 0 <= i < |r| ==> r[i] == l[i];
  }

  /** Joining adds only the separator's characters. */
  lemma {:induction false} JoinAvoids(parts: seq<string>, sep: string, c: char)
    requires c !in sep && forall i :: 0 <= i < |parts| ==> c !in parts[i]
    ensures c !in Join(parts, sep)
  {
    if |parts| > 1 {
      JoinAvoids(parts[1..], sep, c);
    }
  }

  /** Words are pieces of the string. */
  lemma {:induction false} WordsAvoid(s: string, c: char)
    requires c !in s
    ensures forall i :: 0 <= i < |Words(s)| ==> c !in Words(s)[i]
    decreases |s|
  {
    if s != [] {
      if IsSpace(s[0]) {
        WordsAvoid(s[1..], c);
      } else {
        var w := TakeWord(s);
        WordsAvoid(s[|w|..], c);
      }
    }
  }

  /** Words joined by single blanks start and end with a non-blank. */
  lemma {:induction false} JoinWordsTight(ws: seq<string>)
    requires ws != []
    requires forall i :: 0 <= i < |ws| ==> ws[i] != [] && forall j :: 0 <= j < |ws[i]| ==> !IsSpace(ws[i][j])
    ensures var s := Join(ws, " "); s != [] && !IsSpace(s[0]) && !IsSpace(s[|s| - 1])
  {
    if |ws| > 1 {
      JoinWordsTight(ws[1..]);
      var s := Join(ws, " ");
      var t := Join(ws[1..], " ");
      assert s == ws[0] + " " + t;
      assert s[0] == ws[0][0];
      assert s[|s| - 1] == t[|t| - 1];
    }
  }
}
