/**
 * The Python `str` operations that the man-page builder and the S3 listing
 * rely on, restricted to ASCII: startswith/endswith, index, split, join,
 * replace, strip, upper and left-justified `%-Ns` padding.
 */
module Text {
  import opened Wrappers

  predicate StartsWith(s: string, p: string) {
    |p| <= |s| && s[..|p|] == p
  }

  predicate EndsWith(s: string, p: string) {
    |p| <= |s| && s[|s| - |p|..] == p
  }

  /** `needle in hay` for two strings: a substring test. */
  predicate IsInfix(needle: string, hay: string)
    decreases |hay|
  {
    StartsWith(hay, needle) || (hay != [] && IsInfix(needle, hay[1..]))
  }

  /** `s.index(c)`: the first position of `c`. */
  function IndexOf(s: string, c: char): (i: nat)
    requires c in s
    ensures i < |s| && s[i] == c && c !in s[..i]
  {
    if s[0] == c then 0 else 1 + IndexOf(s[1..], c)
  }

  lemma IndexOfIsFirst(s: string, c: char, k: nat)
    requires k < |s| && s[k] == c && c !in s[..k]
    ensures IndexOf(s, c) == k
  {
  }

  function Count(c: char, s: string): nat {
    if s == [] then 0 else (if s[0] == c then 1 else 0) + Count(c, s[1..])
  }

  /** `s.split(sep)` for a one-character separator. */
  function Split(s: string, sep: char): (parts: seq<string>)
    ensures |parts| >= 1
    ensures forall i :: 0 <= i < |parts| ==> sep !in parts[i]
    decreases |s|
  {
    if sep !in s then [s]
    else
      var i := IndexOf(s, sep);
      [s[..i]] + Split(s[i + 1..], sep)
  }

  lemma {:induction false} CountAppend(c: char, a: string, b: string)
    ensures Count(c, a + b) == Count(c, a) + Count(c, b)
    decreases |a|
  {
    if a == [] {
      assert a + b == b;
    } else {
      assert (a + b)[1..] == a[1..] + b;
      CountAppend(c, a[1..], b);
    }
  }

  lemma {:induction false} CountAbsent(c: char, s: string)
    ensures Count(c, s) == 0 <==> c !in s
    decreases |s|
  {
    if s != [] {
      CountAbsent(c, s[1..]);
      assert s == [s[0]] + s[1..];
    }
  }

  /** `s.split(sep)` has one piece more than `s` has separators. */
  lemma {:induction false} SplitCount(s: string, sep: char)
    ensures |Split(s, sep)| == Count(sep, s) + 1
    decreases |s|
  {
    CountAbsent(sep, s);
    if sep in s {
      var i := IndexOf(s, sep);
      assert s == s[..i] + ([sep] + s[i + 1..]);
      CountAppend(sep, s[..i], [sep] + s[i + 1..]);
      CountAbsent(sep, s[..i]);
      assert ([sep] + s[i + 1..])[1..] == s[i + 1..];
      SplitCount(s[i + 1..], sep);
    }
  }

  /** `sep.join(parts)`. */
  function Join(parts: seq<string>, sep: string): string {
    if |parts| == 0 then ""
    else if |parts| == 1 then parts[0]
    else parts[0] + sep + Join(parts[1..], sep)
  }

  /** Joining the pieces of a split with the same separator gives the string back. */
  lemma {:induction false} JoinOfSplit(s: string, sep: char)
    ensures Join(Split(s, sep), [sep]) == s
    decreases |s|
  {
    if sep in s {
      var i := IndexOf(s, sep);
      var rest := s[i + 1..];
      JoinOfSplit(rest, sep);
      assert Split(s, sep) == [s[..i]] + Split(rest, sep);
      assert s == s[..i] + [sep] + rest;
    }
  }

  /** Splitting a join of separator-free pieces gives the pieces back. */
  lemma {:induction false} SplitOfJoin(parts: seq<string>, sep: char)
    requires |parts| >= 1
    requires forall i :: 0 <= i < |parts| ==> sep !in parts[i]
    ensures Split(Join(parts, [sep]), sep) == parts
    decreases |parts|
  {
    if |parts| > 1 {
      var rest := Join(parts[1..], [sep]);
      var s := parts[0] + [sep] + rest;
      assert Join(parts, [sep]) == s;
      assert s[..|parts[0]|] == parts[0];
      assert s[|parts[0]|] == sep;
      IndexOfIsFirst(s, sep, |parts[0]|);
      assert s[|parts[0]| + 1..] == rest;
      SplitOfJoin(parts[1..], sep);
      assert parts == [parts[0]] + parts[1..];
    }
  }

  lemma {:induction false} JoinAppend(parts: seq<string>, x: string, sep: string)
    requires |parts| >= 1
    ensures Join(parts + [x], sep) == Join(parts, sep) + sep + x
    decreases |parts|
  {
    if |parts| == 1 {
      assert (parts + [x])[1..] == [x];
    } else {
      assert (parts + [x])[1..] == parts[1..] + [x];
      JoinAppend(parts[1..], x, sep);
    }
  }

  /** Every piece of a join occurs in it. */
  lemma {:induction false} JoinHasParts(parts: seq<string>, sep: string, k: nat)
    requires k < |parts|
    ensures IsInfix(parts[k], Join(parts, sep))
    decreases |parts|
  {
    if |parts| == 1 {
      InfixOfConcat([], parts[0], []);
      assert [] + parts[0] + [] == parts[0];
    } else if k == 0 {
      InfixOfConcat([], parts[0], sep + Join(parts[1..], sep));
      assert [] + parts[0] + (sep + Join(parts[1..], sep)) == Join(parts, sep);
    } else {
      JoinHasParts(parts[1..], sep, k - 1);
      InfixGrows(parts[k], Join(parts[1..], sep), parts[0] + sep, []);
      assert parts[0] + sep + Join(parts[1..], sep) + [] == Join(parts, sep);
    }
  }

  lemma {:induction false} InfixOfConcat(a: string, m: string, b: string)
    ensures IsInfix(m, a + m + b)
    decreases |a|
  {
    if a == [] {
      assert (a + m + b)[..|m|] == m;
    } else {
      assert (a + m + b)[1..] == a[1..] + m + b;
      InfixOfConcat(a[1..], m, b);
    }
  }

  lemma {:induction false} InfixGrows(n: string, h: string, a: string, b: string)
    requires IsInfix(n, h)
    ensures IsInfix(n, a + h + b)
    decreases |a|, |h|
  {
    if a == [] {
      if StartsWith(h, n) {
        assert (a + h + b)[..|n|] == h[..|n|];
      } else {
        assert (a + h + b)[1..] == a + h[1..] + b;
        InfixGrows(n, h[1..], a, b);
      }
    } else {
      assert (a + h + b)[1..] == a[1..] + h + b;
      InfixGrows(n, h, a[1..], b);
    }
  }

  /** Substrings of substrings are substrings. */
  lemma {:induction false} InfixTransitive(a: string, b: string, c: string)
    requires IsInfix(a, b) && IsInfix(b, c)
    ensures IsInfix(a, c)
    decreases |c|
  {
    if StartsWith(c, b) {
      var i := InfixAt(a, b);
      assert c[..|b|] == b;
      InfixGrows(a, b, [], c[|b|..]);
      assert [] + b + c[|b|..] == c;
    } else {
      InfixTransitive(a, b, c[1..]);
    }
  }

  /** Where a substring occurs. */
  lemma {:induction false} InfixAt(n: string, h: string) returns (i: nat)
    requires IsInfix(n, h)
    ensures i + |n| <= |h| && h[i..i + |n|] == n
    decreases |h|
  {
    if StartsWith(h, n) {
      i := 0;
    } else {
      var j := InfixAt(n, h[1..]);
      i := j + 1;
      assert h[1..][j..j + |n|] == h[i..i + |n|];
    }
  }

  /** Nothing longer than the text occurs in it. */
  lemma {:induction false} TooShortNoInfix(n: string, h: string)
    requires |h| < |n|
    ensures !IsInfix(n, h)
    decreases |h|
  {
    if h != [] {
      TooShortNoInfix(n, h[1..]);
    }
  }

  /** `s.split(sep, 1)` unpacked into two names: fails when `sep` does not occur. */
  function SplitOnce(s: string, sep: char): (r: Option<(string, string)>)
    ensures r.None? <==> sep !in s
    ensures r.Some? ==> r.value.0 + [sep] + r.value.1 == s && sep !in r.value.0
  {
    if sep in s then
      var i := IndexOf(s, sep);
      assert s == s[..i] + [sep] + s[i + 1..];
      Some((s[..i], s[i + 1..]))
    else None
  }

  /** `s.replace(pat, rep)` for a non-empty `pat`: left to right, without overlaps. */
  function Replace(s: string, pat: string, rep: string): string
    requires |pat| > 0
    decreases |s|
  {
    if StartsWith(s, pat) then rep + Replace(s[|pat|..], pat, rep)
    else if s == [] then []
    else [s[0]] + Replace(s[1..], pat, rep)
  }

  /** Replacing one character: what one input character turns into. */
  function ReplacedChar(x: char, c: char, rep: string): string {
    if x == c then rep else [x]
  }

  lemma ReplaceCharCons(x: char, s: string, c: char, rep: string)
    ensures Replace([x] + s, [c], rep) == ReplacedChar(x, c, rep) + Replace(s, [c], rep)
  {
    assert ([x] + s)[1..] == s;
    assert ([x] + s)[..1] == [x];
  }

  /** Replacing a single character distributes over concatenation. */
  lemma {:induction false} ReplaceCharAppend(a: string, b: string, c: char, rep: string)
    ensures Replace(a + b, [c], rep) == Replace(a, [c], rep) + Replace(b, [c], rep)
    decreases |a|
  {
    if a == [] {
      assert a + b == b;
    } else {
      assert a + b == [a[0]] + (a[1..] + b);
      assert a == [a[0]] + a[1..];
      ReplaceCharCons(a[0], a[1..] + b, c, rep);
      ReplaceCharCons(a[0], a[1..], c, rep);
      ReplaceCharAppend(a[1..], b, c, rep);
    }
  }

  lemma {:induction false} ReplaceAbsent(s: string, pat: string, rep: string)
    requires |pat| > 0 && !IsInfix(pat, s)
    ensures Replace(s, pat, rep) == s
    decreases |s|
  {
    if s != [] {
      ReplaceAbsent(s[1..], pat, rep);
    }
  }

  // ---------------------------------------------------------------- strip

  /** The characters Python's `str.strip()` removes, within ASCII. */
  const AsciiWhitespace: set<char> :=
    {' ', '\t', '\n', '\r', '\U{0B}', '\U{0C}', '\U{1C}', '\U{1D}', '\U{1E}', '\U{1F}'}

  /** `s.lstrip(chars)`: what is left after the leading characters in `cs`. */
  function LStrip(s: string, cs: set<char>): (r: string)
    ensures |r| <= |s|
    ensures r != [] ==> r[0] !in cs
    ensures forall i :: 0 <= i < |s| - |r| ==> s[i] in cs
    decreases |s|
  {
    if s != [] && s[0] in cs then LStrip(s[1..], cs) else s
  }

  /** `s.rstrip(chars)`: what is left before the trailing characters in `cs`. */
  function RStrip(s: string, cs: set<char>): (r: string)
    ensures |r| <= |s|
    ensures r != [] ==> r[|r| - 1] !in cs
    ensures forall i :: |r| <= i < |s| ==> s[i] in cs
    decreases |s|
  {
    if s != [] && s[|s| - 1] in cs then RStrip(s[..|s| - 1], cs) else s
  }

  /** What `lstrip` leaves is a suffix of its input. */
  lemma {:induction false} LStripIsSuffix(s: string, cs: set<char>)
    ensures LStrip(s, cs) == s[|s| - |LStrip(s, cs)|..]
    decreases |s|
  {
    if s != [] && s[0] in cs {
      LStripIsSuffix(s[1..], cs);
    }
  }

  /** What `rstrip` leaves is a prefix of its input. */
  lemma {:induction false} RStripIsPrefix(s: string, cs: set<char>)
    ensures RStrip(s, cs) == s[..|RStrip(s, cs)|]
    decreases |s|
  {
    if s != [] && s[|s| - 1] in cs {
      RStripIsPrefix(s[..|s| - 1], cs);
    }
  }

  /** `s.strip(chars)`. */
  function StripChars(s: string, cs: set<char>): string {
    LStrip(RStrip(s, cs), cs)
  }

  /** What `strip` leaves is a piece of its input. */
  lemma StripCharsIsInfix(s: string, cs: set<char>)
    ensures IsInfix(StripChars(s, cs), s)
  {
    var x := RStrip(s, cs);
    var y := LStrip(x, cs);
    RStripIsPrefix(s, cs);
    LStripIsSuffix(x, cs);
    var a := x[..|x| - |y|];
    var b := s[|x|..];
    assert a + y == x;
    assert a + y + b == s;
    InfixOfConcat(a, y, b);
  }

  /** Neither end of what `strip` leaves is a stripped character. */
  lemma StripCharsEnds(s: string, cs: set<char>)
    ensures StripChars(s, cs) != [] ==>
      StripChars(s, cs)[0] !in cs && StripChars(s, cs)[|StripChars(s, cs)| - 1] !in cs
  {
    var x := RStrip(s, cs);
    LStripIsSuffix(x, cs);
  }

  /** `s.strip()` on ASCII text. */
  function Strip(s: string): string {
    StripChars(s, AsciiWhitespace)
  }

  /** Trailing characters of `u` go first; `t` stays when something of `u` or its own end survives. */
  lemma {:induction false} RStripAppend(t: string, u: string, cs: set<char>)
    requires RStrip(u, cs) != [] || (t != [] && t[|t| - 1] !in cs)
    ensures RStrip(t + u, cs) == t + RStrip(u, cs)
    decreases |u|
  {
    if u == [] {
      assert t + u == t;
    } else if u[|u| - 1] in cs {
      assert (t + u)[..|t + u| - 1] == t + u[..|u| - 1];
      RStripAppend(t, u[..|u| - 1], cs);
    }
  }

  /** Leading characters of `t` go first; `u` stays when something of `t` or its own start survives. */
  lemma {:induction false} LStripPrepend(t: string, u: string, cs: set<char>)
    requires LStrip(t, cs) != [] || (u != [] && u[0] !in cs)
    ensures LStrip(t + u, cs) == LStrip(t, cs) + u
    decreases |t|
  {
    if t == [] {
      assert t + u == u;
    } else if t[0] in cs {
      assert (t + u)[1..] == t[1..] + u;
      LStripPrepend(t[1..], u, cs);
    }
  }

  /** A suffix made of kept characters survives `lstrip`. */
  lemma {:induction false} LStripKeepsSuffix(s: string, p: string, cs: set<char>)
    requires p != [] && p[0] !in cs && EndsWith(s, p)
    ensures EndsWith(LStrip(s, cs), p)
    decreases |s|
  {
    if s[0] in cs {
      assert s[|s| - |p|] == p[0];
      assert s[1..][|s| - 1 - |p|..] == s[|s| - |p|..];
      LStripKeepsSuffix(s[1..], p, cs);
    }
  }

  /** Text surrounded by stripped characters strips to itself. */
  lemma StripSurrounded(w1: string, v: string, w2: string, cs: set<char>)
    requires forall i :: 0 <= i < |w1| ==> w1[i] in cs
    requires forall i :: 0 <= i < |w2| ==> w2[i] in cs
    requires v != [] && v[0] !in cs && v[|v| - 1] !in cs
    ensures StripChars(w1 + v + w2, cs) == v
  {
    RStripAppend(w1 + v, w2, cs);
    assert RStrip(w2, cs) == [] by { AllStripped(w2, cs); }
    assert w1 + v + w2 == (w1 + v) + w2;
    assert RStrip(w1 + v + w2, cs) == w1 + v;
    LStripPrepend(w1, v, cs);
    assert LStrip(w1, cs) == [] by { AllStripped(w1, cs); }
  }

  lemma {:induction false} AllStripped(w: string, cs: set<char>)
    requires forall i :: 0 <= i < |w| ==> w[i] in cs
    ensures LStrip(w, cs) == [] && RStrip(w, cs) == []
    decreases |w|
  {
    if w != [] {
      AllStripped(w[1..], cs);
      AllStripped(w[..|w| - 1], cs);
    }
  }

  /** Python's `'%s' % x` for a value that may be None. */
  function PyStr(x: Option<string>): string {
    match x
    case None => "None"
    case Some(s) => s
  }

  // ---------------------------------------------------------------- case and padding

  function UpperChar(c: char): char {
    if 'a' <= c <= 'z' then (c as int - 32) as char else c
  }

  /** `s.upper()` on ASCII text. */
  function Upper(s: string): (r: string)
    ensures |r| == |s|
    ensures forall i :: 0 <= i < |s| ==> r[i] == UpperChar(s[i])
  {
    seq(|s|, i requires 0 <= i < |s| => UpperChar(s[i]))
  }

  function Spaces(n: nat): (r: string)
    ensures |r| == n && forall i :: 0 <= i < n ==> r[i] == ' '
  {
    if n == 0 then [] else Spaces(n - 1) + [' ']
  }

  /** `"%-Ns" % s`: `s` left-justified in a field of width `w`, never truncated. */
  function PadRight(s: string, w: nat): (r: string)
    ensures |r| == if |s| < w then w else |s|
    ensures r[..|s|] == s
    ensures forall i :: |s| <= i < |r| ==> r[i] == ' '
  {
    if |s| < w then s + Spaces(w - |s|) else s
  }

  function Digit(d: nat): char
    requires d < 10
  {
    "0123456789"[d]
  }

  /** `str(n)` for a natural number. */
  function NatToString(n: nat): (r: string)
    ensures |r| >= 1
    ensures forall i :: 0 <= i < |r| ==> '0' <= r[i] <= '9'
  {
    if n < 10 then [Digit(n)] else NatToString(n / 10) + [Digit(n % 10)]
  }

  /** `s.split('\n')[0]`: the text before the first line break. */
  function FirstLine(s: string): (r: string)
    ensures '\n' !in r && StartsWith(s, r)
    ensures r == s <==> '\n' !in s
  {
    var r := Split(s, '\n')[0];
    if '\n' in s then
      assert r == s[..IndexOf(s, '\n')];
      r
    else r
  }
}
