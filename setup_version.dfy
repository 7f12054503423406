/**
 * How setup.py reads the package version without importing the package:
 * among the lines of `datalad/version.py` it keeps those starting with
 * `__version__`, insists there is exactly one, takes what follows its
 * first `=` up to the next `=` and strips blanks, quotes and line ends.
 */
module SetupVersion {
  import opened Wrappers
  import opened Text

  const VersionPrefix := "__version__"

  /** The characters stripped around the version text. */
  const QuoteChars: set<char> := {' ', '\'', '"', '\t', '\n'}

  /** `assert len(version_lines) == 1` fails, or `split('=')[1]` has no second piece. */
  datatype VersionError = AssertionError | IndexError

  /** The lines of the file, in order, that start with `__version__`. */
  function VersionLines(lines: seq<string>): (r: seq<string>)
    ensures |r| <= |lines|
    ensures forall l :: l in r ==> l in lines && StartsWith(l, VersionPrefix)
    ensures forall l :: l in lines && StartsWith(l, VersionPrefix) ==> l in r
  {
    if lines == [] then []
    else (if StartsWith(lines[0], VersionPrefix) then [lines[0]] else []) + VersionLines(lines[1..])
  }

  /** The version as setup.py computes it, or the exception it stops with. */
  function ExtractVersion(lines: seq<string>): (r: Result<string, VersionError>)
    ensures r == Failure(AssertionError) <==> |VersionLines(lines)| != 1
    ensures r == Failure(IndexError) <==> |VersionLines(lines)| == 1 && '=' !in VersionLines(lines)[0]
    ensures r.Success? ==> '=' !in r.value && IsInfix(r.value, VersionLines(lines)[0])
    ensures r.Success? && r.value != [] ==> r.value[0] !in QuoteChars && r.value[|r.value| - 1] !in QuoteChars
  {
    var found := VersionLines(lines);
    if |found| != 1 then Failure(AssertionError)
    else
      var parts := Split(found[0], '=');
      if |parts| < 2 then
        JoinOfSplit(found[0], '=');
        Failure(IndexError)
      else
        var v := StripChars(parts[1], QuoteChars);
        VersionPieceFacts(found[0], parts, v);
        Success(v)
  }

  lemma VersionPieceFacts(line: string, parts: seq<string>, v: string)
    requires parts == Split(line, '=') && |parts| >= 2
    requires v == StripChars(parts[1], QuoteChars)
    ensures '=' in line
    ensures '=' !in v && IsInfix(v, line)
    ensures v != [] ==> v[0] !in QuoteChars && v[|v| - 1] !in QuoteChars
  {
    StripCharsEnds(parts[1], QuoteChars);
    JoinOfSplit(line, '=');
    assert Join(parts, "=") == parts[0] + "=" + Join(parts[1..], "=");
    StripCharsIsInfix(parts[1], QuoteChars);
    JoinHasParts(parts, "=", 1);
    InfixTransitive(v, parts[1], line);
    var k := InfixAt(v, parts[1]);
    assert Join(parts, "=")[|parts[0]|] == '=';
  }

  /** Keeping the `__version__` lines distributes over the file's parts. */
  lemma {:induction false} VersionLinesAppend(a: seq<string>, b: seq<string>)
    ensures VersionLines(a + b) == VersionLines(a) + VersionLines(b)
    decreases |a|
  {
    if a == [] {
      assert a + b == b;
    } else {
      assert (a + b)[1..] == a[1..] + b;
      VersionLinesAppend(a[1..], b);
    }
  }

  /** The line `__version__ = '<v>'` as version.py writes it. */
  function VersionAssignment(v: string): string {
    VersionPrefix + " = '" + v + "'\n"
  }

  /**
   * A version.py with a single `__version__ = '<v>'` line yields `v`, when
   * `v` holds no `=` and does not itself begin or end with a blank or a quote.
   */
  lemma VersionRoundTrip(before: seq<string>, v: string, after: seq<string>)
    requires forall l :: l in before + after ==> !StartsWith(l, VersionPrefix)
    requires '=' !in v
    requires v != [] ==> v[0] !in QuoteChars && v[|v| - 1] !in QuoteChars
    ensures ExtractVersion(before + [VersionAssignment(v)] + after) == Success(v)
  {
    var line := VersionAssignment(v);
    assert StartsWith(line, VersionPrefix);
    VersionLinesAppend(before + [line], after);
    VersionLinesAppend(before, [line]);
    NoVersionLines(before);
    NoVersionLines(after);
    assert VersionLines([line]) == [line];
    var tail := " '" + v + "'\n";
    assert line == Join([VersionPrefix + " ", tail], "=");
    SplitOfJoin([VersionPrefix + " ", tail], '=');
    QuotedStrips(v);
  }

  lemma {:induction false} NoVersionLines(lines: seq<string>)
    requires forall l :: l in lines ==> !StartsWith(l, VersionPrefix)
    ensures VersionLines(lines) == []
  {
    if lines != [] {
      assert lines[0] in lines;
      NoVersionLines(lines[1..]);
    }
  }

  lemma QuotedStrips(v: string)
    requires v != [] ==> v[0] !in QuoteChars && v[|v| - 1] !in QuoteChars
    ensures StripChars(" '" + v + "'\n", QuoteChars) == v
  {
    var s := " '" + v + "'\n";
    if v == [] {
      AllStripped(s, QuoteChars);
    } else {
      assert s == " '" + v + "'\n";
      StripSurrounded(" '", v, "'\n", QuoteChars);
    }
  }

  /**
   * A second `=` on the line ends the version: `__version__ = 'a=b'` yields
   * `a`, not `a=b`.
   */
  lemma SecondEqualsEndsVersion(v: string, w: string)
    requires '=' !in v && '=' !in w
    requires v != [] && v[0] !in QuoteChars && v[|v| - 1] !in QuoteChars
    ensures ExtractVersion([VersionAssignment(v + "=" + w)]) == Success(v)
  {
    var line := VersionAssignment(v + "=" + w);
    SplitTwoEquals(v, w);
    assert VersionLines([line]) == [line];
    StripSurrounded(" '", v, [], QuoteChars);
    assert " '" + v == " '" + v + [];
  }

  lemma SplitTwoEquals(v: string, w: string)
    requires '=' !in v && '=' !in w
    ensures Split(VersionAssignment(v + "=" + w), '=') == [VersionPrefix + " ", " '" + v, w + "'\n"]
  {
    var parts := [VersionPrefix + " ", " '" + v, w + "'\n"];
    assert Join(parts[2..], "=") == w + "'\n";
    assert Join(parts[1..], "=") == " '" + v + "=" + (w + "'\n");
    assert VersionAssignment(v + "=" + w) == Join(parts, "=");
    SplitOfJoin(parts, '=');
  }
}
