/**
 * The roff man-page formatter of setup.py (`ManPageFormatter`): the text
 * helpers `_markup`, `_underline`, `_bold`, the section builders and the
 * rendering of one option's invocation.  What argparse itself renders (the
 * usage line, the options listing, an action's metavar and argument text)
 * enters as opaque strings.
 */
module ManPage {
  import opened Wrappers
  import opened Text

  const BoldOn := "\\fB"
  const FontReset := "\\fR"
  const UnderlineOn := "\\fI\\s-1"
  const UnderlineOff := "\\s0\\fR"

  /** An ArgumentParser as far as the man page sees it. */
  datatype ArgParser = ArgParser(
    prog: string,
    description: Option<string>,
    formattedUsage: string,  // argparse's usage line, program name included
    formattedHelp: string)   // argparse's rendering of the option groups and epilog

  /** An argparse `nargs`: None, a count, or one of '?', '*', '+', ... */
  datatype Nargs = DefaultNargs | Exactly(n: nat) | Pattern(code: string)

  /** An argparse action as `_format_action_invocation` reads it. */
  datatype Action = Action(
    optionStrings: seq<string>,
    dest: string,
    nargs: Nargs,
    metavar: string,               // what `_metavar_formatter(action, dest)(1)` unpacks to
    formatArgs: string -> string)  // `_format_args(action, default_metavar)`

  /** Python truthiness of an optional string: neither None nor empty. */
  predicate Truthy(x: Option<string>) {
    x.Some? && x.value != ""
  }

  // ---------------------------------------------------------------- _markup

  /** `_markup`: every `-` is written `\-`, roff's literal minus. */
  function Markup(txt: string): (r: string)
    ensures |r| == |txt| + Count('-', txt)
  {
    DashEscapeLength(txt);
    Replace(txt, "-", "\\-")
  }

  /** One extra character per `-`, and nothing else changes length. */
  lemma {:induction false} DashEscapeLength(s: string)
    ensures |Replace(s, "-", "\\-")| == |s| + Count('-', s)
  {
    if s != [] {
      assert s == [s[0]] + s[1..];
      ReplaceCharCons(s[0], s[1..], '-', "\\-");
      DashEscapeLength(s[1..]);
    }
  }

  /** Undoes `Markup`: `\-` reads back as `-`, everything else as itself. */
  function Unmarkup(s: string): string
    decreases |s|
  {
    if |s| >= 2 && s[0] == '\\' && s[1] == '-' then "-" + Unmarkup(s[2..])
    else if s == [] then []
    else [s[0]] + Unmarkup(s[1..])
  }

  lemma MarkupCons(c: char, s: string)
    ensures Markup([c] + s) == ReplacedChar(c, '-', "\\-") + Markup(s)
  {
    ReplaceCharCons(c, s, '-', "\\-");
  }

  lemma {:induction false} MarkupHead(s: string)
    ensures Markup(s) != [] ==> Markup(s)[0] != '-'
  {
    if s != [] {
      assert s == [s[0]] + s[1..];
      MarkupCons(s[0], s[1..]);
    }
  }

  /** Text without a `-` is left as it is. */
  lemma {:induction false} MarkupWithoutDash(s: string)
    requires '-' !in s
    ensures Markup(s) == s
  {
    if s != [] {
      assert s == [s[0]] + s[1..];
      MarkupCons(s[0], s[1..]);
      MarkupWithoutDash(s[1..]);
    }
  }

  /** Every `-` of the marked-up text is preceded by a backslash. */
  lemma {:induction false} MarkupEscapesEveryDash(s: string)
    ensures forall i :: 0 <= i < |Markup(s)| && Markup(s)[i] == '-' ==> i > 0 && Markup(s)[i - 1] == '\\'
  {
    if s != [] {
      assert s == [s[0]] + s[1..];
      MarkupCons(s[0], s[1..]);
      MarkupEscapesEveryDash(s[1..]);
      MarkupHead(s[1..]);
      var h := ReplacedChar(s[0], '-', "\\-");
      var m := Markup(s[1..]);
      forall i | 0 <= i < |Markup(s)| && Markup(s)[i] == '-'
        ensures i > 0 && Markup(s)[i - 1] == '\\'
      {
        if i >= |h| {
          assert m[i - |h|] == '-';
        }
      }
    }
  }

  /** Marking up loses nothing: `Unmarkup` recovers the original text. */
  lemma {:induction false} MarkupRoundTrip(s: string)
    ensures Unmarkup(Markup(s)) == s
  {
    if s != [] {
      var t := s[1..];
      assert s == [s[0]] + t;
      MarkupCons(s[0], t);
      MarkupRoundTrip(t);
      MarkupHead(t);
      var m := Markup(t);
      if s[0] == '-' {
        assert ("\\-" + m)[2..] == m;
      } else {
        assert ([s[0]] + m)[1..] == m;
      }
    }
  }

  // ---------------------------------------------------------------- _underline, _bold

  /** `_underline`: italic, one size smaller, then back to the regular font. */
  function Underline(s: string): (r: string)
    ensures |r| == |UnderlineOn| + |s| + |UnderlineOff|
    ensures StartsWith(r, UnderlineOn) && EndsWith(r, UnderlineOff)
    ensures r[|UnderlineOn|..|r| - |UnderlineOff|] == s
  {
    UnderlineOn + s + UnderlineOff
  }

  /**
   * What `_bold` yields, stated on the stripped input: `\fB` in front unless
   * the stripped text already starts with it, `\fR` behind unless it
   * already ends with it.
   */
  function Bolded(s: string): string {
    (if StartsWith(Strip(s), BoldOn) then "" else BoldOn)
    + s
    + (if EndsWith(Strip(s), FontReset) then "" else FontReset)
  }

  lemma StripAfterBoldOn(s: string)
    ensures Strip(BoldOn + s) == BoldOn + RStrip(s, AsciiWhitespace)
  {
    assert '\\' !in AsciiWhitespace && 'B' !in AsciiWhitespace;
    RStripAppend(BoldOn, s, AsciiWhitespace);
    var x := BoldOn + RStrip(s, AsciiWhitespace);
    assert x[0] == '\\';
    assert LStrip(x, AsciiWhitespace) == x;
  }

  lemma BoldOnNoOverlap(x: string)
    requires |x| < 3
    ensures !EndsWith(BoldOn + x, FontReset)
  {
    var t := BoldOn + x;
    if |x| == 0 {
      assert t[2] == 'B';
    } else if |x| == 1 {
      assert t[1] == 'f' && t[|t| - 3..][0] == t[1];
    } else {
      assert t[2] == 'B' && t[|t| - 3..][0] == t[2];
    }
  }

  lemma EndsWithBoldOnPrefixed(x: string)
    ensures EndsWith(BoldOn + x, FontReset) <==> EndsWith(LStrip(x, AsciiWhitespace), FontReset)
  {
    var y := LStrip(x, AsciiWhitespace);
    LStripIsSuffix(x, AsciiWhitespace);
    if EndsWith(y, FontReset) {
      assert x[|x| - 3..] == y[|y| - 3..];
      assert (BoldOn + x)[|BoldOn + x| - 3..] == x[|x| - 3..];
    }
    if EndsWith(BoldOn + x, FontReset) {
      if |x| < 3 {
        BoldOnNoOverlap(x);
      } else {
        assert '\\' !in AsciiWhitespace;
        assert (BoldOn + x)[|BoldOn + x| - 3..] == x[|x| - 3..];
        LStripKeepsSuffix(x, FontReset, AsciiWhitespace);
      }
    }
  }

  /** After `\fB` is put in front, the second test of `_bold` sees what the stripped input ends with. */
  lemma EndsWithAfterBoldOn(s: string)
    ensures EndsWith(Strip(BoldOn + s), FontReset) <==> EndsWith(Strip(s), FontReset)
  {
    StripAfterBoldOn(s);
    EndsWithBoldOnPrefixed(RStrip(s, AsciiWhitespace));
  }

  lemma StripWrapped(s: string)
    ensures Strip(BoldOn + s + FontReset) == BoldOn + s + FontReset
  {
    var r := BoldOn + s + FontReset;
    assert '\\' !in AsciiWhitespace && 'R' !in AsciiWhitespace;
    assert r[|r| - 1] == 'R' && r[0] == '\\';
    assert RStrip(r, AsciiWhitespace) == r;
    assert LStrip(r, AsciiWhitespace) == r;
  }

  lemma StripBeforeFontReset(s: string)
    requires Strip(s) != []
    ensures Strip(s + FontReset) == Strip(s) + s[|RStrip(s, AsciiWhitespace)|..] + FontReset
  {
    var ws := AsciiWhitespace;
    assert '\\' !in ws && 'R' !in ws;
    var x := RStrip(s, ws);
    RStripIsPrefix(s, ws);
    var y := s[|x|..];
    var r := s + FontReset;
    assert r == x + (y + FontReset);
    assert RStrip(r, ws) == r by { assert r[|r| - 1] == 'R'; }
    LStripPrepend(x, y + FontReset, ws);
  }

  /** Whatever the input, the stripped result starts with `\fB` and ends with `\fR`. */
  lemma BoldedIsBold(s: string)
    ensures StartsWith(Strip(Bolded(s)), BoldOn) && EndsWith(Strip(Bolded(s)), FontReset)
  {
    var a := StartsWith(Strip(s), BoldOn);
    var b := EndsWith(Strip(s), FontReset);
    if !a && !b {
      assert Bolded(s) == BoldOn + s + FontReset;
      WrappedIsBold(s);
    } else if !a && b {
      assert Bolded(s) == BoldOn + s;
      PrefixedIsBold(s);
    } else if a && !b {
      assert Bolded(s) == s + FontReset;
      SuffixedIsBold(s);
    } else {
      assert Bolded(s) == s;
    }
  }

  lemma WrappedIsBold(s: string)
    ensures StartsWith(Strip(BoldOn + s + FontReset), BoldOn)
    ensures EndsWith(Strip(BoldOn + s + FontReset), FontReset)
  {
    var t := BoldOn + s + FontReset;
    StripWrapped(s);
    assert t[..3] == BoldOn;
    assert t[|BoldOn + s|..] == FontReset;
  }

  lemma PrefixedIsBold(s: string)
    requires EndsWith(Strip(s), FontReset)
    ensures StartsWith(Strip(BoldOn + s), BoldOn) && EndsWith(Strip(BoldOn + s), FontReset)
  {
    StripAfterBoldOn(s);
    EndsWithBoldOnPrefixed(RStrip(s, AsciiWhitespace));
    var t := BoldOn + RStrip(s, AsciiWhitespace);
    assert t[..3] == BoldOn;
  }

  lemma SuffixedIsBold(s: string)
    requires StartsWith(Strip(s), BoldOn)
    ensures StartsWith(Strip(s + FontReset), BoldOn) && EndsWith(Strip(s + FontReset), FontReset)
  {
    StripBeforeFontReset(s);
    var l := Strip(s);
    var m := l + s[|RStrip(s, AsciiWhitespace)|..];
    var t := m + FontReset;
    assert t[..3] == l[..3];
    assert t[|m|..] == FontReset;
  }

  /** `_bold` changes its input exactly when a marker is missing. */
  lemma BoldedUnchangedIffBold(s: string)
    ensures Bolded(s) == s <==> StartsWith(Strip(s), BoldOn) && EndsWith(Strip(s), FontReset)
  {
    if !StartsWith(Strip(s), BoldOn) || !EndsWith(Strip(s), FontReset) {
      assert |Bolded(s)| > |s|;
    }
  }

  /** `_bold` never wraps twice. */
  lemma BoldedIdempotent(s: string)
    ensures Bolded(Bolded(s)) == Bolded(s)
  {
    BoldedIsBold(s);
  }

  // ---------------------------------------------------------------- sections

  /** One block of `_mk_footer`: the upper-cased section name as a `.SH` heading, then the text. */
  function SectionBlock(section: (string, string)): string {
    ".SH " + Upper(section.0) + "\n " + section.1
  }

  function SectionBlocks(sections: seq<(string, string)>): (r: seq<string>)
    ensures |r| == |sections|
    ensures forall i :: 0 <= i < |sections| ==> r[i] == SectionBlock(sections[i])
  {
    seq(|sections|, i requires 0 <= i < |sections| => SectionBlock(sections[i]))
  }

  /**
   * What `_mk_footer` yields: nothing for a value that is not iterable
   * (None), otherwise the blocks of the sections in their order, one line
   * break between consecutive blocks.
   */
  function Footer(sections: Option<seq<(string, string)>>): string {
    match sections
    case None => ""
    case Some(items) => Join(SectionBlocks(items), "\n")
  }

  /** Adding a section adds its block at the end. */
  lemma FooterAppend(items: seq<(string, string)>, section: (string, string))
    ensures Footer(Some(items + [section])) ==
      if items == [] then SectionBlock(section)
      else Footer(Some(items)) + "\n" + SectionBlock(section)
  {
    assert SectionBlocks(items + [section]) == SectionBlocks(items) + [SectionBlock(section)];
    if items != [] {
      JoinAppend(SectionBlocks(items), SectionBlock(section), "\n");
    }
  }

  /** Every section's heading and text appear in the footer. */
  lemma FooterHasEverySection(items: seq<(string, string)>, k: nat)
    requires k < |items|
    ensures IsInfix(".SH " + Upper(items[k].0) + "\n " + items[k].1, Footer(Some(items)))
  {
    JoinHasParts(SectionBlocks(items), "\n", k);
  }

  // ---------------------------------------------------------------- _format_action_invocation

  predicate TakesNoValue(a: Action) {
    a.nargs.Exactly? && a.nargs.n == 0
  }

  /** The argument text of an option that takes a value; the default metavar is the underlined upper-cased dest. */
  function ArgsString(a: Action): string {
    a.formatArgs(Underline(Upper(a.dest)))
  }

  function OptionPart(a: Action, option: string): string {
    if TakesNoValue(a) then Bolded(option) else Bolded(option) + " " + ArgsString(a)
  }

  function OptionParts(a: Action): (r: seq<string>)
    ensures |r| == |a.optionStrings|
    ensures forall i :: 0 <= i < |r| ==> r[i] == OptionPart(a, a.optionStrings[i])
  {
    seq(|a.optionStrings|, i requires 0 <= i < |a.optionStrings| => OptionPart(a, a.optionStrings[i]))
  }

  /**
   * `_format_action_invocation`: a positional shows its metavar alone; an
   * option shows one part per option string, `, `-separated.
   */
  function Invocation(a: Action): string {
    if a.optionStrings == [] then a.metavar else Join(OptionParts(a), ", ")
  }

  /** Every option string of an option appears bold in its invocation. */
  lemma InvocationListsEveryOption(a: Action, k: nat)
    requires k < |a.optionStrings|
    ensures IsInfix(Bolded(a.optionStrings[k]), Invocation(a))
  {
    var p := Bolded(a.optionStrings[k]);
    OptionPartInInvocation(a, k);
    var part := OptionPart(a, a.optionStrings[k]);
    if !TakesNoValue(a) {
      BoldedStartsPart(a, a.optionStrings[k]);
      InfixTransitive(p, part, Invocation(a));
    }
  }

  /** An option that takes a value shows the argument text right after each bold option string. */
  lemma InvocationShowsArgument(a: Action, k: nat)
    requires k < |a.optionStrings| && !TakesNoValue(a)
    ensures IsInfix(Bolded(a.optionStrings[k]) + " " + ArgsString(a), Invocation(a))
  {
    OptionPartInInvocation(a, k);
  }

  lemma OptionPartInInvocation(a: Action, k: nat)
    requires k < |a.optionStrings|
    ensures IsInfix(OptionPart(a, a.optionStrings[k]), Invocation(a))
  {
    JoinHasParts(OptionParts(a), ", ", k);
  }

  lemma BoldedStartsPart(a: Action, option: string)
    requires !TakesNoValue(a)
    ensures IsInfix(Bolded(option), OptionPart(a, option))
  {
    var p := Bolded(option);
    var q := " " + ArgsString(a);
    InfixOfConcat([], p, q);
    assert [] + p + q == OptionPart(a, option);
  }

  lemma OptionPartsGrow(a: Action, i: nat, parts: seq<string>, part: string)
    requires i < |a.optionStrings| && parts == OptionParts(a)[..i]
    requires part == OptionPart(a, a.optionStrings[i])
    ensures parts + [part] == OptionParts(a)[..i + 1]
  {
    var all := OptionParts(a);
    assert all[..i + 1] == all[..i] + [all[i]];
  }

  /** A flag with a single option string renders as that string in bold. */
  lemma SingleFlagInvocation(a: Action)
    requires |a.optionStrings| == 1 && TakesNoValue(a)
    ensures Invocation(a) == Bolded(a.optionStrings[0])
  {
  }

  lemma NameSectionSplit(prog: string, desc: string)
    ensures '\n' !in prog && '\n' !in desc ==>
      Split(".SH NAME\n" + prog + " \\- " + desc + "\n", '\n') == [".SH NAME", prog + " \\- " + desc, ""]
  {
    var line := prog + " \\- " + desc;
    if '\n' !in prog && '\n' !in desc {
      forall i | 0 <= i < |line|
        ensures line[i] != '\n'
      {
        if i >= |prog| + 4 {
          assert line[i] == desc[i - |prog| - 4];
        } else if i < |prog| {
          assert line[i] == prog[i];
        }
      }
      var parts := [".SH NAME", line, ""];
      assert Join(parts[1..], "\n") == line + "\n" + "";
      assert Join(parts, "\n") == ".SH NAME\n" + prog + " \\- " + desc + "\n";
      SplitOfJoin(parts, '\n');
    }
  }

  // ---------------------------------------------------------------- the formatter

  /** Joining five pages' parts with no separator concatenates them. */
  lemma JoinOfFive(parts: seq<string>)
    requires |parts| == 5
    ensures Join(parts, "") == parts[0] + parts[1] + parts[2] + parts[3] + parts[4]
    ensures StartsWith(Join(parts, ""), parts[0])
  {
    var rest := parts[1] + parts[2] + parts[3] + parts[4];
    assert parts[4..] == [parts[4]];
    assert Join(parts[3..], "") == parts[3] + parts[4] by {
      assert parts[3..][1..] == parts[4..];
    }
    assert Join(parts[2..], "") == parts[2] + parts[3] + parts[4] by {
      assert parts[2..][1..] == parts[3..];
    }
    assert Join(parts[1..], "") == rest by {
      assert parts[1..][1..] == parts[2..];
    }
    assert Join(parts, "") == parts[0] + rest;
    assert (parts[0] + rest)[..|parts[0]|] == parts[0];
  }

  /** `ManPageFormatter`: the fields its constructor sets; none changes afterwards. */
  class ManPageFormatter {
    const prog: string
    /** `self._section` is always 1, whatever `section` the constructor is given. */
    const section: nat := 1
    const today: string   // `date.today()` rendered as `%Y\-%m\-%d`
    const desc: Option<string>
    const longDesc: Option<string>
    const extSections: Option<seq<(string, string)>>

    constructor (prog: string, section: int, today: string, desc: Option<string>,
                 longDesc: Option<string>, extSections: Option<seq<(string, string)>>)
      ensures this.prog == prog && this.today == today && this.desc == desc
      ensures this.longDesc == longDesc && this.extSections == extSections
      ensures this.section == 1
    {
      this.prog := prog;
      this.today := today;
      this.desc := desc;
      this.longDesc := longDesc;
      this.extSections := extSections;
    }

    /** `_bold`: two guarded reassignments of the argument. */
    method Bold(s: string) returns (r: string)
      ensures r == Bolded(s)
    {
      r := s;
      if !StartsWith(Strip(r), BoldOn) {
        r := BoldOn + r;
        EndsWithAfterBoldOn(s);
      }
      if !EndsWith(Strip(r), FontReset) {
        r := r + FontReset;
      }
    }

    /** `_mk_title`: the `.TH` line, in section 1. */
    function MkTitle(prog: string): (r: string)
      ensures r == ".TH " + prog + " 1 " + today + "\n"
    {
      ".TH " + prog + " " + NatToString(section) + " " + today + "\n"
    }

    /** `_make_name`: the NAME section from the parser's program name and description. */
    function MakeName(parser: ArgParser): (r: string)
      ensures '\n' !in parser.prog && '\n' !in PyStr(parser.description) ==>
        Split(r, '\n') == [".SH NAME", parser.prog + " \\- " + PyStr(parser.description), ""]
    {
      NameSectionSplit(parser.prog, PyStr(parser.description));
      ".SH NAME\n" + parser.prog + " \\- " + PyStr(parser.description) + "\n"
    }

    /** `_mk_synopsis` once argparse has rendered the usage: the program name is dropped from it. */
    function MkSynopsis(parser: ArgParser): string {
      var usage := Replace(parser.formattedUsage, prog + " ", "");
      ".SH SYNOPSIS\n \\fB" + Markup(prog) + "\\fR " + usage + "\n"
    }

    /** `_mk_description`: empty without a long description, otherwise a DESCRIPTION section. */
    function MkDescription(): (r: string)
      ensures r == "" <==> !Truthy(longDesc)
      ensures Truthy(longDesc) ==>
        (|r| >= 17 && StartsWith(r, ".SH DESCRIPTION\n") && EndsWith(r, "\n") &&
         r[16..|r| - 1] == Markup(Replace(longDesc.value, "\n", "\n.br\n")) &&
         Unmarkup(r[16..|r| - 1]) == Replace(longDesc.value, "\n", "\n.br\n"))
    {
      if Truthy(longDesc) then
        var body := Replace(longDesc.value, "\n", "\n.br\n");
        var r := ".SH DESCRIPTION\n" + Markup(body) + "\n";
        assert r[16..|r| - 1] == Markup(body);
        MarkupRoundTrip(body);
        r
      else ""
    }

    /** `_mk_options` once argparse has rendered the option groups. */
    function MkOptions(parser: ArgParser): string {
      ".SH OPTIONS\n" + parser.formattedHelp
    }

    /** `_mk_footer`: appends one block per section, then joins them with line breaks. */
    method MkFooter(sections: Option<seq<(string, string)>>) returns (r: string)
      ensures r == Footer(sections)
    {
      if sections.None? {
        return "";
      }
      var items := sections.value;
      var footer: seq<string> := [];
      var i := 0;
      while i < |items|
        invariant 0 <= i <= |items|
        invariant footer == SectionBlocks(items[..i])
      {
        var (name, value) := items[i];
        var part := ".SH " + Upper(name) + "\n " + value;
        footer := footer + [part];
        i := i + 1;
      }
      assert items[..i] == items;
      r := Join(footer, "\n");
    }

    /** `format_man_page`: title, synopsis, description, options and footer, in that order. */
    method FormatManPage(parser: ArgParser) returns (page: string)
      ensures page == MkTitle(prog) + MkSynopsis(parser) + MkDescription() + MkOptions(parser) + Footer(extSections)
      ensures StartsWith(page, ".TH " + prog + " 1 " + today + "\n")
    {
      var parts: seq<string> := [];
      parts := parts + [MkTitle(prog)];
      parts := parts + [MkSynopsis(parser)];
      parts := parts + [MkDescription()];
      parts := parts + [MkOptions(parser)];
      var footer := MkFooter(extSections);
      parts := parts + [footer];
      page := Join(parts, "");
      JoinOfFive(parts);
    }

    /** `_format_action_invocation`: builds the list of parts in a loop, then joins it. */
    method FormatActionInvocation(action: Action) returns (r: string)
      ensures r == Invocation(action)
    {
      if action.optionStrings == [] {
        return action.metavar;
      }
      var options := action.optionStrings;
      var parts: seq<string> := [];
      var i := 0;
      if action.nargs == Exactly(0) {
        while i < |options|
          invariant 0 <= i <= |options|
          invariant parts == OptionParts(action)[..i]
        {
          var b := Bold(options[i]);
          OptionPartsGrow(action, i, parts, b);
          parts := parts + [b];
          i := i + 1;
        }
      } else {
        var default := Underline(Upper(action.dest));
        var args := action.formatArgs(default);
        while i < |options|
          invariant 0 <= i <= |options|
          invariant parts == OptionParts(action)[..i]
        {
          var b := Bold(options[i]);
          OptionPartsGrow(action, i, parts, b + " " + args);
          parts := parts + [b + " " + args];
          i := i + 1;
        }
      }
      assert parts == OptionParts(action);
      r := Join(parts, ", ");
    }
  }
}
