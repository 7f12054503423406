/**
 * The `build_manpage` setup command (`BuildManPage` in setup.py): its two
 * options and the checks `finalize_options` makes before the parser module
 * is imported.  The import itself, the call of the parser factory and the
 * date are outside the model; what the command resolves is the module name,
 * the attribute name and the `fromlist` handed to `__import__`.
 */
module BuildManPageCommand {
  import opened Wrappers
  import opened Text

  /** The exceptions `finalize_options` can raise before the import. */
  datatype OptionError =
    | DistutilsOptionError(message: string)
    /** A name that is used but was never imported or defined. */
    | NameError(name: string)
    /** `a, b = parts` with a number of parts other than two. */
    | UnpackError(got: nat)

  /** What the `--parser=module:function` option resolves to. */
  datatype ParserRef = ParserRef(modName: string, funcName: string, fromlist: seq<string>)

  const OutputRequired := "'output' option is required"
  const ParserRequired := "'parser' option is required"

  /** `mod_name, func_name = self.parser.split(':')` and `fromlist = mod_name.split('.')`. */
  function ParseParserOption(parser: string): (r: Result<ParserRef, OptionError>)
    ensures r.Success? <==> Count(':', parser) == 1
    ensures r.Success? ==>
      parser == r.value.modName + ":" + r.value.funcName &&
      ':' !in r.value.modName && ':' !in r.value.funcName &&
      Join(r.value.fromlist, ".") == r.value.modName &&
      |r.value.fromlist| >= 1 && forall i :: 0 <= i < |r.value.fromlist| ==> '.' !in r.value.fromlist[i]
    ensures r.Failure? ==> r.error == UnpackError(Count(':', parser) + 1)
  {
    var parts := Split(parser, ':');
    SplitCount(parser, ':');
    if |parts| != 2 then Failure(UnpackError(|parts|))
    else
      JoinOfSplit(parser, ':');
      assert Join(parts, ":") == parts[0] + ":" + parts[1];
      JoinOfSplit(parts[0], '.');
      Success(ParserRef(parts[0], parts[1], Split(parts[0], '.')))
  }

  /**
   * `finalize_options` as intended: a missing option is reported with a
   * `DistutilsOptionError`, `output` first.
   */
  function ResolveOptions(output: Option<string>, parser: Option<string>): (r: Result<ParserRef, OptionError>)
    ensures output.None? ==> r == Failure(DistutilsOptionError(OutputRequired))
    ensures output.Some? && parser.None? ==> r == Failure(DistutilsOptionError(ParserRequired))
    ensures output.Some? && parser.Some? ==> r == ParseParserOption(parser.value)
  {
    if output.None? then Failure(DistutilsOptionError(OutputRequired))
    else if parser.None? then Failure(DistutilsOptionError(ParserRequired))
    else ParseParserOption(parser.value)
  }

  /**
   * `finalize_options` as written: `DistutilsOptionError` is not imported in
   * setup.py, so evaluating the name in either `raise` raises `NameError`.
   */
  function ResolveOptionsAsWritten(output: Option<string>, parser: Option<string>): (r: Result<ParserRef, OptionError>)
    ensures output.None? || parser.None? ==> r == Failure(NameError("DistutilsOptionError"))
    ensures output.Some? && parser.Some? ==> r == ParseParserOption(parser.value)
  {
    if output.None? || parser.None? then Failure(NameError("DistutilsOptionError"))
    else ParseParserOption(parser.value)
  }

  /** The two versions part ways exactly when an option is missing. */
  lemma MissingOptionRaisesNameError(output: Option<string>, parser: Option<string>)
    ensures ResolveOptionsAsWritten(output, parser) != ResolveOptions(output, parser) <==>
      output.None? || parser.None?
    ensures output.None? || parser.None? ==>
      ResolveOptionsAsWritten(output, parser).error.NameError? &&
      ResolveOptions(output, parser).error.DistutilsOptionError?
  {
  }

  /** A `module:function` option with one colon resolves to its two halves. */
  lemma {:induction false} ParserOptionRoundTrip(modName: string, funcName: string)
    requires ':' !in modName && ':' !in funcName
    ensures ParseParserOption(modName + ":" + funcName) ==
      Success(ParserRef(modName, funcName, Split(modName, '.')))
  {
    var parts := [modName, funcName];
    assert Join(parts, ":") == modName + ":" + funcName;
    SplitOfJoin(parts, ':');
  }

  /** The options of the command object; `finalize_options` records what `--parser` names. */
  class BuildManPage {
    var output: Option<string>
    var parser: Option<string>
    /** The module and attribute `self._parser` is obtained from, once resolved. */
    var resolved: Option<ParserRef>
    /** The messages passed to `announce`. */
    var announced: seq<string>

    /** distutils runs `initialize_options` when the command is created. */
    constructor ()
      ensures output.None? && parser.None? && resolved.None? && announced == []
    {
      output := None;
      parser := None;
      resolved := None;
      announced := [];
    }

    /** `initialize_options`: both options unset. */
    method InitializeOptions()
      modifies this
      ensures output.None? && parser.None?
      ensures resolved == old(resolved) && announced == old(announced)
    {
      output := None;
      parser := None;
    }

    /**
     * `finalize_options` as intended (`ResolveOptions`, not the NameError of
     * the code as written): checks the options, splits `--parser`, and on
     * success records the reference and announces the output file.
     */
    method FinalizeOptions() returns (err: Option<OptionError>)
      modifies this
      ensures output == old(output) && parser == old(parser)
      ensures old(ResolveOptions(output, parser)).Failure? ==>
        err == Some(old(ResolveOptions(output, parser)).error) &&
        resolved == old(resolved) && announced == old(announced)
      ensures old(ResolveOptions(output, parser)).Success? ==>
        err.None? && resolved == Some(old(ResolveOptions(output, parser)).value) &&
        announced == old(announced) + ["Writing man page " + output.value]
    {
      if output.None? {
        return Some(DistutilsOptionError(OutputRequired));
      }
      if parser.None? {
        return Some(DistutilsOptionError(ParserRequired));
      }
      var parts := Split(parser.value, ':');
      if |parts| != 2 {
        return Some(UnpackError(|parts|));
      }
      var modName, funcName := parts[0], parts[1];
      var fromlist := Split(modName, '.');
      resolved := Some(ParserRef(modName, funcName, fromlist));
      announced := announced + ["Writing man page " + output.value];
      err := None;
    }
  }
}
