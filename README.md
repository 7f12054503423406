# DataLad: man page generation, version lookup and `ls` of S3 locations

This project models three pieces of DataLad in Dafny and proves properties about them.

- **Packaging code in `setup.py`:**
  - how the package version is read out of `datalad/version.py` without importing the package;
  - the option checks of the `build_manpage` setup command;
  - the `ManPageFormatter`, which turns an argparse parser into a troff man page. It covers escaping, bold and underline markup, and the title, NAME, DESCRIPTION and footer sections. The page is assembled in a fixed order, and each option's invocation is rendered as `-s ARGS, --long ARGS`.
- **The `datalad ls` command** (`datalad/interface/ls.py`):
  - how a location is routed;
  - how an `s3://` URL is taken apart into a bucket name and a key prefix;
  - the "Bucket info" block;
  - the per-version listing with its URL, ACL and content columns.

**Side effects as a trace.** The S3 listing talks to the network and prints to the user. The model records this as a *trace*:
- `Message` and `ErrorMessage` events stand for what is printed;
- `ListVersions` and `GetContents` events stand for the requests made;
- an optional failure stands for the exception that ends the run.

**The S3 service as a value.** Connecting to the bucket, listing its versions, `get_contents_as_string`, `repr` and md5 are supplied as an `S3` value of functions. Connecting yields the bucket's status: its versioning, website and ACL probes. Each listed key version carries, as fields of the entry, the outcome of `urlopen` on its URL and of its own `get_acl`.

**Structure.**
- Python's string operations are written out in module `Text`: `split`, `join`, `strip(chars)`, `replace`, `upper`, `%-Ns` and `in` on strings.
- Everything else is stated in terms of those operations.
- Each loop of the source is a `method` with a `while` loop. It is proved equal to a specification function, and the properties are proved about that function.
- `ManPageFormatter` and `BuildManPage` are classes, as in the source.
- `_ls_s3` is one long function. The model splits it into `ListS3` (parsing), `ListBucket` (connection, info and the version request), `ListEntries` (the loop) and `ListEntry` (one loop iteration).

**Version extraction follows the code.** The code takes the piece between the first and the second `=` of the `__version__` line, not everything after the first `=`. `SecondEqualsEndsVersion` states this consequence.

## Model

| member | source | states |
|---|---|---|
| `ManPage.MarkupWithoutDash` | setup.py:232-233 | text without `-` is returned unchanged |
| `ManPage.Markup` | setup.py:232-233 | the escaped text is one character longer for every `-` in the input, and no other character changes length |
| `ManPage.DashEscapeLength` | setup.py:233 | replacing every `-` by `\-` adds exactly one character per `-` |
| `ManPage.MarkupEscapesEveryDash` | setup.py:232-233 | every `-` of the output is preceded by a backslash |
| `ManPage.MarkupRoundTrip` | setup.py:232-233 | removing the backslash before each escaped `-` gives the input back |
| `ManPage.Underline` | setup.py:235-236 | the result starts with the italic-smaller marker, ends with the reset marker, and holds the text unchanged between them |
| `ManPage.ManPageFormatter.Bold` | setup.py:238-243 | the two guarded reassignments compute `Bolded(s)`: `\fB` is added unless the stripped text starts with it, and `\fR` unless it ends with it |
| `ManPage.EndsWithAfterBoldOn` | setup.py:239-241 | adding `\fB` in front does not change what the second test sees at the end of the stripped text |
| `ManPage.BoldedIsBold` | setup.py:238-243 | after `_bold`, the stripped text always starts with `\fB` and ends with `\fR` |
| `ManPage.BoldedUnchangedIffBold` | setup.py:238-243 | `_bold` leaves a string unchanged exactly when its stripped form already starts with `\fB` and ends with `\fR` |
| `ManPage.BoldedIdempotent` | setup.py:238-243 | bolding twice is bolding once |
| `ManPage.ManPageFormatter.constructor` | setup.py:208-227 | the formatter keeps program, date, descriptions and extra sections; its section is 1 whatever section it is given |
| `ManPage.ManPageFormatter.MkTitle` | setup.py:256-258 | the title is the `.TH` line with the program, section 1 and the date |
| `ManPage.NameSectionSplit` | setup.py:265-266 | for a name and description without line breaks, the NAME text has three lines: the heading, `prog \- description`, and an empty last one |
| `ManPage.ManPageFormatter.MakeName` | setup.py:260-266 | the NAME section is the heading line and `prog \- description`, with a missing description printed as `None` |
| `ManPage.ManPageFormatter.MkDescription` | setup.py:268-273 | empty exactly when there is no long description; otherwise a DESCRIPTION heading and a final line break around a body that is `_markup` of the description with every line break turned into a `.br` line, so that unescaping the body gives that text back |
| `ManPage.FooterAppend` | setup.py:279-284 | each further section adds a line break and its block at the end, so the blocks appear in iteration order |
| `ManPage.FooterHasEverySection` | setup.py:280-282 | every section appears in the footer as `.SH NAME` (upper-cased) followed by its value |
| `ManPage.ManPageFormatter.MkFooter` | setup.py:275-284 | the loop builds the footer specified by `Footer`; no sections give an empty footer |
| `ManPage.ManPageFormatter.FormatManPage` | setup.py:286-294 | the page is title, synopsis, description, options and footer in that order, and starts with the `.TH` line |
| `ManPage.OptionParts` | setup.py:319-334 | one part per option string, in the order of the option strings |
| `ManPage.OptionPartsGrow` | setup.py:324-334 | appending the part of the next option string extends the parts list by exactly that option's entry |
| `ManPage.OptionPartInInvocation` | setup.py:319-336 | every option's part occurs in the joined invocation |
| `ManPage.InvocationListsEveryOption` | setup.py:319-336 | every option string occurs, bolded, in the invocation |
| `ManPage.BoldedStartsPart` | setup.py:330-334 | for an option that takes a value, its part contains the bolded option |
| `ManPage.InvocationShowsArgument` | setup.py:329-336 | for an option that takes a value, each bolded option string is followed by a space and the argument text |
| `ManPage.SingleFlagInvocation` | setup.py:323-325 | a flag with one option string and no value is rendered as that string bolded |
| `ManPage.ManPageFormatter.FormatActionInvocation` | setup.py:313-336 | the two loops compute `Invocation`: the metavar for a positional, otherwise the parts joined by `, ` |
| `SetupVersion.VersionLines` | setup.py:26 | the kept lines are exactly the lines starting with `__version__` |
| `SetupVersion.VersionLinesAppend` | setup.py:26 | filtering distributes over concatenation of the file's lines |
| `SetupVersion.ExtractVersion` | setup.py:25-28 | AssertionError exactly when the number of `__version__` lines is not one; IndexError exactly when that line has no `=`; otherwise a substring of the line without `=`, neither starting nor ending with a blank, quote or line end |
| `SetupVersion.VersionRoundTrip` | setup.py:25-28 | a file with a single line `__version__ = '<v>'` yields `v` |
| `SetupVersion.SecondEqualsEndsVersion` | setup.py:28 | a second `=` ends the version: `__version__ = 'a=b'` yields `a` |
| `Text.SplitCount` | setup.py:140 | splitting on a character gives one piece more than the number of its occurrences |
| `BuildManPageCommand.ParseParserOption` | setup.py:140-141 | succeeds exactly when the option holds one `:`; the module and function names rejoin to the option; the `fromlist` is one or more dot-free pieces that join back to the module name with `.`, i.e. `mod_name.split('.')`; otherwise the unpacking error reports how many pieces it got |
| `BuildManPageCommand.ParserOptionRoundTrip` | setup.py:140-141 | `module:function` with one colon resolves to its two halves |
| `BuildManPageCommand.ResolveOptions` | setup.py:135-141 | a missing `output` is reported first, then a missing `parser`, each as a DistutilsOptionError with its message; otherwise the parser option is split |
| `BuildManPageCommand.ResolveOptionsAsWritten` | setup.py:135-141 | as written, either missing option raises NameError for `DistutilsOptionError` |
| `BuildManPageCommand.MissingOptionRaisesNameError` | setup.py:135-139 | the code as written and as intended differ exactly when an option is missing |
| `BuildManPageCommand.BuildManPage.constructor` | setup.py:131-133 | a new command has neither option set |
| `BuildManPageCommand.BuildManPage.InitializeOptions` | setup.py:131-133 | both options become unset and nothing else changes |
| `BuildManPageCommand.BuildManPage.FinalizeOptions` | setup.py:135-150 | follows the corrected `ResolveOptions`, so a missing option gives a DistutilsOptionError rather than the NameError of the code as written; on an error nothing changes and the error is returned; on success the parser reference is recorded and `Writing man page <output>` is announced |
| `LsLocation.RouteOf` | datalad/interface/ls.py:76-82 | the S3 listing is chosen exactly for `s3://` locations; the dataset listing only when the path and its `.git` exist; otherwise one of them is missing |
| `LsLocation.StripQuery` | datalad/interface/ls.py:105-107 | the result has no `?`, is a prefix of the input, equals the input exactly when there is no `?`, and is followed by the first `?` |
| `LsLocation.StripQueryIdempotent` | datalad/interface/ls.py:105-107 | dropping the query twice is dropping it once |
| `LsLocation.StripQueryOfQuery` | datalad/interface/ls.py:105-107 | everything from the first `?` on is dropped, whatever follows it |
| `LsLocation.ParseS3Location` | datalad/interface/ls.py:91-107 | a non-`s3://` location raises the ValueError; one without `/` after the scheme fails to unpack; otherwise the bucket has no `/`, the prefix has no `?`, the location starts with scheme, bucket, `/` and prefix, and the query flag is set exactly when the rest held a `?` |
| `LsLocation.ParseS3RoundTrip` | datalad/interface/ls.py:91-107 | `s3://bucket/prefix` parses back to the bucket and the prefix |
| `LsLocation.ParseS3WithQuery` | datalad/interface/ls.py:91-107 | with a query appended, the bucket and prefix are the same and the query is noted |
| `LsLocation.Delimiter` | datalad/interface/ls.py:151 | a delimiter is passed exactly when not recursive, and it is `/` |
| `LsS3.InfoLines` | datalad/interface/ls.py:138-148 | three lines, one per probe in the order Versioning, Website, ACL: each is a space, the right-aligned probe name and `: `, followed by the probe's value or, for a failing probe, the first line of its error |
| `LsS3.BucketInfo` | datalad/interface/ls.py:138-149 | the loop builds the "Bucket info" message specified by `InfoMessage` |
| `LsS3.InfoValuesAligned` | datalad/interface/ls.py:139-148 | the three probe names are padded so that every `: ` sits in the same column |
| `LsS3.InfoLineIsOneLine` | datalad/interface/ls.py:144-148 | an info line holds no line break: a failing probe reports only the first line of its error |
| `LsS3.ContentField` | datalad/interface/ls.py:179-199 | no content column without `list_content`; an unknown mode raises ValueError and fetches nothing; one request is made for the key and its version, with the range `bytes=0-9` exactly for `first10`; for `full` and `first10` the field is a space and the repr of the content, for `md5` a space and the digest, and for an S3 error a space and the error's message |
| `LsS3.TrueModeRaises` | datalad/interface/ls.py:185-194 | `list_content=True` passes neither mode test and raises ValueError with the text `True` |
| `LsS3.ModeFirstTen` | datalad/interface/ls.py:185-187 | of the two fetching modes, only `first10` passes the substring test that requests the byte range |
| `LsS3.DetailLineStart` | datalad/interface/ls.py:201 | the detail line starts with `ver:`, the version id padded to 32 characters, and `  acl:` |
| `LsS3.DetailLineParts` | datalad/interface/ls.py:201 | after `acl:` the line holds the ACL, two spaces, the URL and the bracketed URL status, and it ends with the bracketed status followed by the content field |
| `LsS3.EntryTrace` | datalad/interface/ls.py:158-204 | a common prefix prints its name alone; every other entry first prints its name line; a delete marker adds `del` only with `all`; a version that is not latest is skipped unless `all`; for a shown version, a failing `urlopen` ends the run with UrlError after the name line; otherwise the run fails exactly when the content step raises, and then it has printed only the name line, fetched nothing and carries that step's error; on success it prints the name line, the content request if any, and the detail line built from the version id, the ACL text (or the S3 error message), the URL, `OK` or `E: <code>`, and the content field |
| `LsS3.ListEntry` | datalad/interface/ls.py:158-204 | one iteration of the loop produces `EntryTrace` |
| `LsS3.MaxNameLength` | datalad/interface/ls.py:157 | the width bounds every name and is attained by one of them |
| `LsS3.NameColumnAligned` | datalad/interface/ls.py:157-162 | every name line pads its name to the same width, so the modification times line up |
| `LsS3.ListEntries` | datalad/interface/ls.py:158-204 | the loop over the versions produces `Listing`, stopping at the first exception |
| `LsS3.ListingStopsAtFailure` | datalad/interface/ls.py:158-204 | once an entry raises, the entries after it add nothing |
| `LsS3.ListingGrows` | datalad/interface/ls.py:158-204 | what the first entries print is a prefix of what all the entries print |
| `LsS3.ListingStep` | datalad/interface/ls.py:158-204 | adding one entry only appends output |
| `LsS3.ListingSnoc` | datalad/interface/ls.py:158-204 | while nothing has failed, the next entry's trace is appended |
| `LsS3.NoContentNoFetch` | datalad/interface/ls.py:179-180 | without `list_content`, no object content is ever requested |
| `LsS3.ListingSucceeds` | datalad/interface/ls.py:158-204 | with no content mode or one of `full`, `first10`, `md5`, and no shown key whose URL check fails outright, the listing ends without an exception |
| `LsS3.UnknownModeRaises` | datalad/interface/ls.py:163-199 | with an unknown content mode, the listing ends with a ValueError naming the mode exactly when some key is shown (provided no shown key's URL check fails outright) |
| `LsS3.NoListRequestInListing` | datalad/interface/ls.py:158-204 | the per-entry loop makes no further listing request |
| `LsS3.ListRequestedOnce` | datalad/interface/ls.py:149-152 | after a successful connection, the bucket's versions are listed exactly once, with the prefix and the delimiter |
| `LsS3.ListS3` | datalad/interface/ls.py:89-107 | a location that does not parse ends the run with its error; otherwise the run is the bucket session |
| `LsS3.ListBucket` | datalad/interface/ls.py:105-204 | the query notice, the connecting message, the bucket info, the version request, and then the listing (or the "no output" error for an empty one), as `Session` specifies |
| `LsS3.Ls` | datalad/interface/ls.py:70-86 | an `s3://` location runs the S3 listing; a local dataset raises NotImplementedError; anything else raises ValueError with the unsupported-location message |

## Left out

- `datalad/support/parallel.py` (the producer/consumer helper) is not part of this model. It is threading machinery that the modelled code does not call.
- Reading `datalad/version.py` is left out. The model takes the file as its sequence of lines, each with its line end.
- argparse internals are given as parameters:
  - the rendered usage and option help (`_mk_synopsis`, `_mk_options`);
  - `_format_args`;
  - the metavar of a positional.
  The `metavar, = ...` unpacking of a tuple metavar is not modelled.
- `ManPage.ManPageFormatter.MkSynopsis`: no contract. It takes the usage as argparse rendered it, deletes every occurrence of `<prog> ` from it (not only the leading one), and puts it after the `.SH SYNOPSIS` heading and the program name, which is passed through `_markup` and set in bold.
- `ManPage.ManPageFormatter.MkOptions`: no contract. It puts the option help that argparse rendered after the `.SH OPTIONS` heading.
- The date (`datetime.date.today`) is a string parameter of the formatter.
- `_mk_footer` takes its sections as a list of pairs in the dictionary's iteration order. An iterable without `items()` (which raises in the source) is not modelled.
- `BuildManPage.run` is left out. It writes the page to a file.
- In `finalize_options`, `__import__` of the parser module, the call of its factory, and the re-raised ImportError are left out. The model records the module name, function name and `fromlist` that would be used.
- Bucket lookup in `_ls_s3` (lines 109-135) is one opaque `connect` function whose failure is `ConnectError`. This covers:
  - boto's connection;
  - the configuration file and credentials;
  - the search through all buckets, and its messages.
- The boto and hashlib imports (lines 96-101) are left out. ImportError is not modelled.
- Any failure of `list_versions` (line 152), S3 errors included, is not modelled: the source catches nothing there, and the model's `listVersions` always returns a list of entries.
- Exceptions from `get_acl` and the content fetch that are not S3 errors are not modelled.
- A `urlopen` failure other than an HTTP status ends the listing with `UrlError`, since the source does not catch it.
- `repr` and md5 are opaque functions. The model does not reproduce Python's byte-string repr or the digest.
- Non-string values of `list_content` other than `None` and `False` (both `NoContent`) are written as the mode named by their `str`: a truthy non-string value is in neither mode set and differs from `md5`, so it raises ValueError at line 194, as `Mode("True")` does (`TrueModeRaises`). An unhashable value, for which the set test at line 185 raises TypeError, is not modelled.
- `ui.message` and `ui.error` output is recorded as events rather than written to a terminal.
- `os.path.lexists` is a parameter.
- `_ls_dataset` only raises NotImplementedError, and that is what is modelled.
- `strip()` and `upper()` are modelled on ASCII only. Unicode whitespace and case mapping are left out.
- Python reports a failed `a, b = ...` unpacking with a message that depends on the interpreter version. Both unpacking errors are modelled as `UnpackError(got)`, with `got` the number of pieces.
- `SetupVersion.ExtractVersion`: on an arbitrary line, the contract bounds the result rather than giving it. The result is a substring of the line without `=`, and it neither starts nor ends with a blank, quote or line end. The exact value is given by `VersionRoundTrip` and `SecondEqualsEndsVersion`.
- `ManPage.ManPageFormatter.MakeName`: its contract gives the lines of the section only for a name and description without line breaks.

## Findings

| source | as written | input that shows it | evidently intended | confidence | as-written member | corrected member |
|---|---|---|---|---|---|---|
| setup.py:137-139 | `finalize_options` raises `DistutilsOptionError`, but setup.py never imports or defines that name, so evaluating it raises NameError | `build_manpage` run without `--output` (output is None) | a DistutilsOptionError saying the `output` option is required (and likewise for `parser`) | high, not executed | `BuildManPageCommand.ResolveOptionsAsWritten` | `BuildManPageCommand.ResolveOptions` |
