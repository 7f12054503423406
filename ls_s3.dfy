/**
 * `Ls._ls_s3`: what listing an S3 location prints and requests.  S3 itself
 * (connecting, the bucket's status, the listing, fetching a key's
 * content), `repr` and md5 are given as an `S3` value of functions; the
 * listing's output is a trace of the messages printed and the requests
 * made, ending with the exception that stopped it, if any.
 */
module LsS3 {
  import opened Wrappers
  import opened Text
  import opened LsLocation

  const QueryMessage := "We do not care about URL options ATM, they get stripped"
  const FirstTenBytes := "bytes=0-9"

  /** The outcome of `urlopen` on a key's http URL. */
  datatype UrlCheck =
    | UrlOk
    | UrlHttpError(code: nat)
    /** Any other failure; it is not caught and ends the listing. */
    | UrlFailure(reason: string)

  /**
   * One element of `bucket.list_versions(...)`: a common prefix, a key
   * version, or a delete marker.  For a key, what `get_key_url`, `urlopen`
   * and `get_acl` give back is part of the entry; a failing `get_acl`
   * carries the S3 error's message.
   */
  datatype Entry =
    | PrefixEntry(name: string)
    | KeyEntry(name: string, lastModified: string, versionId: Option<string>, isLatest: bool,
               url: string, urlCheck: UrlCheck, acl: Result<string, string>)
    | DeleteMarkerEntry(name: string, lastModified: string)

  /** `get_contents_as_string(version_id=..., headers={'Range': ...})` */
  datatype ContentRequest = ContentRequest(key: string, versionId: Option<string>, range: Option<string>)

  datatype Event =
    /** `ui.message(text, cr=cr)`; `cr` is a line break unless given. */
    | Message(text: string, cr: string)
    | ErrorMessage(text: string)
    | ListVersions(bucket: string, prefix: string, delimiter: Option<string>)
    | GetContents(request: ContentRequest)

  /** What a run printed and requested, in order, and the exception that ended it. */
  datatype Trace = Trace(events: seq<Event>, failure: Option<LsError>)

  /** The `list_content` argument: unset, or a mode name. */
  datatype ListContent = NoContent | Mode(name: string)

  /** What `get_versioning_status`, `get_website_endpoint` and `get_acl` return, or their error text. */
  datatype BucketStatus = BucketStatus(
    versioning: Result<string, string>,
    website: Result<string, string>,
    acl: Result<string, string>)

  /** The calls `_ls_s3` makes into boto, `repr` and md5. */
  datatype S3 = S3(
    connect: string -> Result<BucketStatus, LsError>,
    listVersions: (string, string, Option<string>) -> seq<Entry>,
    /** The content, or the message of the S3 error raised. */
    fetch: ContentRequest -> Result<string, string>,
    reprBytes: string -> string,
    reprText: string -> string,
    md5Hex: string -> string)

  /** Python truthiness of `list_content`: a non-empty mode name. */
  predicate WantsContent(content: ListContent) {
    content.Mode? && content.name != ""
  }

  // ---------------------------------------------------------------- bucket info

  /** One line of the bucket info: a right-aligned name and the value, or the first line of the error. */
  function InfoLine(name: string, value: Result<string, string>): string {
    " " + name + ": " + (match value case Success(v) => v case Failure(err) => FirstLine(err))
  }

  function Probes(b: BucketStatus): seq<(string, Result<string, string>)> {
    [("Versioning", b.versioning), ("   Website", b.website), ("       ACL", b.acl)]
  }

  /**
   * One line per probe, in the order Versioning, Website, ACL: the
   * right-aligned name and `: ` fill the first 13 columns, then comes the
   * probe's value or the first line of its error.
   */
  function InfoLines(b: BucketStatus): (r: seq<string>)
    ensures |r| == 3
    ensures forall k :: 0 <= k < 3 ==> |r[k]| >= 13 && r[k][..13] == " " + Probes(b)[k].0 + ": "
    ensures forall k :: 0 <= k < 3 && Probes(b)[k].1.Success? ==> r[k][13..] == Probes(b)[k].1.value
    ensures forall k :: 0 <= k < 3 && Probes(b)[k].1.Failure? ==> r[k][13..] == FirstLine(Probes(b)[k].1.error)
  {
    seq(3, i requires 0 <= i < 3 => InfoLine(Probes(b)[i].0, Probes(b)[i].1))
  }

  function InfoMessage(b: BucketStatus): string {
    "Bucket info:\n " + Join(InfoLines(b), "\n ")
  }

  /** The loop of lines 138-149: one line per probe, then a single message. */
  method BucketInfo(b: BucketStatus) returns (msg: string)
    ensures msg == InfoMessage(b)
  {
    var probes := Probes(b);
    var info: seq<string> := [];
    var i := 0;
    while i < |probes|
      invariant 0 <= i <= |probes|
      invariant info == InfoLines(b)[..i]
    {
      var (iname, result) := probes[i];
      var ival := match result case Success(v) => v case Failure(err) => FirstLine(err);
      info := info + [" " + iname + ": " + ival];
      i := i + 1;
    }
    assert info == InfoLines(b);
    msg := "Bucket info:\n " + Join(info, "\n ");
  }

  /** The three names are right-aligned: every value starts in column 13. */
  lemma InfoValuesAligned(b: BucketStatus, k: nat)
    requires k < 3
    ensures InfoLines(b)[k][11..13] == ": "
  {
    var (name, _) := Probes(b)[k];
    assert |name| == 10;
  }

  /** A failing probe still yields a single line: only the first line of its error is shown. */
  lemma InfoLineIsOneLine(name: string, value: Result<string, string>)
    requires '\n' !in name
    requires value.Success? ==> '\n' !in value.value
    ensures '\n' !in InfoLine(name, value)
  {
    var v := match value case Success(v) => v case Failure(err) => FirstLine(err);
    var line := " " + name + ": " + v;
    forall i | 0 <= i < |line|
      ensures line[i] != '\n'
    {
      if i < 1 + |name| + 2 {
        if 1 <= i < 1 + |name| {
          assert line[i] == name[i - 1];
        }
      } else {
        assert line[i] == v[i - 3 - |name|];
      }
    }
  }

  // ---------------------------------------------------------------- one entry

  /** `repr` or md5 of what S3 returned; an S3 error shows as its message. */
  function Rendered(fetched: Result<string, string>, render: string -> string): string {
    match fetched
    case Success(body) => render(body)
    case Failure(message) => message
  }

  /** The requests the content field needs and the field itself, or the exception raised. */
  datatype ContentStep = ContentStep(requests: seq<Event>, field: Result<string, LsError>)

  /**
   * Lines 179-199: no field without `list_content`; for `full` and
   * `first10` the repr of the content (`first10` asks for its first ten
   * bytes only), for `md5` its digest, and a `ValueError` for any other mode.
   */
  function ContentField(key: string, versionId: Option<string>, content: ListContent, s3: S3): (r: ContentStep)
    ensures !WantsContent(content) ==> r == ContentStep([], Success(""))
    ensures WantsContent(content) && r.field.Success? ==> StartsWith(r.field.value, " ")
    ensures r.field.Failure? <==> WantsContent(content) && content.name !in {"full", "first10", "md5"}
    ensures r.field.Failure? ==> r == ContentStep([], Failure(ValueError(content.name)))
    ensures r.field.Success? && WantsContent(content) ==>
      |r.requests| == 1 && r.requests[0].GetContents? &&
      r.requests[0].request.key == key && r.requests[0].request.versionId == versionId &&
      r.requests[0].request.range == (if content.name == "first10" then Some(FirstTenBytes) else None)
    ensures r.field.Success? && WantsContent(content) ==>
      var fetched := s3.fetch(r.requests[0].request);
      (fetched.Success? && content.name != "md5" ==> r.field.value == " " + s3.reprBytes(fetched.value)) &&
      (fetched.Success? && content.name == "md5" ==> r.field.value == " " + s3.md5Hex(fetched.value)) &&
      (fetched.Failure? ==> r.field.value == " " + fetched.error)
  {
    if !WantsContent(content) then ContentStep([], Success(""))
    else
      var mode := content.name;
      if mode in {"full", "first10"} then
        ModeFirstTen(mode);
        assert mode != "md5";
        var range := if IsInfix(mode, "first10") then Some(FirstTenBytes) else None;
        var req := ContentRequest(key, versionId, range);
        ContentStep([GetContents(req)], Success(" " + Rendered(s3.fetch(req), s3.reprBytes)))
      else if mode == "md5" then
        var req := ContentRequest(key, versionId, None);
        ContentStep([GetContents(req)], Success(" " + Rendered(s3.fetch(req), s3.md5Hex)))
      else ContentStep([], Failure(ValueError(mode)))
  }

  /**
   * `list_content=True` is neither in `{'full', 'first10'}` nor equal to
   * `'md5'`, so it takes the unknown-mode path of line 194; the model writes
   * it as the mode `"True"`, its `str`, and the error carries that text.
   */
  lemma TrueModeRaises(key: string, versionId: Option<string>, s3: S3)
    ensures ContentField(key, versionId, Mode("True"), s3) == ContentStep([], Failure(ValueError("True")))
  {
  }

  /** `list_content in 'first10'` is a substring test; of the two modes it lets through, only `first10` passes. */
  lemma ModeFirstTen(mode: string)
    requires mode in {"full", "first10"}
    ensures IsInfix(mode, "first10") <==> mode == "first10"
  {
    var h := "first10";
    assert StartsWith(h, h);
    if mode == "full" {
      var h1, h2, h3, h4 := h[1..], h[2..], h[3..], h[4..];
      assert h1 == "irst10" && h2 == "rst10" && h3 == "st10" && h4 == "t10";
      assert h1[1..] == h2 && h2[1..] == h3 && h3[1..] == h4;
      TooShortNoInfix(mode, h4);
      assert !StartsWith(h3, mode) by { assert h3[..4][0] != mode[0]; }
      assert !StartsWith(h2, mode) by { assert h2[..4][0] != mode[0]; }
      assert !StartsWith(h1, mode) by { assert h1[..4][0] != mode[0]; }
      assert !StartsWith(h, mode) by { assert h[..4][1] != mode[1]; }
    }
  }

  /** `"%%-%ds %%s" % max_length`: the name padded on the right to the column width, then the date. */
  function NameLine(name: string, lastModified: string, width: nat): string {
    PadRight(name, width) + " " + lastModified
  }

  /** `urlok`: `OK`, or the HTTP status of the failed check. */
  function UrlStatus(check: UrlCheck): string
    requires !check.UrlFailure?
  {
    match check
    case UrlOk => "OK"
    case UrlHttpError(code) => "E: " + NatToString(code)
  }

  function AclText(acl: Result<string, string>): string {
    match acl
    case Success(v) => v
    case Failure(message) => message
  }

  /** Line 201: version (padded to 32), ACL, URL, URL status and the content field. */
  function DetailLine(versionId: Option<string>, acl: string, url: string, status: string, field: string): string {
    "ver:" + PadRight(PyStr(versionId), 32) + "  acl:" + acl + "  " + url + " [" + status + "]" + field
  }

  lemma DetailLineStart(versionId: Option<string>, acl: string, url: string, status: string, field: string)
    ensures StartsWith(DetailLine(versionId, acl, url, status, field), "ver:" + PadRight(PyStr(versionId), 32) + "  acl:")
  {
    var prefix := "ver:" + PadRight(PyStr(versionId), 32) + "  acl:";
    var line := DetailLine(versionId, acl, url, status, field);
    assert line == prefix + (acl + "  " + url + " [" + status + "]" + field);
    assert line[..|prefix|] == prefix;
  }

  /** After `acl:` come the ACL, the URL, the bracketed URL status and the content field, in that order. */
  lemma DetailLineParts(versionId: Option<string>, acl: string, url: string, status: string, field: string)
    ensures EndsWith(DetailLine(versionId, acl, url, status, field), " [" + status + "]" + field)
    ensures IsInfix("  acl:" + acl + "  " + url + " [" + status + "]", DetailLine(versionId, acl, url, status, field))
  {
    var head := "ver:" + PadRight(PyStr(versionId), 32);
    var mid := "  acl:" + acl + "  " + url + " [" + status + "]";
    var tail := " [" + status + "]" + field;
    var line := DetailLine(versionId, acl, url, status, field);
    assert line == head + mid + field;
    InfixOfConcat(head, mid, field);
    assert line == (head + "  acl:" + acl + "  " + url) + tail;
    assert line[|line| - |tail|..] == tail;
  }

  /** Whether a key gets its detail line: the latest version, or every version with `all`. */
  predicate Shown(e: Entry, all: bool) {
    e.KeyEntry? && (e.isLatest || all)
  }

  /**
   * One turn of the loop of lines 158-204: a prefix prints its name; any
   * other entry prints its name line, then a shown key its detail line
   * and a delete marker `del` when `all` is set.
   */
  function EntryTrace(e: Entry, width: nat, all: bool, content: ListContent, s3: S3): (t: Trace)
    ensures e.PrefixEntry? ==> t == Trace([Message(e.name, "\n")], None)
    ensures !e.PrefixEntry? ==> t.events != [] && t.events[0] == Message(NameLine(e.name, e.lastModified, width), " ")
    ensures e.DeleteMarkerEntry? ==>
      t.failure.None? && t.events[1..] == (if all then [Message("del", "\n")] else [])
    ensures e.KeyEntry? && !Shown(e, all) ==> t == Trace([Message(NameLine(e.name, e.lastModified, width), " ")], None)
    ensures t.failure.Some? ==> Shown(e, all)
    ensures Shown(e, all) && t.failure.None? ==>
      |t.events| >= 2 && t.events[|t.events| - 1].Message? &&
      StartsWith(t.events[|t.events| - 1].text, "ver:" + PadRight(PyStr(e.versionId), 32) + "  acl:")
    ensures Shown(e, all) && e.urlCheck.UrlFailure? ==>
      t == Trace([Message(NameLine(e.name, e.lastModified, width), " ")], Some(UrlError(e.urlCheck.reason)))
    ensures Shown(e, all) && !e.urlCheck.UrlFailure? ==>
      var step := ContentField(e.name, e.versionId, content, s3);
      (t.failure.None? <==> step.field.Success?) &&
      (step.field.Failure? ==> t == Trace([Message(NameLine(e.name, e.lastModified, width), " ")], Some(step.field.error))) &&
      (step.field.Success? ==>
        t.events == [Message(NameLine(e.name, e.lastModified, width), " ")] + step.requests +
          [Message(DetailLine(e.versionId, AclText(e.acl), e.url, UrlStatus(e.urlCheck), step.field.value), "\n")])
  {
    match e
    case PrefixEntry(name) => Trace([Message(name, "\n")], None)
    case DeleteMarkerEntry(name, lastModified) =>
      Trace([Message(NameLine(name, lastModified, width), " ")] + (if all then [Message("del", "\n")] else []), None)
    case KeyEntry(name, lastModified, versionId, isLatest, url, check, acl) =>
      var head := [Message(NameLine(name, lastModified, width), " ")];
      if !(isLatest || all) then Trace(head, None)
      else if check.UrlFailure? then Trace(head, Some(UrlError(check.reason)))
      else
        var step := ContentField(name, versionId, content, s3);
        match step.field
        case Failure(err) => Trace(head + step.requests, Some(err))
        case Success(field) =>
          var line := DetailLine(versionId, AclText(acl), url, UrlStatus(check), field);
          DetailLineStart(versionId, AclText(acl), url, UrlStatus(check), field);
          Trace(head + step.requests + [Message(line, "\n")], None)
  }

  // ---------------------------------------------------------------- the listing

  /** `max(len(e.name) for e in entries)`, 0 for no entries. */
  function MaxNameLength(entries: seq<Entry>): (w: nat)
    ensures forall i :: 0 <= i < |entries| ==> |entries[i].name| <= w
    ensures entries != [] ==> exists i :: 0 <= i < |entries| && |entries[i].name| == w
    decreases |entries|
  {
    if entries == [] then 0
    else
      var init := entries[..|entries| - 1];
      var w0 := MaxNameLength(init);
      var n := |entries[|entries| - 1].name|;
      assert forall i :: 0 <= i < |init| ==> entries[i] == init[i];
      if w0 < n then n else w0
  }

  /** Name lines all have the same width: the names are padded to the longest one. */
  lemma NameColumnAligned(entries: seq<Entry>, k: nat)
    requires k < |entries| && !entries[k].PrefixEntry?
    ensures var line := NameLine(entries[k].name, entries[k].lastModified, MaxNameLength(entries));
      var w := MaxNameLength(entries);
      |line| == w + 1 + |entries[k].lastModified| &&
      StartsWith(line, entries[k].name) && line[w] == ' ' && line[w + 1..] == entries[k].lastModified
  {
    var w := MaxNameLength(entries);
    var padded := PadRight(entries[k].name, w);
    assert |padded| == w;
    var line := padded + " " + entries[k].lastModified;
    assert line[..|entries[k].name|] == padded[..|entries[k].name|];
  }

  /** The loop over the entries: it stops at the first exception. */
  function Listing(entries: seq<Entry>, width: nat, all: bool, content: ListContent, s3: S3): Trace
    decreases |entries|
  {
    if entries == [] then Trace([], None)
    else
      var t := Listing(entries[..|entries| - 1], width, all, content, s3);
      if t.failure.Some? then t
      else
        var u := EntryTrace(entries[|entries| - 1], width, all, content, s3);
        Trace(t.events + u.events, u.failure)
  }

  /** Once an entry raises, later entries add nothing. */
  lemma {:induction false} ListingStopsAtFailure(entries: seq<Entry>, i: nat, width: nat, all: bool, content: ListContent, s3: S3)
    requires i <= |entries|
    requires Listing(entries[..i], width, all, content, s3).failure.Some?
    ensures Listing(entries, width, all, content, s3) == Listing(entries[..i], width, all, content, s3)
    decreases |entries| - i
  {
    if i < |entries| {
      var e := entries[..i + 1];
      assert e[..|e| - 1] == entries[..i];
      ListingStopsAtFailure(entries, i + 1, width, all, content, s3);
    } else {
      assert entries[..i] == entries;
    }
  }

  /** What a prefix of the entries prints is printed first by the whole listing. */
  lemma {:induction false} ListingGrows(entries: seq<Entry>, i: nat, width: nat, all: bool, content: ListContent, s3: S3)
    requires i <= |entries|
    ensures Listing(entries[..i], width, all, content, s3).events <= Listing(entries, width, all, content, s3).events
    decreases |entries| - i
  {
    if i == |entries| {
      assert entries[..i] == entries;
    } else {
      ListingGrows(entries, i + 1, width, all, content, s3);
      var e := entries[..i + 1];
      assert e[..|e| - 1] == entries[..i];
      ListingStep(e, width, all, content, s3);
      var a := Listing(entries[..i], width, all, content, s3).events;
      var b := Listing(e, width, all, content, s3).events;
      var c := Listing(entries, width, all, content, s3).events;
      assert a <= b && b <= c;
      assert b[..|a|] == a;
      assert c[..|a|] == a;
    }
  }

  lemma ListingStep(entries: seq<Entry>, width: nat, all: bool, content: ListContent, s3: S3)
    requires entries != []
    ensures Listing(entries[..|entries| - 1], width, all, content, s3).events <= Listing(entries, width, all, content, s3).events
  {
    var p := Listing(entries[..|entries| - 1], width, all, content, s3);
    if p.failure.None? {
      var u := EntryTrace(entries[|entries| - 1], width, all, content, s3);
      assert p.events <= p.events + u.events;
    }
  }

  /** Without `list_content` nothing is fetched. */
  lemma {:induction false} NoContentNoFetch(entries: seq<Entry>, width: nat, all: bool, content: ListContent, s3: S3)
    requires !WantsContent(content)
    ensures forall ev :: ev in Listing(entries, width, all, content, s3).events ==> !ev.GetContents?
    decreases |entries|
  {
    if entries != [] {
      NoContentNoFetch(entries[..|entries| - 1], width, all, content, s3);
    }
  }

  /**
   * An unknown `list_content` mode raises `ValueError` exactly when a
   * shown key is reached (given that no URL check fails outright); a
   * listing with no shown key never notices it.
   */
  lemma {:induction false} UnknownModeRaises(entries: seq<Entry>, width: nat, all: bool, content: ListContent, s3: S3)
    requires WantsContent(content) && content.name !in {"full", "first10", "md5"}
    requires forall i :: 0 <= i < |entries| && Shown(entries[i], all) ==> !entries[i].urlCheck.UrlFailure?
    ensures var t := Listing(entries, width, all, content, s3);
      (t.failure.Some? <==> exists i :: 0 <= i < |entries| && Shown(entries[i], all)) &&
      (t.failure.Some? ==> t.failure.value == ValueError(content.name))
    decreases |entries|
  {
    if entries != [] {
      var init := entries[..|entries| - 1];
      assert forall i :: 0 <= i < |init| ==> init[i] == entries[i];
      UnknownModeRaises(init, width, all, content, s3);
      var last := entries[|entries| - 1];
      if Shown(last, all) {
        assert Shown(entries[|entries| - 1], all);
      }
      if exists i :: 0 <= i < |entries| && Shown(entries[i], all) {
        var i :| 0 <= i < |entries| && Shown(entries[i], all);
        if i < |init| {
          assert Shown(init[i], all);
        }
      }
    }
  }

  /**
   * With no content mode or one of the three known ones, and no URL check
   * that fails outright, the listing runs to its end without an exception.
   */
  lemma {:induction false} ListingSucceeds(entries: seq<Entry>, width: nat, all: bool, content: ListContent, s3: S3)
    requires !WantsContent(content) || content.name in {"full", "first10", "md5"}
    requires forall i :: 0 <= i < |entries| && Shown(entries[i], all) ==> !entries[i].urlCheck.UrlFailure?
    ensures Listing(entries, width, all, content, s3).failure.None?
    decreases |entries|
  {
    if entries != [] {
      var init := entries[..|entries| - 1];
      assert forall i :: 0 <= i < |init| ==> init[i] == entries[i];
      ListingSucceeds(init, width, all, content, s3);
      var last := entries[|entries| - 1];
      if Shown(last, all) {
        assert !last.urlCheck.UrlFailure?;
      }
    }
  }

  // ---------------------------------------------------------------- the whole listing

  /** The messages before connecting: the query notice, then the bucket name. */
  function Preamble(location: S3Location): seq<Event> {
    (if location.hadQuery then [Message(QueryMessage, "\n")] else [])
    + [Message("Connecting to bucket: " + location.bucket, "\n")]
  }

  /** What `_ls_s3` prints and requests for a location, as a whole. */
  function S3Listing(loc: string, recursive: bool, all: bool, content: ListContent, s3: S3): Trace {
    match ParseS3Location(loc)
    case Failure(err) => Trace([], Some(err))
    case Success(location) => Session(location, recursive, all, content, s3)
  }

  /** The part after parsing: connect, show the bucket's status, list, and go through the entries. */
  function Session(location: S3Location, recursive: bool, all: bool, content: ListContent, s3: S3): Trace {
    var start := Preamble(location);
    match s3.connect(location.bucket)
    case Failure(err) => Trace(start, Some(err))
    case Success(status) =>
      var delimiter := Delimiter(recursive);
      var before := start + [Message(InfoMessage(status), "\n"), ListVersions(location.bucket, location.prefix, delimiter)];
      var entries := s3.listVersions(location.bucket, location.prefix, delimiter);
      if entries == [] then
        Trace(before + [ErrorMessage("No output was provided for prefix " + s3.reprText(location.prefix))], None)
      else
        var t := Listing(entries, MaxNameLength(entries), all, content, s3);
        Trace(before + t.events, t.failure)
  }

  /** One turn of the loop of lines 158-204; an early return is the source's `continue`. */
  method ListEntry(e: Entry, width: nat, all: bool, content: ListContent, s3: S3) returns (t: Trace)
    ensures t == EntryTrace(e, width, all, content, s3)
  {
    if e.PrefixEntry? {
      return Trace([Message(e.name, "\n")], None);
    }
    var events := [Message(NameLine(e.name, e.lastModified, width), " ")];
    if e.KeyEntry? {
      if !(e.isLatest || all) {
        return Trace(events, None);
      }
      if e.urlCheck.UrlFailure? {
        return Trace(events, Some(UrlError(e.urlCheck.reason)));
      }
      var urlok := UrlStatus(e.urlCheck);
      var acl := AclText(e.acl);
      var step := ContentField(e.name, e.versionId, content, s3);
      events := events + step.requests;
      if step.field.Failure? {
        return Trace(events, Some(step.field.error));
      }
      events := events + [Message(DetailLine(e.versionId, acl, e.url, urlok, step.field.value), "\n")];
    } else if all {
      events := events + [Message("del", "\n")];
    }
    t := Trace(events, None);
  }

  /** The loop of lines 158-204, leaving at the first exception. */
  method ListEntries(entries: seq<Entry>, width: nat, all: bool, content: ListContent, s3: S3) returns (t: Trace)
    ensures t == Listing(entries, width, all, content, s3)
  {
    var events: seq<Event> := [];
    var i := 0;
    while i < |entries|
      invariant 0 <= i <= |entries|
      invariant Listing(entries[..i], width, all, content, s3) == Trace(events, None)
    {
      var u := ListEntry(entries[i], width, all, content, s3);
      ListingSnoc(entries, i, width, all, content, s3);
      events := events + u.events;
      if u.failure.Some? {
        ListingStopsAtFailure(entries, i + 1, width, all, content, s3);
        return Trace(events, u.failure);
      }
      i := i + 1;
    }
    assert entries[..i] == entries;
    t := Trace(events, None);
  }

  lemma ListingSnoc(entries: seq<Entry>, i: nat, width: nat, all: bool, content: ListContent, s3: S3)
    requires i < |entries| && Listing(entries[..i], width, all, content, s3).failure.None?
    ensures var u := EntryTrace(entries[i], width, all, content, s3);
      Listing(entries[..i + 1], width, all, content, s3) ==
      Trace(Listing(entries[..i], width, all, content, s3).events + u.events, u.failure)
  {
    assert entries[..i + 1][..i] == entries[..i];
  }

  /** `_ls_s3`. */
  method ListS3(loc: string, recursive: bool, all: bool, content: ListContent, s3: S3) returns (t: Trace)
    ensures t == S3Listing(loc, recursive, all, content, s3)
  {
    var parsed := ParseS3Location(loc);
    if parsed.Failure? {
      return Trace([], Some(parsed.error));
    }
    t := ListBucket(parsed.value, recursive, all, content, s3);
  }

  /** `_ls_s3` from line 105 on, once the location is parsed. */
  method ListBucket(location: S3Location, recursive: bool, all: bool, content: ListContent, s3: S3) returns (t: Trace)
    ensures t == Session(location, recursive, all, content, s3)
  {
    var bucketName, prefix := location.bucket, location.prefix;
    var events: seq<Event> := [];
    if location.hadQuery {
      events := events + [Message(QueryMessage, "\n")];
    }
    events := events + [Message("Connecting to bucket: " + bucketName, "\n")];
    var connected := s3.connect(bucketName);
    if connected.Failure? {
      return Trace(events, Some(connected.error));
    }
    var info := BucketInfo(connected.value);
    events := events + [Message(info, "\n")];
    var delimiter := Delimiter(recursive);
    events := events + [ListVersions(bucketName, prefix, delimiter)];
    assert events == Preamble(location) + [Message(InfoMessage(connected.value), "\n"), ListVersions(bucketName, prefix, delimiter)];
    var entries := s3.listVersions(bucketName, prefix, delimiter);
    if entries == [] {
      events := events + [ErrorMessage("No output was provided for prefix " + s3.reprText(prefix))];
      return Trace(events, None);
    }
    var maxLength := MaxNameLength(entries);
    var rest := ListEntries(entries, maxLength, all, content, s3);
    t := Trace(events + rest.events, rest.failure);
  }

  /** `Ls.__call__`: the S3 listing, the (unimplemented) dataset listing, or a refusal. */
  method Ls(loc: string, recursive: bool, all: bool, content: ListContent, lexists: string -> bool, s3: S3)
    returns (t: Trace)
    ensures RouteOf(loc, lexists) == ToS3 ==> t == S3Listing(loc, recursive, all, content, s3)
    ensures RouteOf(loc, lexists) == ToDataset ==> t == Trace([], Some(NotImplementedError))
    ensures RouteOf(loc, lexists) == Unsupported ==> t == Trace([], Some(ValueError(UnsupportedMessage)))
  {
    if StartsWith(loc, S3Scheme) {
      t := ListS3(loc, recursive, all, content, s3);
    } else if lexists(loc) && lexists(PathJoin(loc, ".git")) {
      t := Trace([], Some(NotImplementedError));
    } else {
      t := Trace([], Some(ValueError(UnsupportedMessage)));
    }
  }

  /**
   * Once connected, the listing is requested exactly once, right after the
   * bucket info, for the parsed bucket and prefix, with the `/` delimiter
   * exactly when not recursive.
   */
  lemma ListRequestedOnce(location: S3Location, recursive: bool, all: bool, content: ListContent, s3: S3)
    requires s3.connect(location.bucket).Success?
    ensures var t := Session(location, recursive, all, content, s3);
      var k := |Preamble(location)| + 1;
      k < |t.events| && t.events[k] == ListVersions(location.bucket, location.prefix, Delimiter(recursive)) &&
      forall j :: 0 <= j < |t.events| && j != k ==> !t.events[j].ListVersions?
  {
    var start := Preamble(location);
    var status := s3.connect(location.bucket).value;
    var delimiter := Delimiter(recursive);
    var before := start + [Message(InfoMessage(status), "\n"), ListVersions(location.bucket, location.prefix, delimiter)];
    assert forall j :: 0 <= j < |before| - 1 ==> !before[j].ListVersions?;
    var entries := s3.listVersions(location.bucket, location.prefix, delimiter);
    if entries != [] {
      NoListRequestInListing(entries, MaxNameLength(entries), all, content, s3);
    }
  }

  lemma {:induction false} NoListRequestInListing(entries: seq<Entry>, width: nat, all: bool, content: ListContent, s3: S3)
    ensures forall ev :: ev in Listing(entries, width, all, content, s3).events ==> !ev.ListVersions?
    decreases |entries|
  {
    if entries != [] {
      NoListRequestInListing(entries[..|entries| - 1], width, all, content, s3);
    }
  }
}
