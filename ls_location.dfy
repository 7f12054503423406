/**
 * `datalad ls`: where a location is sent (`Ls.__call__`) and how an
 * `s3://` location is taken apart into a bucket name and a key prefix at
 * the start of `Ls._ls_s3`.
 */
module LsLocation {
  import opened Wrappers
  import opened Text

  const S3Scheme := "s3://"
  const NotS3Message := "passed location should be an s3:// url"
  const UnsupportedMessage := "ATM supporting only s3:// URLs and paths to local datasets"

  /** The exceptions `ls` raises itself, and those of the calls it makes that the model keeps opaque. */
  datatype LsError =
    | ValueError(message: string)
    | NotImplementedError
    /** `bucket_name, prefix = ...split('/', 1)` got a single piece. */
    | UnpackError(got: nat)
    /** Connecting to S3 or looking the bucket up failed. */
    | ConnectError(message: string)
    /** `urlopen` failed with something other than an HTTP error status. */
    | UrlError(reason: string)

  datatype Route = ToS3 | ToDataset | Unsupported

  /** `os.path.join(a, b)` for a relative `b`. */
  function PathJoin(a: string, b: string): string {
    if a == [] || EndsWith(a, "/") then a + b else a + "/" + b
  }

  /**
   * `Ls.__call__`: an `s3://` URL goes to the S3 listing; otherwise a path
   * that exists and holds a `.git` entry goes to the dataset listing;
   * anything else is refused.  `lexists` stands for `os.path.lexists`.
   */
  function RouteOf(loc: string, lexists: string -> bool): (r: Route)
    ensures r == ToS3 <==> StartsWith(loc, S3Scheme)
    ensures r == ToDataset ==> lexists(loc) && lexists(PathJoin(loc, ".git"))
    ensures r == Unsupported ==> !lexists(loc) || !lexists(PathJoin(loc, ".git"))
  {
    if StartsWith(loc, S3Scheme) then ToS3
    else if lexists(loc) && lexists(PathJoin(loc, ".git")) then ToDataset
    else Unsupported
  }

  /** The S3 location after parsing: the query, when there was one, is dropped. */
  datatype S3Location = S3Location(bucket: string, prefix: string, hadQuery: bool)

  /** `prefix[:prefix.index('?')]` when the prefix holds a `?`. */
  function StripQuery(prefix: string): (r: string)
    ensures '?' !in r
    ensures StartsWith(prefix, r)
    ensures r == prefix <==> '?' !in prefix
    ensures '?' in prefix ==> prefix[|r|] == '?'
  {
    if '?' in prefix then prefix[..IndexOf(prefix, '?')] else prefix
  }

  /** Dropping the query twice is dropping it once. */
  lemma StripQueryIdempotent(prefix: string)
    ensures StripQuery(StripQuery(prefix)) == StripQuery(prefix)
  {
  }

  /** The query is everything from the first `?` on, whatever follows it. */
  lemma StripQueryOfQuery(prefix: string, query: string)
    requires '?' !in prefix
    ensures StripQuery(prefix + "?" + query) == prefix
  {
    var s := prefix + "?" + query;
    assert s[|prefix|] == '?' && s[..|prefix|] == prefix;
    IndexOfIsFirst(s, '?', |prefix|);
  }

  /**
   * Lines 91-107 of `_ls_s3`: drop the scheme, split off the bucket name at
   * the first `/` (the prefix keeps any further `/`), and drop a query.
   */
  function ParseS3Location(loc: string): (r: Result<S3Location, LsError>)
    ensures !StartsWith(loc, S3Scheme) ==> r == Failure(ValueError(NotS3Message))
    ensures StartsWith(loc, S3Scheme) && '/' !in loc[5..] ==> r == Failure(UnpackError(1))
    ensures r.Success? <==> StartsWith(loc, S3Scheme) && '/' in loc[5..]
    ensures r.Success? ==> '/' !in r.value.bucket && '?' !in r.value.prefix
    ensures r.Success? ==> StartsWith(loc, S3Scheme + r.value.bucket + "/" + r.value.prefix)
    ensures r.Success? ==> (r.value.hadQuery <==> '?' in loc[|S3Scheme + r.value.bucket + "/"|..])
    ensures r.Success? && !r.value.hadQuery ==> loc == S3Scheme + r.value.bucket + "/" + r.value.prefix
  {
    if !StartsWith(loc, S3Scheme) then Failure(ValueError(NotS3Message))
    else
      var bucketPrefix := loc[5..];
      assert loc == S3Scheme + bucketPrefix;
      match SplitOnce(bucketPrefix, '/')
      case None => Failure(UnpackError(1))
      case Some((bucket, rest)) =>
        var prefix := StripQuery(rest);
        assert loc == S3Scheme + bucket + "/" + rest;
        assert loc[|S3Scheme + bucket + "/"|..] == rest;
        PrefixOfConcat(S3Scheme + bucket + "/", prefix, rest);
        Success(S3Location(bucket, prefix, '?' in rest))
  }

  lemma PrefixOfConcat(a: string, p: string, rest: string)
    requires StartsWith(rest, p)
    ensures StartsWith(a + rest, a + p)
  {
    assert (a + rest)[..|a + p|] == a + rest[..|p|];
  }

  /** A location written from its parts reads back as those parts. */
  lemma ParseS3RoundTrip(bucket: string, prefix: string)
    requires '/' !in bucket && '?' !in prefix
    ensures ParseS3Location(S3Scheme + bucket + "/" + prefix) == Success(S3Location(bucket, prefix, false))
  {
    var loc := S3Scheme + bucket + "/" + prefix;
    assert loc[5..] == bucket + "/" + prefix;
    SplitOnceAt(bucket, prefix, '/');
  }

  /** With a query appended the parts are the same and the query is noted. */
  lemma ParseS3WithQuery(bucket: string, prefix: string, query: string)
    requires '/' !in bucket && '?' !in prefix
    ensures ParseS3Location(S3Scheme + bucket + "/" + prefix + "?" + query) ==
      Success(S3Location(bucket, prefix, true))
  {
    var rest := prefix + "?" + query;
    var loc := S3Scheme + bucket + "/" + rest;
    assert S3Scheme + bucket + "/" + prefix + "?" + query == loc;
    assert loc[5..] == bucket + "/" + rest;
    SplitOnceAt(bucket, rest, '/');
    StripQueryOfQuery(prefix, query);
    assert rest[|prefix|] == '?';
  }

  lemma SplitOnceAt(a: string, b: string, sep: char)
    requires sep !in a
    ensures SplitOnce(a + [sep] + b, sep) == Some((a, b))
  {
    var s := a + [sep] + b;
    assert s[|a|] == sep && s[..|a|] == a;
    IndexOfIsFirst(s, sep, |a|);
    assert s[|a| + 1..] == b;
  }

  /** `{} if recursive else {'delimiter': '/'}`: the listing stops at `/` unless recursive. */
  function Delimiter(recursive: bool): (r: Option<string>)
    ensures r.Some? <==> !recursive
    ensures r.Some? ==> r.value == "/"
  {
    if recursive then None else Some("/")
  }
}
