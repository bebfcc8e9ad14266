/** The URLs of paur-s3/src/lib.rs: building them, and taking them apart again for signing. */
module S3Url {
  import opened Options
  import opened Text
  import opened Utf8

  datatype Config = Config(
    bucket: string,
    endpoint: Option<string>,
    pathStyle: bool,
    prefix: Option<string>,
    publicUrl: Option<string>)

  const DEFAULT_ENDPOINT := "https://s3.amazonaws.com"

  predicate IsSlash(c: char) {
    c == '/'
  }

  function Unslashed(key: string): string {
    TrimStartBy(key, IsSlash)
  }

  function Endpoint(cfg: Config): string {
    TrimEndBy(if cfg.endpoint.Some? then cfg.endpoint.value else DEFAULT_ENDPOINT, IsSlash)
  }

  // -------- building --------

  function UrlFor(cfg: Config, key: string): string {
    var endpoint := Endpoint(cfg);
    if cfg.pathStyle then endpoint + "/" + cfg.bucket + "/" + Unslashed(key)
    else
      match SplitOnce(endpoint, "://")
      case Some((scheme, rest)) => scheme + "://" + cfg.bucket + "." + rest + "/" + Unslashed(key)
      case None => endpoint + "/" + cfg.bucket + "/" + Unslashed(key)
  }

  function FullKey(cfg: Config, key: string): string {
    if cfg.prefix.Some? && cfg.prefix.value != ""
    then TrimEndBy(cfg.prefix.value, IsSlash) + "/" + Unslashed(key)
    else Unslashed(key)
  }

  function PublicUrlForKey(cfg: Config, key: string): string {
    if cfg.publicUrl.Some? && cfg.publicUrl.value != ""
    then TrimEndBy(cfg.publicUrl.value, IsSlash) + "/" + FullKey(cfg, key)
    else UrlFor(cfg, FullKey(cfg, key))
  }

  // -------- taking apart --------

  datatype SignError = MissingScheme | NoPath

  function LowerChar(c: char): char {
    if 'A' <= c <= 'Z' then (c as int - 'A' as int + 'a' as int) as char else c
  }

  /** `to_ascii_lowercase`. */
  function Lower(s: string): (r: string)
    ensures |r| == |s|
    ensures forall i | 0 <= i < |s| :: r[i] as int == s[i] as int + if 'A' <= s[i] <= 'Z' then 32 else 0
  {
    seq(|s|, i requires 0 <= i < |s| => LowerChar(s[i]))
  }

  /** What comes before the first `c`, or everything. */
  function Until(s: string, c: char): string {
    match IndexOf(s, c)
    case None => s
    case Some(i) => s[..i]
  }

  function UrlHost(url: string): Result<string, SignError> {
    match SplitOnce(url, "://")
    case None => Err(MissingScheme)
    case Some((_, after)) => Ok(Lower(Until(after, '/')))
  }

  function SplitUriQuery(url: string): Result<(string, string), SignError> {
    match SplitOnce(url, "://")
    case None => Err(MissingScheme)
    case Some((_, after)) =>
      if IndexOf(after, '/').None? then Err(NoPath)
      else
        var (path, query) :=
          match IndexOf(after, '?')
          case None => (after, "")
          case Some(i) => (after[..i], after[i + 1..]);
        match IndexOf(path, '/')
        case None => Ok(("/", query))
        case Some(j) => Ok(("/" + path[j + 1..], query))
  }

  // -------- the parts of a URL --------

  predicate SepAt(s: string, i: nat) {
    i + 2 < |s| && s[i] == ':' && s[i + 1] == '/' && s[i + 2] == '/'
  }

  lemma SepChars(s: string, i: nat)
    ensures OccursAt(s, "://", i) <==> SepAt(s, i)
  {
    if i + 2 < |s| {
      assert s[i..i + 3] == [s[i], s[i + 1], s[i + 2]];
    }
  }

  /** What follows the first "://" does not move it. */
  lemma FirstSep(scheme: string, rest: string, more: string)
    requires Find(scheme + "://" + rest, "://") == Some(|scheme|)
    ensures Find(scheme + "://" + more, "://") == Some(|scheme|)
    ensures SplitOnce(scheme + "://" + more, "://") == Some((scheme, more))
  {
    var a, b := scheme + "://" + rest, scheme + "://" + more;
    FindFromSpec(a, "://", 0);
    FindFromSpec(b, "://", 0);
    forall i: nat | i < |scheme|
      ensures !OccursAt(b, "://", i)
    {
      SepChars(a, i);
      SepChars(b, i);
      assert forall j | 0 <= j < |scheme| + 3 :: a[j] == b[j];
    }
    SepChars(b, |scheme|);
    assert b[..|scheme|] == scheme && b[|scheme| + 3..] == more;
  }

  /** An endpoint with a scheme, as scheme, host with port, and a path that is empty or starts with '/'. */
  ghost predicate Parts(endpoint: string, scheme: string, host: string, path: string) {
    && endpoint == scheme + "://" + (host + path)
    && Find(endpoint, "://") == Some(|scheme|)
    && Lacks(host, '/')
    && (path == "" || path[0] == '/')
  }

  lemma PartsExist(endpoint: string) returns (scheme: string, host: string, path: string)
    requires Find(endpoint, "://").Some?
    ensures Parts(endpoint, scheme, host, path)
  {
    FindFromSpec(endpoint, "://", 0);
    var i := Find(endpoint, "://").value;
    SplitsAt(endpoint, "://", i);
    scheme := endpoint[..i];
    host, path := HostAndPath(endpoint[i + 3..]);
  }

  lemma SplitsAt(s: string, sep: string, i: nat)
    requires OccursAt(s, sep, i)
    ensures s == s[..i] + sep + s[i + |sep|..]
  {
  }

  lemma HostAndPath(rest: string) returns (host: string, path: string)
    ensures rest == host + path && Lacks(host, '/') && (path == "" || path[0] == '/')
  {
    IndexOfSpec(rest, '/');
    host := Until(rest, '/');
    path := rest[|host|..];
  }

  /** A URL of the form scheme, host, path without '?' is signed with exactly these parts. */
  lemma SplitsIntoParts(scheme: string, host: string, path: string)
    requires Find(scheme + "://" + (host + path), "://") == Some(|scheme|)
    requires Lacks(host, '/') && path != "" && path[0] == '/'
    requires Lacks(host, '?') && Lacks(path, '?')
    ensures UrlHost(scheme + "://" + (host + path)) == Ok(Lower(host))
    ensures SplitUriQuery(scheme + "://" + (host + path)) == Ok((path, ""))
  {
    var after := host + path;
    FirstSep(scheme, after, after);
    FirstIs(after, '/', |host|);
    assert after[..|host|] == host;
    assert "/" + after[|host| + 1..] == path;
    IndexOfSpec(after, '?');
  }

  /** Without a scheme nothing can be signed; with one, what is missing is a slash after it. */
  lemma CannotSignIff(url: string)
    ensures Find(url, "://").None? <==> UrlHost(url) == Err(MissingScheme)
    ensures Find(url, "://").None? <==> SplitUriQuery(url) == Err(MissingScheme)
    ensures Find(url, "://").Some? ==>
              (SplitUriQuery(url) == Err(NoPath) <==> Lacks(url[Find(url, "://").value + 3..], '/'))
    ensures UrlHost(url).Ok? || UrlHost(url) == Err(MissingScheme)
  {
    if Find(url, "://").Some? {
      IndexOfSpec(url[Find(url, "://").value + 3..], '/');
    }
  }

  /**
   Signing sees the URL that is sent. For every endpoint with a scheme, in both addressing styles,
   the signed host is the lower-cased host of the URL and the canonical path is its path, with no
   query; put together again they are the URL.
   */
  lemma SigningSeesTheUrl(cfg: Config, key: string, scheme: string, host: string, path: string)
    requires Parts(Endpoint(cfg), scheme, host, path)
    requires Lacks(host, '?') && Lacks(path, '?') && Lacks(cfg.bucket, '?') && Lacks(key, '?')
    requires cfg.pathStyle || Lacks(cfg.bucket, '/')
    ensures var sent := if cfg.pathStyle then host else cfg.bucket + "." + host;
            var uri := path + "/" + (if cfg.pathStyle then cfg.bucket + "/" else "") + Unslashed(key);
            && UrlFor(cfg, key) == scheme + "://" + (sent + uri)
            && UrlHost(UrlFor(cfg, key)) == Ok(Lower(sent))
            && SplitUriQuery(UrlFor(cfg, key)) == Ok((uri, ""))
  {
    UnslashedIsSuffix(key);
    if cfg.pathStyle {
      var uri := path + "/" + (cfg.bucket + "/") + Unslashed(key);
      PathStyle(scheme, host, path, cfg.bucket, Unslashed(key));
      FirstSep(scheme, host + path, host + uri);
      SplitsIntoParts(scheme, host, uri);
    } else {
      var sent, uri := cfg.bucket + "." + host, path + "/" + "" + Unslashed(key);
      FirstSep(scheme, host + path, host + path);
      FirstSep(scheme, host + path, sent + uri);
      HostStyle(scheme, host, path, cfg.bucket, Unslashed(key));
      SplitsIntoParts(scheme, sent, uri);
    }
  }

  /** What the HTTP client requests: it keeps the fragment of a URL to itself. */
  function Requested(url: string): string {
    Until(url, '#')
  }

  /**
   The path that is signed is the one that is requested exactly when no '#' is in it; a '#' in the
   key starts a fragment.
   */
  lemma FragmentIff(cfg: Config, key: string, scheme: string, host: string, path: string)
    requires Parts(Endpoint(cfg), scheme, host, path)
    requires Lacks(host, '?') && Lacks(path, '?') && Lacks(cfg.bucket, '?') && Lacks(key, '?')
    requires cfg.pathStyle || (Lacks(cfg.bucket, '/') && Lacks(cfg.bucket, '#'))
    requires Lacks(scheme, '#') && Lacks(host, '#')
    ensures var signed := SplitUriQuery(UrlFor(cfg, key));
            signed.Ok? && (SplitUriQuery(Requested(UrlFor(cfg, key))) == signed <==> Lacks(signed.value.0, '#'))
  {
    SigningSeesTheUrl(cfg, key, scheme, host, path);
    var sent := if cfg.pathStyle then host else cfg.bucket + "." + host;
    var uri := path + "/" + (if cfg.pathStyle then cfg.bucket + "/" else "") + Unslashed(key);
    HostLacks(cfg.bucket, host);
    UnslashedIsSuffix(key);
    PathLacks(path, if cfg.pathStyle then cfg.bucket + "/" else "", Unslashed(key));
    FirstSep(scheme, host + path, sent + uri);
    if Lacks(uri, '#') {
      NoFragment(scheme, sent, uri);
    } else {
      CutFragment(scheme, sent, uri);
    }
  }

  lemma HostLacks(bucket: string, host: string)
    ensures forall c | c != '.' && Lacks(bucket, c) && Lacks(host, c) :: Lacks(bucket + "." + host, c)
  {
  }

  lemma PathLacks(path: string, middle: string, key: string)
    requires path == "" || path[0] == '/'
    ensures var uri := path + "/" + middle + key;
            uri[0] == '/' && (Lacks(path, '?') && Lacks(middle, '?') && Lacks(key, '?') ==> Lacks(uri, '?'))
  {
  }

  lemma NoFragment(scheme: string, host: string, uri: string)
    requires Lacks(scheme, '#') && Lacks(host, '#') && Lacks(uri, '#')
    ensures Requested(scheme + "://" + (host + uri)) == scheme + "://" + (host + uri)
  {
    IndexOfSpec(scheme + "://" + (host + uri), '#');
  }

  lemma CutFragment(scheme: string, host: string, uri: string)
    requires Find(scheme + "://" + (host + uri), "://") == Some(|scheme|)
    requires Lacks(host, '/') && uri != "" && uri[0] == '/' && Lacks(host, '?') && Lacks(uri, '?')
    requires Lacks(scheme, '#') && Lacks(host, '#') && !Lacks(uri, '#')
    ensures SplitUriQuery(Requested(scheme + "://" + (host + uri))) != Ok((uri, ""))
  {
    var i := CutUri(uri);
    HashAt(scheme, host, uri, i);
    FrontOfUrl(scheme, host, uri, i);
    CutSplits(scheme, host, uri, uri[..i]);
  }

  lemma CutUri(uri: string) returns (i: nat)
    requires uri != "" && uri[0] == '/' && Lacks(uri, '?') && !Lacks(uri, '#')
    ensures i < |uri| && uri[i] == '#' && forall j | 0 <= j < i :: uri[j] != '#'
    ensures uri[..i] != "" && uri[..i][0] == '/' && Lacks(uri[..i], '?') && |uri[..i]| < |uri|
  {
    IndexOfSpec(uri, '#');
    i := IndexOf(uri, '#').value;
  }

  lemma CutSplits(scheme: string, host: string, uri: string, cut: string)
    requires Find(scheme + "://" + (host + uri), "://") == Some(|scheme|)
    requires Lacks(host, '/') && Lacks(host, '?')
    requires cut != "" && cut[0] == '/' && Lacks(cut, '?') && |cut| < |uri|
    ensures SplitUriQuery(scheme + "://" + (host + cut)) != Ok((uri, ""))
  {
    FirstSep(scheme, host + uri, host + cut);
    SplitsIntoParts(scheme, host, cut);
  }

  lemma HashAt(scheme: string, host: string, uri: string, i: nat)
    requires Lacks(scheme, '#') && Lacks(host, '#')
    requires i < |uri| && uri[i] == '#' && forall j | 0 <= j < i :: uri[j] != '#'
    ensures IndexOf(scheme + "://" + (host + uri), '#') == Some(|scheme| + 3 + |host| + i)
  {
    Assoc(scheme + "://", host, uri);
    var front := scheme + "://" + host;
    assert Lacks(front, '#') by {
      assert forall j | |scheme| <= j < |scheme| + 3 :: front[j] == "://"[j - |scheme|];
    }
    HashBehind(front, uri, i);
  }

  lemma HashBehind(front: string, uri: string, i: nat)
    requires Lacks(front, '#')
    requires i < |uri| && uri[i] == '#' && forall j | 0 <= j < i :: uri[j] != '#'
    ensures IndexOf(front + uri, '#') == Some(|front| + i)
  {
    FirstIs(front + uri, '#', |front| + i);
  }

  lemma FrontOfUrl(scheme: string, host: string, uri: string, i: nat)
    requires i <= |uri|
    ensures (scheme + "://" + (host + uri))[..|scheme| + 3 + |host| + i] == scheme + "://" + (host + uri[..i])
  {
  }

  lemma UnslashedIsSuffix(key: string)
    ensures Lacks(key, '?') ==> Lacks(Unslashed(key), '?')
    ensures Unslashed(key) != "" ==> Unslashed(key)[0] != '/'
  {
    var a := TrimStartSplits(key, IsSlash);
    assert forall i | 0 <= i < |Unslashed(key)| :: Unslashed(key)[i] == key[|a| + i];
  }

  lemma PathStyle(scheme: string, host: string, path: string, bucket: string, key: string)
    ensures scheme + "://" + (host + path) + "/" + bucket + "/" + key
            == scheme + "://" + (host + (path + "/" + (bucket + "/") + key))
  {
  }

  lemma HostStyle(scheme: string, host: string, path: string, bucket: string, key: string)
    ensures scheme + "://" + bucket + "." + (host + path) + "/" + key
            == scheme + "://" + (bucket + "." + host + (path + "/" + "" + key))
  {
  }

  /**
   For any URL that can be signed (with a scheme, a '/' after it and maybe a query), host,
   canonical path and query put together give back what follows the scheme exactly when no '?'
   comes before the first '/'.
   */
  lemma ReassemblesIff(scheme: string, host: string, path: string, query: Option<string>)
    requires Find(scheme + "://" + (host + (path + Query(query))), "://") == Some(|scheme|)
    requires Lacks(host, '/') && path != "" && path[0] == '/' && Lacks(path, '?')
    ensures var after := host + (path + Query(query));
            var r := SplitUriQuery(scheme + "://" + after);
            && r.Ok?
            && (Lacks(host, '?') <==> host + (r.value.0 + (if Lacks(after, '?') then "" else "?" + r.value.1)) == after)
  {
    var tail := path + Query(query);
    var after := host + tail;
    FirstSep(scheme, after, after);
    FirstIs(after, '/', |host|);
    IndexOfSpec(after, '?');
    if Lacks(host, '?') {
      QuerySplits(scheme, host, path, query);
    } else {
      QuestionInHost(scheme, host, tail);
    }
  }

  function Query(query: Option<string>): string {
    if query.Some? then "?" + query.value else ""
  }

  lemma QuerySplits(scheme: string, host: string, path: string, query: Option<string>)
    requires Find(scheme + "://" + (host + (path + Query(query))), "://") == Some(|scheme|)
    requires Lacks(host, '/') && path != "" && path[0] == '/' && Lacks(path, '?') && Lacks(host, '?')
    ensures SplitUriQuery(scheme + "://" + (host + (path + Query(query)))) == Ok((path, if query.Some? then query.value else ""))
    ensures Lacks(host + (path + Query(query)), '?') <==> query.None?
  {
    if query.Some? {
      WithQuery(scheme, host, path, query.value);
    } else {
      assert path + "" == path;
      SplitsIntoParts(scheme, host, path);
    }
  }

  lemma WithQuery(scheme: string, host: string, path: string, query: string)
    requires Find(scheme + "://" + (host + (path + ("?" + query))), "://") == Some(|scheme|)
    requires Lacks(host, '/') && path != "" && path[0] == '/' && Lacks(path, '?') && Lacks(host, '?')
    ensures SplitUriQuery(scheme + "://" + (host + (path + ("?" + query)))) == Ok((path, query))
    ensures !Lacks(host + (path + ("?" + query)), '?')
  {
    var after, front := host + (path + ("?" + query)), host + path;
    FirstSep(scheme, after, after);
    FirstIs(after, '/', |host|);
    FirstIs(front, '/', |host|);
    assert "/" + front[|host| + 1..] == path;
    CutQuery(host, path, query);
  }

  lemma CutQuery(host: string, path: string, query: string)
    requires Lacks(path, '?') && Lacks(host, '?')
    ensures var after := host + (path + ("?" + query));
            && IndexOf(after, '?') == Some(|host + path|)
            && after[..|host + path|] == host + path && after[|host + path| + 1..] == query
            && !Lacks(after, '?')
  {
    Assoc(host, path, "?" + query);
    Assoc(host + path, "?", query);
    FirstInConcat(host + path, '?', query);
    IndexOfSpec(host + path + "?" + query, '?');
  }

  lemma QuestionInHost(scheme: string, host: string, tail: string)
    requires Find(scheme + "://" + (host + tail), "://") == Some(|scheme|)
    requires Lacks(host, '/') && tail != "" && tail[0] == '/' && !Lacks(host, '?')
    ensures var r := SplitUriQuery(scheme + "://" + (host + tail));
            r.Ok? && r.value.0 == "/" && |host + (r.value.0 + ("?" + r.value.1))| > |host + tail|
    ensures !Lacks(host + tail, '?')
  {
    var after := host + tail;
    FirstSep(scheme, after, after);
    FirstIs(after, '/', |host|);
    IndexOfSpec(host, '?');
    var i := IndexOf(host, '?').value;
    FirstIs(after, '?', i);
    IndexOfSpec(after[..i], '/');
    assert forall j | 0 <= j < i :: after[j] == host[j];
    assert after[i] == '?';
  }

  // -------- percent-encoding --------

  /** The characters a canonical path has as they are (unreserved characters of RFC 3986, section 2.3, and the slash). */
  predicate StandsForItself(c: char) {
    'a' <= c <= 'z' || 'A' <= c <= 'Z' || '0' <= c <= '9' || c == '-' || c == '.' || c == '_' || c == '~' || c == '/'
  }

  function HexDigit(n: nat): char
    requires n < 16
  {
    "0123456789ABCDEF"[n]
  }

  function Percent(bytes: seq<Byte>): (r: string)
    ensures |r| == 3 * |bytes|
  {
    if bytes == [] then "" else ['%', HexDigit(bytes[0] / 16), HexDigit(bytes[0] % 16)] + Percent(bytes[1..])
  }

  /** The path as version 4 of the AWS signature wants it in the canonical request. */
  function UriEncode(s: string): string {
    if s == "" then ""
    else (if StandsForItself(s[0]) then [s[0]] else Percent(Encode(s[0]))) + UriEncode(s[1..])
  }

  /** Encoding only ever lengthens, so a path is its own encoding exactly when nothing needs any. */
  lemma {:induction false} EncodesToItselfIff(s: string)
    ensures |UriEncode(s)| >= |s|
    ensures UriEncode(s) == s <==> AllOf(s, StandsForItself)
    ensures !AllOf(s, StandsForItself) ==> |UriEncode(s)| > |s|
  {
    if s != "" {
      EncodesToItselfIff(s[1..]);
      assert s == [s[0]] + s[1..];
      if StandsForItself(s[0]) {
        assert UriEncode(s)[1..] == UriEncode(s[1..]);
      }
    }
  }

  function HexValue(c: char): nat {
    if '0' <= c <= '9' then c as int - '0' as int
    else if 'A' <= c <= 'F' then c as int - 'A' as int + 10
    else 0
  }

  /** The bytes that a percent-encoded text stands for. */
  function PercentDecoded(s: string): seq<int> {
    if s == "" then []
    else if s[0] == '%' && |s| >= 3 then [16 * HexValue(s[1]) + HexValue(s[2])] + PercentDecoded(s[3..])
    else [s[0] as int] + PercentDecoded(s[1..])
  }

  lemma {:induction false} PercentDecodes(bytes: seq<Byte>, more: string)
    ensures PercentDecoded(Percent(bytes) + more) == bytes + PercentDecoded(more)
  {
    if bytes == [] {
      assert Percent(bytes) + more == more;
    } else {
      var b, rest := bytes[0], Percent(bytes[1..]) + more;
      HexDigits(b);
      Assoc(['%', HexDigit(b / 16), HexDigit(b % 16)], Percent(bytes[1..]), more);
      OneDecoded(HexDigit(b / 16), HexDigit(b % 16), rest);
      PercentDecodes(bytes[1..], more);
      Assoc([b], bytes[1..], PercentDecoded(more));
      assert bytes == [b] + bytes[1..];
    }
  }

  lemma OneDecoded(x: char, y: char, rest: string)
    ensures PercentDecoded(['%', x, y] + rest) == [16 * HexValue(x) + HexValue(y)] + PercentDecoded(rest)
  {
    assert (['%', x, y] + rest)[3..] == rest;
  }

  lemma HexDigits(b: Byte)
    ensures 16 * HexValue(HexDigit(b / 16)) + HexValue(HexDigit(b % 16)) == b
  {
    assert forall n: nat | n < 16 :: HexValue(HexDigit(n)) == n;
  }

  /** The encoded path stands for the UTF-8 form of the path. */
  lemma {:induction false} EncodedStandsFor(s: string)
    ensures PercentDecoded(UriEncode(s)) == EncodeAll(s)
  {
    if s != "" {
      EncodedStandsFor(s[1..]);
      if StandsForItself(s[0]) {
        assert UriEncode(s)[1..] == UriEncode(s[1..]);
      } else {
        PercentDecodes(Encode(s[0]), UriEncode(s[1..]));
      }
    }
  }

  /**
   The path that is signed is put into the canonical request as it is. That is the path the
   signature standard asks for exactly when all of its characters stand for themselves.
   */
  lemma CanonicalPathIff(cfg: Config, key: string, scheme: string, host: string, path: string)
    requires Parts(Endpoint(cfg), scheme, host, path)
    requires Lacks(host, '?') && Lacks(path, '?') && Lacks(cfg.bucket, '?') && Lacks(key, '?')
    requires cfg.pathStyle || Lacks(cfg.bucket, '/')
    ensures var r := SplitUriQuery(UrlFor(cfg, key));
            && r.Ok?
            && (r.value.0 == UriEncode(r.value.0) <==>
                AllOf(path, StandsForItself) && (cfg.pathStyle ==> AllOf(cfg.bucket, StandsForItself))
                && AllOf(Unslashed(key), StandsForItself))
  {
    SigningSeesTheUrl(cfg, key, scheme, host, path);
    var uri := path + "/" + (if cfg.pathStyle then cfg.bucket + "/" else "") + Unslashed(key);
    EncodesToItselfIff(uri);
    AllOfConcat(path, "/", StandsForItself);
    AllOfConcat(cfg.bucket, "/", StandsForItself);
    AllOfConcat(path + "/", if cfg.pathStyle then cfg.bucket + "/" else "", StandsForItself);
    AllOfConcat(path + "/" + (if cfg.pathStyle then cfg.bucket + "/" else ""), Unslashed(key), StandsForItself);
  }

  lemma AllOfConcat(a: string, b: string, p: char -> bool)
    ensures AllOf(a + b, p) <==> AllOf(a, p) && AllOf(b, p)
  {
    assert forall i | 0 <= i < |a| :: (a + b)[i] == a[i];
    assert forall i | 0 <= i < |b| :: (a + b)[|a| + i] == b[i];
  }

  /** It is not for the file of a package with an epoch, or with a '+' in its name. */
  lemma EpochIsNotEncoded(dir: string, package: string, rest: string)
    ensures !AllOf(dir + "/" + package + "-1:" + rest, StandsForItself)
    ensures !AllOf(dir + "/" + package + "+" + rest, StandsForItself)
  {
    var epoch, plus := dir + "/" + package + "-1:" + rest, dir + "/" + package + "+" + rest;
    assert epoch[|dir| + 1 + |package| + 2] == ':';
    assert plus[|dir| + 1 + |package|] == '+';
  }

  // -------- the prefix --------

  /** Where a put stores its object: the key part of the request URL. */
  function StoredKey(cfg: Config, key: string): string {
    Unslashed(FullKey(cfg, key))
  }

  predicate LeadingSlash(s: string) {
    s != "" && s[0] == '/'
  }

  /** Nothing but slashes. */
  predicate Slashes(s: string) {
    forall i | 0 <= i < |s| :: s[i] == '/'
  }

  /** No slash at its ends; the empty string has none. */
  predicate Bare(s: string) {
    s != "" ==> s[0] != '/' && s[|s| - 1] != '/'
  }

  /**
   The prefix comes once before the key, joined by one slash, whatever slashes end the prefix or
   start the key. Those that start the prefix stay in the key, and are not stored.
   */
  lemma PrefixOnce(cfg: Config, key: string, a: string, p: string, b: string, c: string, k: string)
    requires cfg.prefix == Some(a + p + b) && key == c + k
    requires Slashes(a) && Slashes(b) && Slashes(c) && p != "" && Bare(p) && !LeadingSlash(k)
    ensures FullKey(cfg, key) == a + p + "/" + k
    ensures StoredKey(cfg, key) == p + "/" + k
  {
    TrimStartSkips(c, k, IsSlash);
    assert (a + p)[|a + p| - 1] == p[|p| - 1];
    TrimEndSkips(a + p, b, IsSlash);
    Assoc(a, p, "/");
    Assoc(a, p + "/", k);
    TrimStartSkips(a, p + "/" + k, IsSlash);
  }

  /** Without a prefix the key is used as it is, but for the slashes that start it; a prefix of slashes is one slash. */
  lemma NoPrefix(cfg: Config, key: string, c: string, k: string)
    requires key == c + k && Slashes(c) && !LeadingSlash(k)
    ensures cfg.prefix.None? || cfg.prefix.value == "" ==> FullKey(cfg, key) == k
    ensures cfg.prefix.Some? && cfg.prefix.value != "" && Slashes(cfg.prefix.value) ==> FullKey(cfg, key) == "/" + k
    ensures cfg.prefix.None? || Slashes(cfg.prefix.value) ==> StoredKey(cfg, key) == k
  {
    TrimStartSkips(c, k, IsSlash);
    TrimStartSkips("", k, IsSlash);
    TrimStartSkips("/", k, IsSlash);
    assert "" + k == k;
    if cfg.prefix.Some? && Slashes(cfg.prefix.value) {
      TrimEndSkips("", cfg.prefix.value, IsSlash);
      assert "" + cfg.prefix.value == cfg.prefix.value;
    }
  }

  /** The configured endpoint is `e`, maybe with slashes after it; without one it is Amazon's. */
  ghost predicate HasEndpoint(cfg: Config, e: string) {
    && (e != "" ==> e[|e| - 1] != '/')
    && if cfg.endpoint.None? then e == "https://s3.amazonaws.com"
       else exists b :: Slashes(b) && cfg.endpoint.value == e + b
  }

  lemma EndpointIs(cfg: Config, e: string)
    requires HasEndpoint(cfg, e)
    ensures Endpoint(cfg) == e
  {
    if cfg.endpoint.None? {
      TrimEndSkips(e, "", IsSlash);
      assert e + "" == e;
    } else {
      var b :| Slashes(b) && cfg.endpoint.value == e + b;
      TrimEndSkips(e, b, IsSlash);
    }
  }

  /**
   The URL that a put sends its object to, and the one it returns, with `p` between the slashes of
   the prefix and `k` after those of the key: both have the prefix once. The slashes that start the
   prefix are only in the public URL.
   */
  lemma PrefixOnceInUrls(cfg: Config, key: string, e: string, a: string, p: string, b: string, c: string, k: string)
    requires HasEndpoint(cfg, e) && cfg.prefix == Some(a + p + b) && key == c + k
    requires Slashes(a) && Slashes(b) && Slashes(c) && p != "" && Bare(p) && !LeadingSlash(k)
    ensures cfg.pathStyle ==> UrlFor(cfg, FullKey(cfg, key)) == e + "/" + cfg.bucket + "/" + (p + "/" + k)
    ensures forall scheme, rest | !cfg.pathStyle && e == scheme + "://" + rest && Find(e, "://") == Some(|scheme|) ::
              UrlFor(cfg, FullKey(cfg, key)) == scheme + "://" + cfg.bucket + "." + rest + "/" + (p + "/" + k)
    ensures !cfg.pathStyle && Find(e, "://").None? ==> UrlFor(cfg, FullKey(cfg, key)) == e + "/" + cfg.bucket + "/" + (p + "/" + k)
    ensures cfg.publicUrl.None? || cfg.publicUrl.value == "" ==> PublicUrlForKey(cfg, key) == UrlFor(cfg, FullKey(cfg, key))
    ensures forall base, d | cfg.publicUrl == Some(base + d) && base != "" && base[|base| - 1] != '/' && Slashes(d) ::
              PublicUrlForKey(cfg, key) == base + "/" + (a + p + "/" + k)
  {
    PrefixOnce(cfg, key, a, p, b, c, k);
    EndpointIs(cfg, e);
    forall scheme, rest | e == scheme + "://" + rest && Find(e, "://") == Some(|scheme|)
      ensures SplitOnce(e, "://") == Some((scheme, rest))
    {
      FirstSep(scheme, rest, rest);
    }
    forall base, d | cfg.publicUrl == Some(base + d) && base != "" && base[|base| - 1] != '/' && Slashes(d)
      ensures PublicUrlForKey(cfg, key) == base + "/" + (a + p + "/" + k)
    {
      TrimEndSkips(base, d, IsSlash);
    }
  }

  /** A key starts with a slash exactly when the prefix does. */
  lemma SlashFromPrefix(cfg: Config, key: string)
    ensures LeadingSlash(FullKey(cfg, key)) <==> cfg.prefix.Some? && LeadingSlash(cfg.prefix.value)
  {
    UnslashedIsSuffix(key);
    if cfg.prefix.Some? && cfg.prefix.value != "" {
      var p := cfg.prefix.value;
      var b := TrimEndSplits(p, IsSlash);
      assert TrimEndBy(p, IsSlash) != "" ==> TrimEndBy(p, IsSlash)[0] == p[0];
      assert TrimEndBy(p, IsSlash) == "" ==> p == b;
    }
  }

  /**
   The URL that `put` returns is the one it sent to, when no public URL is configured. With one,
   it names the stored key exactly when the prefix does not start with a slash.
   */
  lemma PublicUrlNamesTheObject(cfg: Config, key: string)
    ensures !(cfg.publicUrl.Some? && cfg.publicUrl.value != "") ==> PublicUrlForKey(cfg, key) == UrlFor(cfg, FullKey(cfg, key))
    ensures cfg.publicUrl.Some? && cfg.publicUrl.value != "" ==>
              (PublicUrlForKey(cfg, key) == TrimEndBy(cfg.publicUrl.value, IsSlash) + "/" + StoredKey(cfg, key)
               <==> !(cfg.prefix.Some? && LeadingSlash(cfg.prefix.value)))
  {
    SlashFromPrefix(cfg, key);
    var full := FullKey(cfg, key);
    var a := TrimStartSplits(full, IsSlash);
    if LeadingSlash(full) {
      assert |StoredKey(cfg, key)| < |full|;
    } else {
      assert StoredKey(cfg, key) == full;
    }
    if cfg.publicUrl.Some? && cfg.publicUrl.value != "" {
      var base := TrimEndBy(cfg.publicUrl.value, IsSlash) + "/";
      assert PublicUrlForKey(cfg, key) == base + full;
    }
  }

  /**
   Applying the prefix to a key that has it already changes the key, unless the prefix is empty or
   only slashes: this is why `put` passes the raw key on.
   */
  lemma PrefixOnlyOnce(cfg: Config, key: string)
    ensures FullKey(cfg, FullKey(cfg, key)) == FullKey(cfg, key) <==> cfg.prefix.None? || AllOf(cfg.prefix.value, IsSlash)
  {
    UnslashedIsSuffix(key);
    var k := Unslashed(key);
    if cfg.prefix.None? || cfg.prefix.value == "" {
      TrimStartSkips("", k, IsSlash);
      assert "" + k == k;
    } else {
      PrefixTwice(cfg.prefix.value, k);
    }
  }

  lemma PrefixTwice(prefix: string, k: string)
    requires prefix != "" && !LeadingSlash(k)
    ensures var p := TrimEndBy(prefix, IsSlash);
            p + "/" + Unslashed(p + "/" + k) == p + "/" + k <==> AllOf(prefix, IsSlash)
  {
    var p := TrimEndBy(prefix, IsSlash);
    var b := TrimEndSplits(prefix, IsSlash);
    if p == "" {
      assert prefix == b;
      TrimStartSkips("/", k, IsSlash);
      assert p + "/" + k == "/" + k;
    } else {
      assert prefix[|p| - 1] == p[|p| - 1];
      LongerAgain(p, k);
    }
  }

  /** A prefix that is more than slashes is still there after trimming, so adding it again shows. */
  lemma LongerAgain(p: string, k: string)
    requires p != "" && !IsSlash(p[|p| - 1])
    ensures |p + "/" + Unslashed(p + "/" + k)| > |p + "/" + k|
  {
    var x := p + "/" + k;
    var a := TrimStartSplits(x, IsSlash);
    assert x[|p| - 1] == p[|p| - 1];
    assert forall i | 0 <= i < |a| :: x[i] == a[i];
  }
}
