/**
 Cloud connection URIs: the parser and the GCS printer of src/blockcachevfs.rs. UTF-8 validity
 and the syntax of IPv6 addresses are library predicates, passed in as `Env`.
 */
module CloudUri {
  import opened Common
  import opened Strings
  import opened PercentCodec

  datatype Env = Env(utf8: string -> bool, ipv6: string -> bool)

  predicate Ascii(s: string) {
    forall i :: 0 <= i < |s| ==> s[i] as int < 128
  }

  /** ASCII texts are UTF-8. */
  ghost predicate EnvOk(env: Env) {
    forall s: string :: Ascii(s) ==> env.utf8(s)
  }

  datatype CloudStorage =
    | Google(project: string, accessToken: string)
    | S3(region: string, accessId: string, authSecret: string, redact: seq<string>)

  datatype CloudConnectionUri = CloudConnectionUri(
    bucket: string, prefix: string, database: string, storage: CloudStorage,
    endpoint: Option<string>, uploadConcurrency: Option<nat>, uri: string, blockSize: Option<nat>)

  // ---------------------------------------------------------------- validators

  predicate ValidBucket(s: string) {
    && s != "" && s != "." && s != ".."
    && forall i :: 0 <= i < |s| ==> IsAlnum(s[i]) || s[i] == '.' || s[i] == '_' || s[i] == '-'
  }

  predicate ValidCredential(s: string) {
    s != "" && forall i :: 0 <= i < |s| ==> !IsControl(s[i])
  }

  predicate ValidRegion(s: string) {
    && s != "" && s[0] != '-' && s[|s| - 1] != '-'
    && forall i :: 0 <= i < |s| ==> IsAlnum(s[i]) || s[i] == '-'
  }

  predicate ValidDatabase(s: string) {
    && s != "" && s != "." && s != ".."
    && (forall i :: 0 <= i < |s| ==> s[i] !in ['/', '\\', '\U{0}', '?', '#'])
    && !(StartsWith(s, ".") && EndsWith(s, "-lock"))
  }

  predicate BadSegment(s: string) {
    s == "" || s == "." || s == ".."
  }

  predicate ValidPrefixBase(base: string) {
    && !EndsWith(base, "/")
    && (forall i :: 0 <= i < |base| ==> base[i] != '\\' && !IsControl(base[i]) && base[i] != '?' && base[i] != '#')
    && (base != "" ==> forall i :: 0 <= i < |Split(base, '/')| ==> !BadSegment(Split(base, '/')[i]))
  }

  function PrefixBase(prefix: string): string {
    if EndsWith(prefix, "/") then prefix[..|prefix| - 1] else prefix
  }

  predicate ValidPrefix(prefix: string) {
    !StartsWith(prefix, "/") && ValidPrefixBase(PrefixBase(prefix))
  }

  function NormalizePrefix(prefix: string): Option<string> {
    var base := PrefixBase(prefix);
    if !ValidPrefix(prefix) then None
    else if EndsWith(prefix, "/") && base != "" then Some(base + "/")
    else Some(base)
  }

  predicate ValidPort(s: string) {
    s != "" && AllDigits(s)
  }

  /** The text before and after the last separator. */
  function SplitLast(s: string, c: char): (r: Option<(string, string)>)
    ensures r.None? <==> c !in s
    ensures r.Some? ==> s == r.value.0 + [c] + r.value.1 && c !in r.value.1
  {
    if s == "" then None
    else if Last(s) == c then Some((s[..|s| - 1], ""))
    else match SplitLast(s[..|s| - 1], c)
      case None => None
      case Some((a, b)) => Some((a, b + [Last(s)]))
  }

  predicate ValidAuthority(s: string, env: Env) {
    if s == "" then false
    else if s[0] == '[' then
      match SplitOnce(s[1..], ']')
      case None => false
      case Some((address, rest)) =>
        env.ipv6(address) && (rest == "" || (rest[0] == ':' && ValidPort(rest[1..])))
    else
      match SplitLast(s, ':')
      case Some((host, port)) => ':' !in host && ValidHost(host) && ValidPort(port)
      case None => ValidHost(s)
  }

  predicate ValidHost(s: string) {
    s != "" && forall i :: 0 <= i < |s| ==> IsAlnum(s[i]) || s[i] == '.' || s[i] == '-'
  }

  predicate ValidEndpoint(s: string, env: Env) {
    && (forall i :: 0 <= i < |s| ==>
          s[i] !in ['@', '?', '#', '&', '%', '\\'] && !IsControl(s[i]) && !IsSpace(s[i]))
    && (StartsWith(s, "http://") || StartsWith(s, "https://"))
    && ValidAuthority(Split(if StartsWith(s, "http://") then s[7..] else s[8..], '/')[0], env)
  }

  function Decimal(s: string): nat
    requires AllDigits(s)
  {
    if s == "" then 0 else 10 * Decimal(s[..|s| - 1]) + (Last(s) as int - '0' as int)
  }

  predicate PowerOfTwo(n: nat) {
    n == 1 || (n > 0 && n % 2 == 0 && PowerOfTwo(n / 2))
  }

  /** A decimal `u32` text. */
  function ParseU32(s: string): Option<nat> {
    if s == "" || !AllDigits(s) || Decimal(s) > 0xFFFF_FFFF then None else Some(Decimal(s))
  }

  function ParseBlockSize(s: string): Option<nat> {
    match ParseU32(s)
    case None => None
    case Some(n) => if 32 * 1024 <= n <= 0x7FFF_FFFF && PowerOfTwo(n) then Some(n) else None
  }

  function ParseConcurrency(s: string): Option<nat> {
    match ParseU32(s)
    case None => None
    case Some(n) => if 1 <= n <= 0x7FFF_FFFF then Some(n) else None
  }

  // ---------------------------------------------------------------- parsing

  function DecodeText(s: string, env: Env): Option<string> {
    var bytes := Decode(s);
    if bytes.None? || !env.utf8(bytes.value) then None else bytes
  }

  function SchemeEnd(s: string): (r: Option<nat>)
    ensures r.Some? ==> r.value + 3 <= |s| && s[r.value..r.value + 3] == "://"
  {
    if |s| < 3 then None
    else if s[..3] == "://" then Some(0)
    else match SchemeEnd(s[1..])
      case None => None
      case Some(n) => Some(n + 1)
  }

  function KeyValue(parameter: string): (string, string) {
    match SplitOnce(parameter, '=')
    case None => (parameter, "")
    case Some(pair) => pair
  }

  function Collect(parameters: seq<string>, options: map<string, string>, env: Env): Option<map<string, string>> {
    if parameters == [] then Some(options)
    else if parameters[0] == "" then Collect(parameters[1..], options, env)
    else
      var (k, v) := KeyValue(parameters[0]);
      var key, value := DecodeText(k, env), DecodeText(v, env);
      if key.None? || value.None? || key.value in options then None
      else Collect(parameters[1..], options[key.value := value.value], env)
  }

  function Known(scheme: string): set<string> {
    {"vfs", "block_size", "database", "endpoint", "upload_concurrency"} +
    (if scheme == "gcs" then {"project", "access_token"}
     else {"region", "access_id", "secret_access_key", "session_token"})
  }

  function Get(options: map<string, string>, key: string): string {
    if key in options then options[key] else ""
  }

  function ParseStorage(scheme: string, options: map<string, string>): Option<CloudStorage> {
    if scheme == "gcs" then
      var project, token := Get(options, "project"), Get(options, "access_token");
      if project == "" || !ValidCredential(token) then None else Some(Google(project, token))
    else
      var region, id, secret := Get(options, "region"), Get(options, "access_id"), Get(options, "secret_access_key");
      if !ValidRegion(region) || !ValidCredential(id) || !ValidCredential(secret) then None
      else if "session_token" !in options then Some(S3(region, id, secret, [id, secret, secret]))
      else
        var token := options["session_token"];
        if !ValidCredential(token) then None
        else Some(S3(region, id, secret + "\n" + token, [id, secret, token, secret + "\n" + token]))
  }

  function Assemble(scheme: string, bucket: string, prefix: string, options: map<string, string>, uri: string,
                    env: Env): Option<CloudConnectionUri>
  {
    var storage := ParseStorage(scheme, options);
    var database := if "database" in options then options["database"] else "default.db";
    if "vfs" !in options || options["vfs"] != "blockcachevfs" then None
    else if "block_size" in options && ParseBlockSize(options["block_size"]).None? then None
    else if storage.None? || !ValidDatabase(database) then None
    else if "endpoint" in options && !ValidEndpoint(options["endpoint"], env) then None
    else if "upload_concurrency" in options && ParseConcurrency(options["upload_concurrency"]).None? then None
    else if !(options.Keys <= Known(scheme)) then None
    else Some(CloudConnectionUri(bucket, prefix, database, storage.value,
                                 if "endpoint" in options then Some(options["endpoint"]) else None,
                                 if "upload_concurrency" in options
                                 then ParseConcurrency(options["upload_concurrency"]) else None,
                                 uri,
                                 if "block_size" in options then ParseBlockSize(options["block_size"]) else None))
  }

  function Location(location: string): (string, string) {
    match SplitOnce(location, '/')
    case None => (location, "")
    case Some(pair) => pair
  }

  function ParsedParts(scheme: string, location: string, query: string, uri: string,
                       env: Env): Option<CloudConnectionUri> {
    var (bucket, rawPrefix) := Location(location);
    var decoded := DecodeText(rawPrefix, env);
    if '#' in query || '#' in location || decoded.None? || !ValidBucket(bucket) then None
    else
      var prefix := NormalizePrefix(decoded.value);
      var options := Collect(Split(query, '&'), map[], env);
      if prefix.None? || options.None? then None
      else Assemble(scheme, bucket, prefix.value, options.value, uri, env)
  }

  function ParsedUri(uri: string, env: Env): Option<CloudConnectionUri> {
    var end := SchemeEnd(uri);
    if end.None? || (uri[..end.value] != "gcs" && uri[..end.value] != "s3") then None
    else
      var parts := SplitOnce(uri[end.value + 3..], '?');
      if parts.None? then None
      else ParsedParts(uri[..end.value], parts.value.0, parts.value.1, uri, env)
  }

  /** The options loop: decoded keys and values, duplicates refused. */
  method CollectOptions(query: string, env: Env) returns (r: Option<map<string, string>>)
    ensures r == Collect(Split(query, '&'), map[], env)
  {
    var parameters := Split(query, '&');
    var options: map<string, string> := map[];
    var i := 0;
    assert parameters[0..] == parameters;
    while i < |parameters|
      invariant 0 <= i <= |parameters|
      invariant Collect(parameters, map[], env) == Collect(parameters[i..], options, env)
    {
      assert parameters[i..][1..] == parameters[i + 1..];
      if parameters[i] != "" {
        var (k, v) := KeyValue(parameters[i]);
        var key := DecodeComponent(k);
        if key.None? || !env.utf8(key.value) { return None; }
        var value := DecodeComponent(v);
        if value.None? || !env.utf8(value.value) { return None; }
        if key.value in options { return None; }
        options := options[key.value := value.value];
      }
      i := i + 1;
    }
    r := Some(options);
  }

  method ParseParts(scheme: string, location: string, query: string, uri: string, env: Env)
    returns (r: Option<CloudConnectionUri>)
    ensures r == ParsedParts(scheme, location, query, uri, env)
  {
    if '#' in query || '#' in location { return None; }
    var (bucket, rawPrefix) := Location(location);
    var decoded := DecodeComponent(rawPrefix);
    if decoded.None? || !env.utf8(decoded.value) || !ValidBucket(bucket) { return None; }
    var prefix := NormalizePrefix(decoded.value);
    if prefix.None? { return None; }
    var options := CollectOptions(query, env);
    if options.None? { return None; }
    r := Assemble(scheme, bucket, prefix.value, options.value, uri, env);
  }

  method Parse(uri: string, env: Env) returns (r: Option<CloudConnectionUri>)
    ensures r == ParsedUri(uri, env)
  {
    var end := SchemeEnd(uri);
    if end.None? { return None; }
    var scheme := uri[..end.value];
    if scheme != "gcs" && scheme != "s3" { return None; }
    var parts := SplitOnce(uri[end.value + 3..], '?');
    if parts.None? { return None; }
    r := ParseParts(scheme, parts.value.0, parts.value.1, uri, env);
  }

  // ---------------------------------------------------------------- printing

  function GcsQuery(project: string, token: string, database: string, endpoint: Option<string>): string
    requires Bytes(project) && Bytes(token) && Bytes(database) && (endpoint.Some? ==> Bytes(endpoint.value))
  {
    ("vfs" + "=" + "blockcachevfs") + "&" + ("project" + "=" + Encode(project, false)) + "&" +
    ("access_token" + "=" + Encode(token, false)) + "&" + ("database" + "=" + Encode(database, false)) +
    (if endpoint.None? then "" else "&" + ("endpoint" + "=" + Encode(endpoint.value, false)))
  }

  function GcsUri(bucket: string, prefix: string, query: string): string
    requires Bytes(bucket) && Bytes(prefix)
  {
    "gcs://" + ((Encode(bucket, false) + "/" + Encode(prefix, true)) + "?" + query)
  }

  method Gcs(bucket: string, prefix: string, project: string, token: string, database: string,
             endpoint: Option<string>, env: Env)
    returns (r: Option<CloudConnectionUri>)
    requires Bytes(bucket) && Bytes(prefix) && Bytes(project) && Bytes(token) && Bytes(database)
    requires endpoint.Some? ==> Bytes(endpoint.value)
    ensures r == ParsedUri(GcsUri(bucket, prefix, GcsQuery(project, token, database, endpoint)), env)
  {
    var b := PercentEncode(bucket, false);
    var p := PercentEncode(prefix, true);
    var j := PercentEncode(project, false);
    var t := PercentEncode(token, false);
    var d := PercentEncode(database, false);
    var query := ("vfs" + "=" + "blockcachevfs") + "&" + ("project" + "=" + j) + "&" + ("access_token" + "=" + t) +
        "&" + ("database" + "=" + d);
    if endpoint.Some? {
      var e := PercentEncode(endpoint.value, false);
      query := query + ("&" + ("endpoint" + "=" + e));
    }
    assert query == GcsQuery(project, token, database, endpoint);
    r := Parse("gcs://" + ((b + "/" + p) + "?" + query), env);
  }
}
