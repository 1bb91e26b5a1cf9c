/** What printing a GCS URI and parsing it again gives back, and which URIs name the same database. */
module CloudUriTheorems {
  import opened Common
  import opened Strings
  import opened PercentCodec
  import opened CloudUri

  /** The arguments of the printer; Rust strings are UTF-8. */
  datatype GcsArguments = GcsArguments(
    bucket: string, prefix: string, project: string, token: string, database: string, endpoint: Option<string>)

  predicate Text(s: string, env: Env) {
    Bytes(s) && env.utf8(s)
  }

  predicate Texts(a: GcsArguments, env: Env) {
    && Text(a.bucket, env) && Text(a.prefix, env) && Text(a.project, env)
    && Text(a.token, env) && Text(a.database, env)
    && (a.endpoint.Some? ==> Text(a.endpoint.value, env))
  }

  predicate Valid(a: GcsArguments, env: Env) {
    && ValidBucket(a.bucket) && ValidPrefix(a.prefix)
    && a.project != "" && ValidCredential(a.token) && ValidDatabase(a.database)
    && (a.endpoint.Some? ==> ValidEndpoint(a.endpoint.value, env))
  }

  function Uri(a: GcsArguments, env: Env): string
    requires Texts(a, env)
  {
    GcsUri(a.bucket, a.prefix, GcsQuery(a.project, a.token, a.database, a.endpoint))
  }

  lemma PrefixUnchanged(prefix: string)
    ensures NormalizePrefix(prefix) == if ValidPrefix(prefix) then Some(prefix) else None
  {
    if EndsWith(prefix, "/") {
      assert prefix == PrefixBase(prefix) + "/";
    }
  }

  /** A bucket is not decoded, and need not be: escaping never turns a bad name into a good one. */
  lemma BucketSurvives(bucket: string)
    requires Bytes(bucket)
    ensures ValidBucket(Encode(bucket, false)) <==> ValidBucket(bucket)
    ensures ValidBucket(bucket) ==> Encode(bucket, false) == bucket
  {
    EncodePlain(bucket, false);
    var e := Encode(bucket, false);
    if '%' in e {
      var i :| 0 <= i < |e| && e[i] == '%';
      assert !ValidBucket(e);
    }
  }

  lemma Delimiters(s: string, keepSlashes: bool, c: char)
    requires Bytes(s) && !Plain(c, keepSlashes) && c != '%'
    ensures c !in Encode(s, keepSlashes)
  {
    EncodedChars(s, keepSlashes);
  }

  predicate Key(k: string) {
    k != "" && forall i :: 0 <= i < |k| ==> Plain(k[i], false)
  }

  lemma KeyReadsBack(k: string, env: Env)
    requires EnvOk(env) && Key(k)
    ensures DecodeText(k, env) == Some(k)
  {
    KeyUnescaped(k);
    DecodeEncode(k, false);
  }

  function Parameter(k: string, v: string): string
    requires Bytes(v)
  {
    k + "=" + Encode(v, false)
  }

  lemma ParameterDelimiters(k: string, v: string, c: char)
    requires Key(k) && Bytes(v) && c in ['&', '#']
    ensures c !in Parameter(k, v)
  {
    Delimiters(v, false, c);
  }

  lemma CollectOne(k: string, v: string, rest: seq<string>, options: map<string, string>, env: Env)
    requires EnvOk(env) && Key(k) && Text(v, env)
    ensures Collect([Parameter(k, v)] + rest, options, env) ==
            if k in options then None else Collect(rest, options[k := v], env)
  {
    KeyReadsBack(k, env);
    DecodeEncode(v, false);
    var p := Parameter(k, v);
    assert '=' !in k;
    SplitOnceAt(k, '=', Encode(v, false));
    assert KeyValue(p) == (k, Encode(v, false));
    assert ([p] + rest)[1..] == rest;
  }

  // ---------------------------------------------------------------- whole queries

  type Pairs = seq<(string, string)>

  predicate Printable(pairs: Pairs, env: Env) {
    forall i :: 0 <= i < |pairs| ==> PrintablePair(pairs[i], env)
  }

  function Parameters(pairs: Pairs, env: Env): (r: seq<string>)
    requires Printable(pairs, env)
    ensures |r| == |pairs|
    ensures forall i :: 0 <= i < |r| ==> r[i] == Parameter(pairs[i].0, pairs[i].1)
  {
    if pairs == [] then [] else [Parameter(pairs[0].0, pairs[0].1)] + Parameters(pairs[1..], env)
  }

  predicate DistinctKeys(pairs: Pairs) {
    forall i, j :: 0 <= i < j < |pairs| ==> pairs[i].0 != pairs[j].0
  }

  /** `after` is `options` with the pairs added. */
  ghost predicate Added(options: map<string, string>, pairs: Pairs, after: map<string, string>) {
    && (forall k :: k in after <==> k in options || exists i :: 0 <= i < |pairs| && pairs[i].0 == k)
    && (forall k :: k in options && k in after ==> after[k] == options[k])
    && (forall i :: 0 <= i < |pairs| ==> pairs[i].0 in after && after[pairs[i].0] == pairs[i].1)
  }

  lemma {:induction false} CollectAll(pairs: Pairs, options: map<string, string>, env: Env)
    requires EnvOk(env) && Printable(pairs, env) && DistinctKeys(pairs)
    requires forall i :: 0 <= i < |pairs| ==> pairs[i].0 !in options
    ensures var r := Collect(Parameters(pairs, env), options, env);
            r.Some? && Added(options, pairs, r.value)
  {
    if pairs != [] {
      var (k, v) := pairs[0];
      var rest := pairs[1..];
      forall i | 0 <= i < |rest|
        ensures rest[i] == pairs[i + 1] && rest[i].0 !in options[k := v]
      {
      }
      CollectOne(k, v, Parameters(rest, env), options, env);
      CollectAll(rest, options[k := v], env);
      AddedCons(pairs, options, Collect(Parameters(pairs, env), options, env).value);
    }
  }

  lemma AddedCons(pairs: Pairs, options: map<string, string>, after: map<string, string>)
    requires pairs != [] && pairs[0].0 !in options
    requires Added(options[pairs[0].0 := pairs[0].1], pairs[1..], after)
    ensures Added(options, pairs, after)
  {
    var rest := pairs[1..];
    assert forall i :: 0 <= i < |rest| ==> rest[i] == pairs[i + 1];
    assert pairs[0].0 in after;
    forall i | 0 <= i < |pairs|
      ensures pairs[i].0 in after && after[pairs[i].0] == pairs[i].1
    {
      if i > 0 { assert rest[i - 1] == pairs[i]; }
    }
    forall k | k in after && k !in options
      ensures exists i :: 0 <= i < |pairs| && pairs[i].0 == k
    {
      if k != pairs[0].0 {
        var i :| 0 <= i < |rest| && rest[i].0 == k;
        assert pairs[i + 1].0 == k;
      }
    }
  }

  function GcsPairs(a: GcsArguments): Pairs {
    [("vfs", "blockcachevfs"), ("project", a.project), ("access_token", a.token), ("database", a.database)] +
    if a.endpoint.None? then [] else [("endpoint", a.endpoint.value)]
  }

  lemma GcsKeys()
    ensures Key("vfs") && Key("project") && Key("access_token") && Key("database") && Key("endpoint")
  {
  }

  lemma VfsName()
    ensures Key("blockcachevfs")
  {
  }

  lemma KeyUnescaped(k: string)
    requires Key(k)
    ensures Ascii(k) && Bytes(k) && Encode(k, false) == k
  {
    EncodePlain(k, false);
  }

  lemma GcsPairsDistinct(a: GcsArguments)
    ensures DistinctKeys(GcsPairs(a))
  {
  }

  predicate PrintablePair(pair: (string, string), env: Env) {
    Key(pair.0) && Text(pair.1, env)
  }

  lemma PrintableCons(k: string, v: string, rest: Pairs, env: Env)
    requires Key(k) && Text(v, env) && Printable(rest, env)
    ensures Printable([(k, v)] + rest, env)
  {
  }

  lemma VfsText(env: Env)
    requires EnvOk(env)
    ensures Text("blockcachevfs", env)
  {
    VfsName();
    KeyUnescaped("blockcachevfs");
  }

  lemma GcsPairsPrintable(a: GcsArguments, env: Env)
    requires EnvOk(env) && Texts(a, env)
    ensures Printable(GcsPairs(a), env)
  {
    GcsKeys();
    VfsText(env);
    var last: Pairs := if a.endpoint.None? then [] else [("endpoint", a.endpoint.value)];
    if a.endpoint.Some? {
      PrintableCons("endpoint", a.endpoint.value, [], env);
      assert last == [("endpoint", a.endpoint.value)] + [];
    }
    PrintableCons("database", a.database, last, env);
    PrintableCons("access_token", a.token, [("database", a.database)] + last, env);
    PrintableCons("project", a.project, [("access_token", a.token)] + ([("database", a.database)] + last), env);
    GcsPairsNested(a, last, "vfs", "blockcachevfs", "project", "access_token", "database", env);
  }

  /** The parameter list, built from the back. */
  lemma GcsPairsNested(a: GcsArguments, last: Pairs, k0: string, v0: string, k1: string, k2: string, k3: string,
                       env: Env)
    requires Key(k0) && Text(v0, env)
    requires Printable([(k1, a.project)] + ([(k2, a.token)] + ([(k3, a.database)] + last)), env)
    ensures Printable([(k0, v0), (k1, a.project), (k2, a.token), (k3, a.database)] + last, env)
  {
    var rest := [(k1, a.project)] + ([(k2, a.token)] + ([(k3, a.database)] + last));
    PrintableCons(k0, v0, rest, env);
    assert [(k0, v0)] + rest == [(k0, v0), (k1, a.project), (k2, a.token), (k3, a.database)] + last;
  }

  lemma JoinTail(p: seq<string>, i: nat)
    requires i + 1 < |p|
    ensures Join(p[i..], '&') == p[i] + "&" + Join(p[i + 1..], '&')
  {
    assert p[i..][1..] == p[i + 1..];
  }

  lemma FourAssociate(a: string, b: string, c: string, d: string, s: string)
    ensures a + s + (b + s + (c + s + d)) == a + s + b + s + c + s + d
  {
  }

  lemma JoinFour(p: seq<string>)
    requires |p| == 4 || |p| == 5
    ensures Join(p, '&') == p[0] + "&" + p[1] + "&" + p[2] + "&" + p[3] + if |p| == 4 then "" else "&" + p[4]
  {
    assert p[0..] == p;
    JoinTail(p, 0);
    JoinTail(p, 1);
    JoinTail(p, 2);
    FourAssociate(p[0], p[1], p[2], Join(p[3..], '&'), "&");
    if |p| == 5 {
      JoinTail(p, 3);
      Associates(p[0] + "&" + p[1] + "&" + p[2] + "&", p[3], "&" + p[4]);
      Associates(p[3], "&", p[4]);
    }
  }

  lemma QueryIsJoined(a: GcsArguments, env: Env)
    requires EnvOk(env) && Texts(a, env) && Printable(GcsPairs(a), env)
    ensures GcsQuery(a.project, a.token, a.database, a.endpoint) == Join(Parameters(GcsPairs(a), env), '&')
  {
    var p := Parameters(GcsPairs(a), env);
    JoinFour(p);
    VfsParameter();
    GcsPairAt(a);
    assert p[1] == Parameter("project", a.project) && p[2] == Parameter("access_token", a.token);
    assert p[3] == Parameter("database", a.database);
  }

  lemma VfsParameter()
    ensures Bytes("blockcachevfs") && Parameter("vfs", "blockcachevfs") == "vfs" + "=" + "blockcachevfs"
  {
    VfsName();
    KeyUnescaped("blockcachevfs");
  }

  lemma GcsPairAt(a: GcsArguments)
    ensures var p := GcsPairs(a);
            && p[0] == ("vfs", "blockcachevfs") && p[1] == ("project", a.project)
            && p[2] == ("access_token", a.token) && p[3] == ("database", a.database)
            && (a.endpoint.Some? ==> |p| == 5 && p[4] == ("endpoint", a.endpoint.value))
            && (a.endpoint.None? ==> |p| == 4)
  {
  }

  lemma {:induction false} JoinAvoids(parts: seq<string>, c: char, d: char)
    requires parts != [] && c != d && forall i :: 0 <= i < |parts| ==> d !in parts[i]
    ensures d !in Join(parts, c)
  {
    if |parts| > 1 { JoinAvoids(parts[1..], c, d); }
  }

  lemma SchemeOf(rest: string)
    ensures SchemeEnd("gcs://" + rest) == Some(3)
  {
    var s := "gcs://" + rest;
    assert s[..3][0] == 'g' && s[1..][..3][0] == 'c' && s[2..][..3][0] == 's' && s[3..][..3] == "://";
    assert s[1..][1..] == s[2..] && s[2..][1..] == s[3..];
    assert SchemeEnd(s[2..]) == Some(1);
    assert SchemeEnd(s[1..]) == Some(2);
  }

  function Assembled(a: GcsArguments, uri: string, env: Env): Option<CloudConnectionUri> {
    if !Valid(a, env) then None
    else Some(CloudConnectionUri(a.bucket, a.prefix, a.database, Google(a.project, a.token), a.endpoint, None, uri,
                                 None))
  }

  lemma ParametersAvoid(pairs: Pairs, c: char, env: Env)
    requires Printable(pairs, env) && c in ['&', '#']
    ensures forall i :: 0 <= i < |pairs| ==> c !in Parameters(pairs, env)[i]
  {
    forall i | 0 <= i < |pairs|
      ensures c !in Parameters(pairs, env)[i]
    {
      assert PrintablePair(pairs[i], env);
      ParameterDelimiters(pairs[i].0, pairs[i].1, c);
    }
  }

  /** Any printed query of distinct keys reads back as exactly those pairs. */
  lemma PairsReadBack(pairs: Pairs, env: Env)
    requires EnvOk(env) && Printable(pairs, env) && DistinctKeys(pairs) && pairs != []
    ensures var query := Join(Parameters(pairs, env), '&');
            var options := Collect(Split(query, '&'), map[], env);
            '#' !in query && options.Some? && Added(map[], pairs, options.value)
  {
    var parameters := Parameters(pairs, env);
    CollectAll(pairs, map[], env);
    ParametersAvoid(pairs, '&', env);
    ParametersAvoid(pairs, '#', env);
    SplitJoin(parameters, '&');
    JoinAvoids(parameters, '&', '#');
  }

  predicate GcsOptions(a: GcsArguments, options: map<string, string>) {
    && options.Keys <= Known("gcs") && "block_size" !in options && "upload_concurrency" !in options
    && "vfs" in options && options["vfs"] == "blockcachevfs"
    && Get(options, "project") == a.project && Get(options, "access_token") == a.token
    && "database" in options && options["database"] == a.database
    && ("endpoint" in options <==> a.endpoint.Some?)
    && (a.endpoint.Some? ==> options["endpoint"] == a.endpoint.value)
  }

  lemma AddedOptions(a: GcsArguments, options: map<string, string>)
    requires Added(map[], GcsPairs(a), options)
    ensures GcsOptions(a, options)
  {
    var p := GcsPairs(a);
    AddedAt(p, options, 0);
    AddedAt(p, options, 1);
    AddedAt(p, options, 2);
    AddedAt(p, options, 3);
    if a.endpoint.Some? { AddedAt(p, options, 4); } else { GcsLacks(a, options, "endpoint"); }
    GcsLacks(a, options, "block_size");
    GcsLacks(a, options, "upload_concurrency");
    forall k | k in options
      ensures k in Known("gcs")
    {
      GcsKeysKnown(a, options, k);
    }
  }

  lemma AddedAt(pairs: Pairs, options: map<string, string>, i: nat)
    requires Added(map[], pairs, options) && i < |pairs|
    ensures pairs[i].0 in options && options[pairs[i].0] == pairs[i].1
  {
  }

  lemma GcsLacks(a: GcsArguments, options: map<string, string>, key: string)
    requires Added(map[], GcsPairs(a), options)
    requires key == "block_size" || key == "upload_concurrency" || (key == "endpoint" && a.endpoint.None?)
    ensures key !in options
  {
    assert forall i :: 0 <= i < |GcsPairs(a)| ==> GcsPairs(a)[i].0 != key;
  }

  lemma GcsKeysKnown(a: GcsArguments, options: map<string, string>, key: string)
    requires Added(map[], GcsPairs(a), options) && key in options
    ensures key in Known("gcs")
  {
    var i :| 0 <= i < |GcsPairs(a)| && GcsPairs(a)[i].0 == key;
  }

  /** The query half: splitting and collecting what was printed finds the arguments. */
  lemma QueryReadsBack(a: GcsArguments, env: Env)
    requires EnvOk(env) && Texts(a, env)
    ensures var query := GcsQuery(a.project, a.token, a.database, a.endpoint);
            var options := Collect(Split(query, '&'), map[], env);
            '#' !in query && options.Some? && GcsOptions(a, options.value)
  {
    GcsPairsPrintable(a, env);
    GcsPairsDistinct(a);
    QueryIsJoined(a, env);
    var pairs := GcsPairs(a);
    PairsReadBack(pairs, env);
    AddedOptions(a, Collect(Split(Join(Parameters(pairs, env), '&'), '&'), map[], env).value);
  }

  lemma StorageOf(a: GcsArguments, options: map<string, string>)
    requires GcsOptions(a, options)
    ensures ParseStorage("gcs", options) ==
            if a.project == "" || !ValidCredential(a.token) then None else Some(Google(a.project, a.token))
  {
  }

  lemma AssembleOptions(a: GcsArguments, options: map<string, string>, uri: string, env: Env)
    requires ValidBucket(a.bucket) && ValidPrefix(a.prefix) && GcsOptions(a, options)
    ensures Assemble("gcs", a.bucket, a.prefix, options, uri, env) == Assembled(a, uri, env)
  {
    StorageOf(a, options);
  }

  /** The location half. */
  lemma LocationReadsBack(bucket: string, prefix: string, env: Env)
    requires Text(bucket, env) && Text(prefix, env)
    ensures var location := Encode(bucket, false) + "/" + Encode(prefix, true);
            && '?' !in location && '#' !in location
            && Location(location) == (Encode(bucket, false), Encode(prefix, true))
            && DecodeText(Encode(prefix, true), env) == Some(prefix)
  {
    var b, p := Encode(bucket, false), Encode(prefix, true);
    Delimiters(bucket, false, '?');
    Delimiters(bucket, false, '#');
    Delimiters(bucket, false, '/');
    Delimiters(prefix, true, '?');
    Delimiters(prefix, true, '#');
    SplitOnceAt(b, '/', p);
    DecodeEncode(prefix, true);
  }

  lemma ParsedOf(location: string, query: string, env: Env)
    requires '?' !in location
    ensures var uri := "gcs://" + (location + "?" + query);
            ParsedUri(uri, env) == ParsedParts("gcs", location, query, uri, env)
  {
    var rest := location + "?" + query;
    var uri := "gcs://" + rest;
    SchemeOf(rest);
    assert uri[..3] == "gcs" && uri[6..] == rest;
    SplitOnceAt(location, '?', query);
  }

  lemma PartsReadBack(a: GcsArguments, uri: string, env: Env)
    requires EnvOk(env) && Texts(a, env)
    ensures ParsedParts("gcs", Encode(a.bucket, false) + "/" + Encode(a.prefix, true),
                        GcsQuery(a.project, a.token, a.database, a.endpoint), uri, env) == Assembled(a, uri, env)
  {
    LocationReadsBack(a.bucket, a.prefix, env);
    BucketSurvives(a.bucket);
    PrefixUnchanged(a.prefix);
    QueryReadsBack(a, env);
    if ValidBucket(a.bucket) && ValidPrefix(a.prefix) {
      var query := GcsQuery(a.project, a.token, a.database, a.endpoint);
      AssembleOptions(a, Collect(Split(query, '&'), map[], env).value, uri, env);
    }
  }

  /**
   Printing and parsing again yields exactly the arguments, byte for byte, when each argument is
   valid on its own, and an error in every other case.
   */
  lemma GcsRoundTrip(a: GcsArguments, env: Env)
    requires EnvOk(env) && Texts(a, env)
    ensures ParsedUri(Uri(a, env), env) == Assembled(a, Uri(a, env), env)
  {
    LocationReadsBack(a.bucket, a.prefix, env);
    ParsedOf(Encode(a.bucket, false) + "/" + Encode(a.prefix, true),
             GcsQuery(a.project, a.token, a.database, a.endpoint), env);
    PartsReadBack(a, Uri(a, env), env);
  }

  // ---------------------------------------------------------------- every accepted URI

  /** An S3 secret is the key alone or key, newline, session token, and can be told apart again. */
  predicate StorageValid(storage: CloudStorage) {
    match storage
    case Google(project, token) => project != "" && ValidCredential(token)
    case S3(region, id, secret, redact) =>
      var parts := Split(secret, '\n');
      && ValidRegion(region) && ValidCredential(id)
      && 1 <= |parts| <= 2 && (forall i :: 0 <= i < |parts| ==> ValidCredential(parts[i]))
      && redact == [id] + parts + [secret]
  }

  lemma CredentialHasNoNewline(s: string)
    requires ValidCredential(s)
    ensures '\n' !in s && Split(s, '\n') == [s]
  {
    SplitAt(s, '\n', "");
  }

  lemma StorageIsValid(scheme: string, options: map<string, string>)
    requires ParseStorage(scheme, options).Some?
    ensures StorageValid(ParseStorage(scheme, options).value)
  {
    if scheme != "gcs" {
      var secret := Get(options, "secret_access_key");
      CredentialHasNoNewline(secret);
      if "session_token" in options {
        CredentialHasNoNewline(options["session_token"]);
        SplitAt(secret, '\n', options["session_token"]);
      }
    }
  }

  predicate ConnectionValid(c: CloudConnectionUri, env: Env) {
    && ValidBucket(c.bucket) && ValidPrefix(c.prefix) && ValidDatabase(c.database) && StorageValid(c.storage)
    && (c.endpoint.Some? ==> ValidEndpoint(c.endpoint.value, env))
    && (c.uploadConcurrency.Some? ==> 1 <= c.uploadConcurrency.value <= 0x7FFF_FFFF)
    && (c.blockSize.Some? ==> 32 * 1024 <= c.blockSize.value <= 0x7FFF_FFFF && PowerOfTwo(c.blockSize.value))
  }

  /** Whatever text is accepted, of either provider, every part of the result is valid. */
  lemma ParsedIsValid(uri: string, env: Env)
    ensures ParsedUri(uri, env).Some? ==>
              ConnectionValid(ParsedUri(uri, env).value, env) && ParsedUri(uri, env).value.uri == uri
  {
    if ParsedUri(uri, env).Some? {
      var end := SchemeEnd(uri).value;
      var parts := SplitOnce(uri[end + 3..], '?').value;
      PartsAreValid(uri[..end], parts.0, parts.1, uri, env);
    }
  }

  lemma PartsAreValid(scheme: string, location: string, query: string, uri: string, env: Env)
    requires ParsedParts(scheme, location, query, uri, env).Some?
    ensures ConnectionValid(ParsedParts(scheme, location, query, uri, env).value, env)
    ensures ParsedParts(scheme, location, query, uri, env).value.uri == uri
  {
    PrefixUnchanged(DecodeText(Location(location).1, env).value);
    StorageIsValid(scheme, Collect(Split(query, '&'), map[], env).value);
  }

  // ---------------------------------------------------------------- identity

  datatype Identity = Identity(
    provider: string, scope: string, bucket: string, prefix: string, database: string,
    endpoint: Option<string>, uploadConcurrency: Option<nat>)

  function IdentityOf(c: CloudConnectionUri): Identity {
    Identity(if c.storage.Google? then "gcs" else "s3",
             if c.storage.Google? then c.storage.project else c.storage.region,
             c.bucket, c.prefix, c.database, c.endpoint, c.uploadConcurrency)
  }

  /** What a URI says, before it is judged: its decoded parts. */
  datatype Said = Said(scheme: string, bucket: string, prefix: string, options: map<string, string>)

  function SaidInParts(scheme: string, location: string, query: string, env: Env): Option<Said> {
    var prefix, options := DecodeText(Location(location).1, env), Collect(Split(query, '&'), map[], env);
    if prefix.None? || options.None? then None
    else Some(Said(scheme, Location(location).0, prefix.value, options.value))
  }

  function SaidBy(uri: string, env: Env): Option<Said> {
    var end := SchemeEnd(uri);
    if end.None? then None
    else
      var parts := SplitOnce(uri[end.value + 3..], '?');
      if parts.None? then None else SaidInParts(uri[..end.value], parts.value.0, parts.value.1, env)
  }

  function Lookup(options: map<string, string>, key: string): Option<string> {
    if key in options then Some(options[key]) else None
  }

  function DatabaseOf(options: map<string, string>): string {
    if "database" in options then options["database"] else "default.db"
  }

  function ConcurrencyOf(options: map<string, string>): Option<nat> {
    if "upload_concurrency" in options then ParseConcurrency(options["upload_concurrency"]) else None
  }

  /** The options that do not say which database is meant. */
  function Unscoped(scheme: string): set<string> {
    {"block_size"} + if scheme == "gcs" then {"access_token"} else {"access_id", "secret_access_key", "session_token"}
  }

  /** Equal up to the default database name and the spelling of a number. */
  predicate SameOption(a: map<string, string>, b: map<string, string>, key: string) {
    if key == "database" then DatabaseOf(a) == DatabaseOf(b)
    else if key == "upload_concurrency" then ConcurrencyOf(a) == ConcurrencyOf(b)
    else Lookup(a, key) == Lookup(b, key)
  }

  /** The same scheme, bucket, prefix and options, credentials and block size aside. */
  ghost predicate SamePlace(a: Said, b: Said) {
    && a.scheme == b.scheme && a.bucket == b.bucket && a.prefix == b.prefix
    && forall key :: key !in Unscoped(a.scheme) ==> SameOption(a.options, b.options, key)
  }

  function ScopeKey(scheme: string): string {
    if scheme == "gcs" then "project" else "region"
  }

  /** What is known of the options of an accepted URI. */
  predicate AcceptedOptions(scheme: string, options: map<string, string>) {
    && options.Keys <= Known(scheme) && Lookup(options, "vfs") == Some("blockcachevfs")
    && ScopeKey(scheme) in options
  }

  lemma StorageScope(scheme: string, options: map<string, string>)
    requires ParseStorage(scheme, options).Some?
    ensures var storage := ParseStorage(scheme, options).value;
            && (storage.Google? <==> scheme == "gcs")
            && Lookup(options, ScopeKey(scheme)) == Some(if storage.Google? then storage.project else storage.region)
  {
  }

  function IdentitySaid(said: Said): Identity {
    Identity(said.scheme, Get(said.options, ScopeKey(said.scheme)), said.bucket, said.prefix,
             DatabaseOf(said.options), Lookup(said.options, "endpoint"), ConcurrencyOf(said.options))
  }

  lemma IdentityOfParts(scheme: string, location: string, query: string, uri: string, env: Env)
    requires ParsedParts(scheme, location, query, uri, env).Some? && (scheme == "gcs" || scheme == "s3")
    ensures var said := SaidInParts(scheme, location, query, env);
            && said.Some? && AcceptedOptions(scheme, said.value.options)
            && IdentityOf(ParsedParts(scheme, location, query, uri, env).value) == IdentitySaid(said.value)
  {
    PrefixUnchanged(DecodeText(Location(location).1, env).value);
    StorageScope(scheme, Collect(Split(query, '&'), map[], env).value);
  }

  lemma IdentityOfSaid(uri: string, env: Env)
    requires ParsedUri(uri, env).Some?
    ensures var said := SaidBy(uri, env);
            && said.Some? && AcceptedOptions(said.value.scheme, said.value.options)
            && IdentityOf(ParsedUri(uri, env).value) == IdentitySaid(said.value)
  {
    var end := SchemeEnd(uri).value;
    var parts := SplitOnce(uri[end + 3..], '?').value;
    IdentityOfParts(uri[..end], parts.0, parts.1, uri, env);
  }

  /** Outside the four options the identity records, accepted URIs of one scheme cannot differ. */
  lemma OptionDecided(scheme: string, a: map<string, string>, b: map<string, string>, key: string)
    requires AcceptedOptions(scheme, a) && AcceptedOptions(scheme, b) && key !in Unscoped(scheme)
    requires key != ScopeKey(scheme) && key != "database" && key != "endpoint" && key != "upload_concurrency"
    ensures SameOption(a, b, key)
  {
    if key != "vfs" {
      assert key !in Known(scheme);
    }
  }

  lemma ScopedKeys(scheme: string)
    ensures ScopeKey(scheme) !in Unscoped(scheme) && "database" !in Unscoped(scheme)
    ensures "endpoint" !in Unscoped(scheme) && "upload_concurrency" !in Unscoped(scheme)
    ensures ScopeKey(scheme) != "database" && ScopeKey(scheme) != "upload_concurrency"
    ensures "endpoint" != "database" && "endpoint" != "upload_concurrency"
  {
  }

  lemma SamePlaceIff(a: Said, b: Said)
    requires AcceptedOptions(a.scheme, a.options) && AcceptedOptions(b.scheme, b.options)
    ensures IdentitySaid(a) == IdentitySaid(b) <==> SamePlace(a, b)
  {
    ScopedKeys(a.scheme);
    if IdentitySaid(a) == IdentitySaid(b) {
      forall key | key !in Unscoped(a.scheme)
        ensures SameOption(a.options, b.options, key)
      {
        if key != ScopeKey(a.scheme) && key != "database" && key != "endpoint" && key != "upload_concurrency" {
          OptionDecided(a.scheme, a.options, b.options, key);
        }
      }
    }
    if SamePlace(a, b) {
      assert SameOption(a.options, b.options, ScopeKey(a.scheme)) && SameOption(a.options, b.options, "database");
      assert SameOption(a.options, b.options, "endpoint") && SameOption(a.options, b.options, "upload_concurrency");
    }
  }

  /** Any two accepted URIs, of either provider, have the same identity exactly when their decoded
      parts agree: the same scheme, bucket and prefix, and the same options in any order, except
      credentials and block size. */
  lemma IdentityIgnoresOnlyCredentials(u: string, v: string, env: Env)
    ensures ParsedUri(u, env).Some? && ParsedUri(v, env).Some? ==>
              && SaidBy(u, env).Some? && SaidBy(v, env).Some?
              && (IdentityOf(ParsedUri(u, env).value) == IdentityOf(ParsedUri(v, env).value) <==>
                    SamePlace(SaidBy(u, env).value, SaidBy(v, env).value))
  {
    if ParsedUri(u, env).Some? && ParsedUri(v, env).Some? {
      IdentityOfSaid(u, env);
      IdentityOfSaid(v, env);
      SamePlaceIff(SaidBy(u, env).value, SaidBy(v, env).value);
    }
  }

  /** Two printed URIs name the same database iff they differ at most in the access token. */
  lemma IdentityIgnoresOnlyTheToken(a: GcsArguments, b: GcsArguments, env: Env)
    requires EnvOk(env) && Texts(a, env) && Texts(b, env) && Valid(a, env) && Valid(b, env)
    ensures var x, y := ParsedUri(Uri(a, env), env), ParsedUri(Uri(b, env), env);
            x.Some? && y.Some? && (IdentityOf(x.value) == IdentityOf(y.value) <==> a.(token := b.token) == b)
  {
    GcsRoundTrip(a, env);
    GcsRoundTrip(b, env);
  }

  /** Only the arguments themselves print the URI of valid arguments. */
  lemma UriInjective(a: GcsArguments, b: GcsArguments, env: Env)
    requires EnvOk(env) && Texts(a, env) && Texts(b, env) && Uri(a, env) == Uri(b, env) && Valid(a, env)
    ensures a == b
  {
    GcsRoundTrip(a, env);
    GcsRoundTrip(b, env);
  }
}
