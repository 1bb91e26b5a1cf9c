/**
 What an accepted URI means: which texts are accepted, and how each part of the result follows from
 the decoded parts of the text. Printing, of URIs and of numbers, is the partner.
 */
module CloudUriMeaning {
  import opened Common
  import opened Strings
  import opened PercentCodec
  import opened CloudUri
  import opened CloudUriTheorems

  // ---------------------------------------------------------------- numbers

  function DecimalText(n: nat): (r: string)
    ensures r != "" && AllDigits(r)
  {
    if n < 10 then ['0' + n as char] else DecimalText(n / 10) + ['0' + (n % 10) as char]
  }

  function Zeros(k: nat): string {
    seq(k, i => '0')
  }

  /** The decimal text of the number, with any leading zeros. */
  ghost predicate Denotes(text: string, n: nat) {
    exists k: nat :: text == Zeros(k) + DecimalText(n)
  }

  lemma {:induction false} DecimalOfText(k: nat, n: nat)
    ensures AllDigits(Zeros(k) + DecimalText(n)) && Decimal(Zeros(k) + DecimalText(n)) == n
  {
    var text := Zeros(k) + DecimalText(n);
    if n >= 10 {
      DecimalOfText(k, n / 10);
      assert text[..|text| - 1] == Zeros(k) + DecimalText(n / 10);
    } else {
      assert text[..|text| - 1] == Zeros(k);
      DecimalOfZeros(k);
    }
  }

  lemma {:induction false} DecimalOfZeros(k: nat)
    ensures Decimal(Zeros(k)) == 0
  {
    if k > 0 {
      assert Zeros(k)[..k - 1] == Zeros(k - 1);
      DecimalOfZeros(k - 1);
    }
  }

  lemma {:induction false} DigitsDenote(text: string)
    requires text != "" && AllDigits(text)
    ensures Denotes(text, Decimal(text))
  {
    var n := |text| - 1;
    var front, d := text[..n], text[n] as int - '0' as int;
    assert Decimal(text) == 10 * Decimal(front) + d;
    if Decimal(front) == 0 {
      ZeroDigits(front);
      assert text == Zeros(n) + DecimalText(d);
    } else {
      assert front != "";
      DigitsDenote(front);
      var k: nat :| front == Zeros(k) + DecimalText(Decimal(front));
      MoreDigits(text, k, Decimal(front), d);
    }
  }

  lemma MoreDigits(text: string, k: nat, m: nat, d: nat)
    requires m > 0 && d < 10 && text == Zeros(k) + DecimalText(m) + ['0' + d as char]
    ensures text == Zeros(k) + DecimalText(10 * m + d)
  {
    assert (10 * m + d) / 10 == m && (10 * m + d) % 10 == d;
    Associates(Zeros(k), DecimalText(m), ['0' + d as char]);
  }

  lemma {:induction false} ZeroDigits(text: string)
    requires AllDigits(text) && Decimal(text) == 0
    ensures text == Zeros(|text|)
  {
    if text != "" {
      ZeroDigits(text[..|text| - 1]);
      assert text == text[..|text| - 1] + [Last(text)];
    }
  }

  /** The texts read as a number are exactly the decimal texts of numbers below 2^32, in any spelling. */
  lemma U32Denoted(text: string, n: nat)
    ensures ParseU32(text) == Some(n) <==> n <= 0xFFFF_FFFF && Denotes(text, n)
  {
    if Denotes(text, n) {
      var k: nat :| text == Zeros(k) + DecimalText(n);
      DecimalOfText(k, n);
    }
    if ParseU32(text) == Some(n) { DigitsDenote(text); }
  }

  function Pow2(k: nat): nat {
    if k == 0 then 1 else 2 * Pow2(k - 1)
  }

  lemma {:induction false} PowerOfTwoIff(n: nat)
    ensures PowerOfTwo(n) <==> IsPow2(n)
  {
    if n > 1 && n % 2 == 0 {
      PowerOfTwoIff(n / 2);
      if PowerOfTwo(n / 2) {
        var k: nat :| n / 2 == Pow2(k);
        assert n == Pow2(k + 1);
      }
    } else if n == 1 {
      assert n == Pow2(0);
    }
    if k: nat :| n == Pow2(k) {
      if k > 0 { assert n / 2 == Pow2(k - 1); }
      Pow2Positive(k);
    }
  }

  lemma {:induction false} Pow2Positive(k: nat)
    ensures Pow2(k) > 0
  {
    if k > 0 { Pow2Positive(k - 1); }
  }

  // ---------------------------------------------------------------- which texts are accepted, and as what

  /** An optional number: absent with its text, or denoted by it and within bounds. */
  ghost predicate NumberSaid(text: Option<string>, n: Option<nat>, low: nat, high: nat) {
    match text
    case None => n.None?
    case Some(digits) => n.Some? && Denotes(digits, n.value) && low <= n.value <= high
  }

  predicate CredentialSaid(options: map<string, string>, key: string) {
    key in options && ValidCredential(options[key])
  }

  /** The credentials under their keys; an S3 secret carries the session token behind a newline. All of
      them, and what they are combined to, are to be redacted. */
  predicate StorageSaid(storage: CloudStorage, scheme: string, options: map<string, string>) {
    match storage
    case Google(project, token) =>
      && scheme == "gcs" && Lookup(options, "project") == Some(project) && project != ""
      && CredentialSaid(options, "access_token") && token == options["access_token"]
    case S3(region, id, secret, redact) =>
      && scheme == "s3" && Lookup(options, "region") == Some(region) && ValidRegion(region)
      && CredentialSaid(options, "access_id") && CredentialSaid(options, "secret_access_key")
      && id == options["access_id"]
      && var key := options["secret_access_key"];
         if "session_token" !in options then secret == key && redact == [id, key, key]
         else
           && CredentialSaid(options, "session_token")
           && var token := options["session_token"];
              secret == key + "\n" + token && redact == [id, key, token, secret]
  }

  ghost predicate ConcurrencySaid(options: map<string, string>, n: Option<nat>) {
    NumberSaid(Lookup(options, "upload_concurrency"), n, 1, 0x7FFF_FFFF)
  }

  ghost predicate BlockSizeSaid(options: map<string, string>, n: Option<nat>) {
    NumberSaid(Lookup(options, "block_size"), n, 32 * 1024, 0x7FFF_FFFF) && (n.Some? ==> IsPow2(n.value))
  }

  ghost predicate IsPow2(n: nat) {
    exists k: nat :: n == Pow2(k)
  }

  predicate TextsSaid(said: Said, uri: string, c: CloudConnectionUri, env: Env) {
    var o := said.options;
    && c.bucket == said.bucket && c.prefix == said.prefix && c.uri == uri
    && Lookup(o, "vfs") == Some("blockcachevfs") && o.Keys <= Known(said.scheme)
    && c.database == DatabaseOf(o) && ValidDatabase(c.database)
    && c.endpoint == Lookup(o, "endpoint") && (c.endpoint.Some? ==> ValidEndpoint(c.endpoint.value, env))
  }

  /** What the parser may make of the decoded parts of a text. */
  ghost predicate Says(said: Said, uri: string, c: CloudConnectionUri, env: Env) {
    && ValidBucket(said.bucket) && ValidPrefix(said.prefix) && TextsSaid(said, uri, c, env)
    && ConcurrencySaid(said.options, c.uploadConcurrency) && BlockSizeSaid(said.options, c.blockSize)
    && StorageSaid(c.storage, said.scheme, said.options)
  }

  lemma ConcurrencyIff(text: string, n: nat)
    ensures ParseConcurrency(text) == Some(n) <==> Denotes(text, n) && 1 <= n <= 0x7FFF_FFFF
  {
    U32Denoted(text, n);
  }

  lemma BlockSizeIff(text: string, n: nat)
    ensures ParseBlockSize(text) == Some(n) <==>
              Denotes(text, n) && 32 * 1024 <= n <= 0x7FFF_FFFF && IsPow2(n)
  {
    U32Denoted(text, n);
    PowerOfTwoIff(n);
  }

  lemma StorageIff(scheme: string, options: map<string, string>, storage: CloudStorage)
    requires scheme == "gcs" || scheme == "s3"
    ensures ParseStorage(scheme, options) == Some(storage) <==> StorageSaid(storage, scheme, options)
  {
  }

  function BlockSizeOf(options: map<string, string>): Option<nat> {
    if "block_size" in options then ParseBlockSize(options["block_size"]) else None
  }

  predicate ConcurrencyParsed(options: map<string, string>, n: Option<nat>) {
    n == ConcurrencyOf(options) && ("upload_concurrency" in options ==> n.Some?)
  }

  predicate BlockSizeParsed(options: map<string, string>, n: Option<nat>) {
    n == BlockSizeOf(options) && ("block_size" in options ==> n.Some?)
  }

  lemma ConcurrencyFieldIff(options: map<string, string>, n: Option<nat>)
    ensures ConcurrencySaid(options, n) <==> ConcurrencyParsed(options, n)
  {
    if "upload_concurrency" in options && n.Some? { ConcurrencyIff(options["upload_concurrency"], n.value); }
  }

  lemma BlockSizeFieldIff(options: map<string, string>, n: Option<nat>)
    ensures BlockSizeSaid(options, n) <==> BlockSizeParsed(options, n)
  {
    if "block_size" in options && n.Some? { BlockSizeIff(options["block_size"], n.value); }
  }

  /** The parser's own account of the options. */
  lemma AssembleFields(said: Said, uri: string, c: CloudConnectionUri, env: Env)
    ensures Assemble(said.scheme, said.bucket, said.prefix, said.options, uri, env) == Some(c) <==>
              && TextsSaid(said, uri, c, env)
              && ConcurrencyParsed(said.options, c.uploadConcurrency) && BlockSizeParsed(said.options, c.blockSize)
              && ParseStorage(said.scheme, said.options) == Some(c.storage)
  {
  }

  lemma AssembleIff(said: Said, uri: string, c: CloudConnectionUri, env: Env)
    requires (said.scheme == "gcs" || said.scheme == "s3") && ValidBucket(said.bucket) && ValidPrefix(said.prefix)
    ensures Assemble(said.scheme, said.bucket, said.prefix, said.options, uri, env) == Some(c) <==>
              Says(said, uri, c, env)
  {
    AssembleFields(said, uri, c, env);
    StorageIff(said.scheme, said.options, c.storage);
    ConcurrencyFieldIff(said.options, c.uploadConcurrency);
    BlockSizeFieldIff(said.options, c.blockSize);
  }

  lemma PartsIff(scheme: string, location: string, query: string, uri: string, c: CloudConnectionUri, env: Env)
    requires scheme == "gcs" || scheme == "s3"
    ensures ParsedParts(scheme, location, query, uri, env) == Some(c) <==>
              && '#' !in query && '#' !in location && SaidInParts(scheme, location, query, env).Some?
              && Says(SaidInParts(scheme, location, query, env).value, uri, c, env)
  {
    var said := SaidInParts(scheme, location, query, env);
    if said.Some? {
      PrefixUnchanged(said.value.prefix);
      if ValidBucket(said.value.bucket) && ValidPrefix(said.value.prefix) {
        AssembleIff(said.value, uri, c, env);
      }
    }
  }

  lemma NoFragment(uri: string, end: nat, location: string, query: string)
    requires end + 3 <= |uri| && uri[end..end + 3] == "://" && (uri[..end] == "gcs" || uri[..end] == "s3")
    requires uri[end + 3..] == location + "?" + query
    ensures '#' in uri <==> '#' in location || '#' in query
  {
    assert uri == uri[..end] + uri[end..end + 3] + uri[end + 3..];
    assert '#' !in uri[..end] && '#' !in uri[end..end + 3];
    assert '#' in uri[end + 3..] <==> '#' in location || '#' in query;
  }

  /** No fragment, one of the two schemes, and decoded parts that say so. */
  ghost predicate Accepts(said: Option<Said>, uri: string, c: CloudConnectionUri, env: Env) {
    && '#' !in uri && said.Some? && (said.value.scheme == "gcs" || said.value.scheme == "s3")
    && Says(said.value, uri, c, env)
  }

  lemma AcceptedInParts(uri: string, end: nat, location: string, query: string, c: CloudConnectionUri, env: Env)
    requires end + 3 <= |uri| && uri[end..end + 3] == "://" && uri[end + 3..] == location + "?" + query
    requires uri[..end] == "gcs" || uri[..end] == "s3"
    ensures ParsedParts(uri[..end], location, query, uri, env) == Some(c) <==>
              Accepts(SaidInParts(uri[..end], location, query, env), uri, c, env)
  {
    PartsIff(uri[..end], location, query, uri, c, env);
    NoFragment(uri, end, location, query);
  }

  /** Scheme, location and query of a text. */
  function Cut(uri: string): (r: Option<(string, string, string)>)
    ensures r.Some? ==> uri == r.value.0 + "://" + (r.value.1 + "?" + r.value.2)
  {
    var end := SchemeEnd(uri);
    if end.None? then None
    else
      var parts := SplitOnce(uri[end.value + 3..], '?');
      if parts.None? then None
      else
        assert uri == uri[..end.value] + uri[end.value..end.value + 3] + uri[end.value + 3..];
        Some((uri[..end.value], parts.value.0, parts.value.1))
  }

  lemma SaidByCut(uri: string, env: Env)
    ensures SaidBy(uri, env) ==
            if Cut(uri).None? then None else SaidInParts(Cut(uri).value.0, Cut(uri).value.1, Cut(uri).value.2, env)
  {
  }

  lemma ParsedByCut(uri: string, env: Env)
    ensures ParsedUri(uri, env) ==
            if Cut(uri).None? || (Cut(uri).value.0 != "gcs" && Cut(uri).value.0 != "s3") then None
            else ParsedParts(Cut(uri).value.0, Cut(uri).value.1, Cut(uri).value.2, uri, env)
  {
  }

  lemma SaidScheme(scheme: string, location: string, query: string, env: Env)
    ensures var said := SaidInParts(scheme, location, query, env); said.Some? ==> said.value.scheme == scheme
  {
  }

  lemma CutAccepted(scheme: string, location: string, query: string, uri: string, c: CloudConnectionUri, env: Env)
    requires uri == scheme + "://" + (location + "?" + query) && (scheme == "gcs" || scheme == "s3")
    ensures ParsedParts(scheme, location, query, uri, env) == Some(c) <==>
              Accepts(SaidInParts(scheme, location, query, env), uri, c, env)
  {
    SchemeCut(scheme, "://", location + "?" + query);
    AcceptedInParts(uri, |scheme|, location, query, c, env);
  }

  /** A text is accepted, and as this connection, exactly when it has no fragment, is of one of the two
      schemes, and its decoded parts say so. */
  lemma AcceptedIff(uri: string, c: CloudConnectionUri, env: Env)
    ensures ParsedUri(uri, env) == Some(c) <==> Accepts(SaidBy(uri, env), uri, c, env)
  {
    SaidByCut(uri, env);
    ParsedByCut(uri, env);
    if Cut(uri).Some? {
      var (scheme, location, query) := Cut(uri).value;
      SaidScheme(scheme, location, query, env);
      if scheme == "gcs" || scheme == "s3" { CutAccepted(scheme, location, query, uri, c, env); }
    }
  }

  // ---------------------------------------------------------------- printed URIs of either provider

  /** A URI of the scheme with these options. */
  function UriText(scheme: string, bucket: string, prefix: string, pairs: Pairs, env: Env): string
    requires Bytes(bucket) && Bytes(prefix) && Printable(pairs, env) && pairs != []
  {
    scheme + "://" + ((Encode(bucket, false) + "/" + Encode(prefix, true)) + "?" + Join(Parameters(pairs, env), '&'))
  }

  lemma SchemeOfEither(scheme: string, rest: string)
    requires scheme == "gcs" || scheme == "s3"
    ensures SchemeEnd(scheme + "://" + rest) == Some(|scheme|)
  {
    if scheme == "gcs" {
      SchemeOf(rest);
      assert scheme + "://" + rest == "gcs://" + rest;
    } else {
      SchemeOfS3(scheme + "://" + rest, rest);
    }
  }

  lemma SchemeOfS3(s: string, rest: string)
    requires s == "s3" + "://" + rest
    ensures SchemeEnd(s) == Some(2)
  {
    assert s[..3][0] == 's' && s[1..][..3][0] == '3' && s[2..][..3] == "://";
    assert s[1..][1..] == s[2..];
    assert SchemeEnd(s[2..]) == Some(0);
    assert SchemeEnd(s[1..]) == Some(1);
  }

  /** What was printed is what the text says: scheme, bucket, prefix and exactly these options. */
  lemma PrintedSays(scheme: string, bucket: string, prefix: string, pairs: Pairs, env: Env)
    requires EnvOk(env) && Text(bucket, env) && Text(prefix, env) && Printable(pairs, env) && DistinctKeys(pairs)
    requires pairs != [] && (scheme == "gcs" || scheme == "s3")
    ensures var uri := UriText(scheme, bucket, prefix, pairs, env);
            var said := SaidBy(uri, env);
            && '#' !in uri && said.Some? && said.value.scheme == scheme && said.value.prefix == prefix
            && said.value.bucket == Encode(bucket, false) && Added(map[], pairs, said.value.options)
  {
    var location, query := Encode(bucket, false) + "/" + Encode(prefix, true), Join(Parameters(pairs, env), '&');
    LocationReadsBack(bucket, prefix, env);
    PairsReadBack(pairs, env);
    TextSays(scheme, location, query, env);
  }

  lemma SchemeCut(scheme: string, mark: string, rest: string)
    ensures var uri := scheme + mark + rest;
            && uri[..|scheme|] == scheme && uri[|scheme|..|scheme| + |mark|] == mark
            && uri[|scheme| + |mark|..] == rest
  {
  }

  lemma TextSays(scheme: string, location: string, query: string, env: Env)
    requires '?' !in location && (scheme == "gcs" || scheme == "s3")
    ensures var uri := scheme + "://" + (location + "?" + query);
            && SaidBy(uri, env) == SaidInParts(scheme, location, query, env)
            && ('#' in uri <==> '#' in location || '#' in query)
  {
    var rest := location + "?" + query;
    var uri := scheme + "://" + rest;
    SchemeOfEither(scheme, rest);
    SplitOnceAt(location, '?', query);
    SchemeCut(scheme, "://", rest);
    NoFragment(uri, |scheme|, location, query);
  }

  /**
   Printing and parsing, for either provider and any options in any order: the result is exactly what
   the arguments say, if there is such a connection, and an error otherwise.
   */
  lemma UriRoundTrip(scheme: string, bucket: string, prefix: string, pairs: Pairs, env: Env)
    requires EnvOk(env) && Text(bucket, env) && Text(prefix, env) && Printable(pairs, env) && DistinctKeys(pairs)
    requires pairs != [] && (scheme == "gcs" || scheme == "s3")
    ensures var uri := UriText(scheme, bucket, prefix, pairs, env);
            forall c, options :: Added(map[], pairs, options) ==>
              (ParsedUri(uri, env) == Some(c) <==> Says(Said(scheme, bucket, prefix, options), uri, c, env))
  {
    var uri := UriText(scheme, bucket, prefix, pairs, env);
    PrintedSays(scheme, bucket, prefix, pairs, env);
    BucketSurvives(bucket);
    forall c, options | Added(map[], pairs, options)
      ensures ParsedUri(uri, env) == Some(c) <==> Says(Said(scheme, bucket, prefix, options), uri, c, env)
    {
      AddedOnce(pairs, options, SaidBy(uri, env).value.options);
      AcceptedIff(uri, c, env);
    }
  }

  lemma AddedOnce(pairs: Pairs, a: map<string, string>, b: map<string, string>)
    requires Added(map[], pairs, a) && Added(map[], pairs, b)
    ensures a == b
  {
    forall k | k in a
      ensures k in b && a[k] == b[k]
    {
      var i :| 0 <= i < |pairs| && pairs[i].0 == k;
    }
  }

  // ---------------------------------------------------------------- the options of any query

  /** A parameter is cut at its first equals sign; without one it is a key with an empty value. */
  predicate IsPair(p: string, k: string, v: string) {
    if '=' in p then p == k + "=" + v && '=' !in k else k == p && v == ""
  }

  function NonEmpty(ps: seq<string>): seq<string> {
    if ps == [] then [] else (if ps[0] == "" then [] else [ps[0]]) + NonEmpty(ps[1..])
  }

  /** The parameter decodes to the pair. */
  ghost predicate PairRead(p: string, pair: (string, string), env: Env) {
    exists k, v :: IsPair(p, k, v) && DecodeText(k, env) == Some(pair.0) && DecodeText(v, env) == Some(pair.1)
  }

  ghost predicate AllRead(ps: seq<string>, pairs: Pairs, env: Env) {
    |ps| == |pairs| && forall i :: 0 <= i < |ps| ==> PairRead(ps[i], pairs[i], env)
  }

  lemma PairReadIff(p: string, pair: (string, string), env: Env)
    ensures PairRead(p, pair, env) <==>
              DecodeText(KeyValue(p).0, env) == Some(pair.0) && DecodeText(KeyValue(p).1, env) == Some(pair.1)
  {
    var (key, value) := KeyValue(p);
    assert IsPair(p, key, value);
    forall k, v | IsPair(p, k, v)
      ensures k == key && v == value
    {
      if '=' in p { SplitOnceAt(k, '=', v); }
    }
  }

  lemma AllReadCons(ps: seq<string>, pairs: Pairs, env: Env)
    requires ps != [] && pairs != []
    ensures AllRead(ps, pairs, env) <==> PairRead(ps[0], pairs[0], env) && AllRead(ps[1..], pairs[1..], env)
  {
    if PairRead(ps[0], pairs[0], env) && AllRead(ps[1..], pairs[1..], env) {
      forall i | 0 <= i < |ps|
        ensures PairRead(ps[i], pairs[i], env)
      {
        if i > 0 { assert ps[i] == ps[1..][i - 1] && pairs[i] == pairs[1..][i - 1]; }
      }
    }
    if AllRead(ps, pairs, env) {
      forall i | 0 <= i < |ps| - 1
        ensures PairRead(ps[1..][i], pairs[1..][i], env)
      {
        assert PairRead(ps[i + 1], pairs[i + 1], env);
      }
    }
  }

  predicate Fresh(pairs: Pairs, options: map<string, string>) {
    forall i :: 0 <= i < |pairs| ==> pairs[i].0 !in options
  }

  lemma FreshCons(pair: (string, string), rest: Pairs, options: map<string, string>)
    ensures DistinctKeys([pair] + rest) && Fresh([pair] + rest, options) <==>
              pair.0 !in options && DistinctKeys(rest) && Fresh(rest, options[pair.0 := pair.1])
  {
    var all := [pair] + rest;
    assert forall i :: 0 <= i < |rest| ==> all[i + 1] == rest[i];
    if pair.0 !in options && DistinctKeys(rest) && Fresh(rest, options[pair.0 := pair.1]) {
      forall i, j | 0 <= i < j < |all|
        ensures all[i].0 != all[j].0
      {
        assert all[j] == rest[j - 1];
        if i > 0 { assert all[i] == rest[i - 1]; }
      }
    }
    if DistinctKeys(all) && Fresh(all, options) {
      assert all[0] == pair;
      forall i | 0 <= i < |rest|
        ensures rest[i].0 !in options[pair.0 := pair.1]
      {
        assert all[i + 1].0 != all[0].0;
      }
    }
  }

  lemma {:induction false} CollectedPairs(ps: seq<string>, options: map<string, string>, env: Env)
    returns (pairs: Pairs)
    requires Collect(ps, options, env).Some?
    ensures AllRead(NonEmpty(ps), pairs, env) && DistinctKeys(pairs) && Fresh(pairs, options)
    ensures Added(options, pairs, Collect(ps, options, env).value)
  {
    pairs := [];
    if ps != [] {
      if ps[0] == "" {
        pairs := CollectedPairs(ps[1..], options, env);
        assert [] + NonEmpty(ps[1..]) == NonEmpty(ps[1..]);
      } else {
        var (k, v) := KeyValue(ps[0]);
        var pair := (DecodeText(k, env).value, DecodeText(v, env).value);
        var rest := CollectedPairs(ps[1..], options[pair.0 := pair.1], env);
        pairs := [pair] + rest;
        PairReadIff(ps[0], pair, env);
        assert NonEmpty(ps)[1..] == NonEmpty(ps[1..]) && pairs[1..] == rest;
        AllReadCons(NonEmpty(ps), pairs, env);
        FreshCons(pair, rest, options);
        AddedCons(pairs, options, Collect(ps, options, env).value);
      }
    }
  }

  lemma {:induction false} PairsCollected(ps: seq<string>, pairs: Pairs, options: map<string, string>, env: Env)
    requires AllRead(NonEmpty(ps), pairs, env) && DistinctKeys(pairs) && Fresh(pairs, options)
    ensures Collect(ps, options, env).Some? && Added(options, pairs, Collect(ps, options, env).value)
  {
    if ps != [] {
      if ps[0] == "" {
        assert [] + NonEmpty(ps[1..]) == NonEmpty(ps[1..]);
        PairsCollected(ps[1..], pairs, options, env);
      } else {
        assert NonEmpty(ps)[1..] == NonEmpty(ps[1..]) && pairs == [pairs[0]] + pairs[1..];
        AllReadCons(NonEmpty(ps), pairs, env);
        PairReadIff(ps[0], pairs[0], env);
        FreshCons(pairs[0], pairs[1..], options);
        PairsCollected(ps[1..], pairs[1..], options[pairs[0].0 := pairs[0].1], env);
        AddedCons(pairs, options, Collect(ps, options, env).value);
      }
    }
  }

  /** A query gives these options exactly when its parameters, empty ones aside, decode to pairs of
      distinct keys that are these options. */
  lemma OptionsIff(query: string, options: map<string, string>, env: Env)
    ensures Collect(Split(query, '&'), map[], env) == Some(options) <==>
              exists pairs :: && AllRead(NonEmpty(Split(query, '&')), pairs, env) && DistinctKeys(pairs)
                              && Added(map[], pairs, options)
  {
    var ps := Split(query, '&');
    if Collect(ps, map[], env) == Some(options) {
      var pairs := CollectedPairs(ps, map[], env);
      assert AllRead(NonEmpty(ps), pairs, env) && DistinctKeys(pairs) && Added(map[], pairs, options);
    }
    if pairs :| AllRead(NonEmpty(ps), pairs, env) && DistinctKeys(pairs) && Added(map[], pairs, options) {
      PairsCollected(ps, pairs, map[], env);
      AddedOnce(pairs, options, Collect(ps, map[], env).value);
    }
  }
}
