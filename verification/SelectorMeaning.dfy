/** The two canonical forms of a selector, said outright: which text each selector becomes. */
module SelectorMeaning {
  import opened Common
  import opened Strings
  import opened Selector
  import opened SelectorTheorems

  // ---------------------------------------------------------------- the session form

  /** What a session selector may address: a region in lower case, or the JSON API of Google, and
      perhaps an endpoint without trailing slashes. */
  predicate Sensible(m: Meaning) {
    && (if m.kind.S3? then m.first != "" && Lower(m.first) == m.first else m.first == "json")
    && (m.endpoint.Some? ==> m.endpoint.value != "" && Last(m.endpoint.value) != '/')
  }

  /** The normal text of a meaning. */
  function Text(m: Meaning): string {
    (if m.kind.S3? then "s3?region=" else "google?api=") + m.first +
    if m.endpoint.None? then "" else "&endpoint=" + m.endpoint.value
  }

  /** The pairs a selector of this meaning has to consist of. */
  function Required(m: Meaning): multiset<(string, string)> {
    multiset{(if m.kind.S3? then "region" else "api", m.first)} +
    if m.endpoint.None? then multiset{} else multiset{("endpoint", m.endpoint.value)}
  }

  /** The selector is the module's name in some letter case and, behind a question mark, exactly the
      pairs of the meaning, in any order, up to the letter case of keys and trailing slashes. */
  predicate Addresses(provider: string, m: Meaning) {
    var parts := SplitOnce(provider, '?');
    && Sensible(m) && parts.Some? && Lower(parts.value.0) == (if m.kind.S3? then "s3" else "google")
    && var ps := Split(parts.value.1, '&');
       (forall i :: 0 <= i < |ps| ==> '=' in ps[i]) && PairsOf(m.kind, ps) == Required(m)
  }

  lemma SensibleIsGood(m: Meaning)
    ensures Sensible(m) <==> Good(m.kind, SlotsOf(m))
  {
    assert Lower("json") == "json";
    if m.endpoint.Some? && m.endpoint.value != "" {
      var e := m.endpoint.value;
      assert e[|e| - 1..] == [Last(e)];
    }
    if m.kind.Google? && m.first != "json" && Lower(m.first) == "json" {
      assert FirstValue(m.kind, m.first) == Some("json");
    }
  }

  lemma RequiredIsFilled(m: Meaning)
    ensures Required(m) == Filled(m.kind, SlotsOf(m))
  {
  }

  lemma AddressesIsDenotes(provider: string, m: Meaning)
    ensures Addresses(provider, m) <==> Denotes(provider, m)
  {
    SensibleIsGood(m);
    RequiredIsFilled(m);
    NameDecides(m.kind);
  }

  lemma TextIsPrint(m: Meaning)
    ensures Print(m.kind, m.first, m.endpoint) == Text(m)
  {
    var tail := if m.endpoint.None? then "" else "&endpoint=" + m.endpoint.value;
    if m.endpoint.Some? { assert "&" + ("endpoint" + "=" + m.endpoint.value) == tail; }
    if m.kind.S3? {
      Nested("s3", "?", "region", "=", m.first, tail);
      assert "s3" + "?" + "region" + "=" == "s3?region=";
    } else {
      Nested("google", "?", "api", "=", m.first, tail);
      assert "google" + "?" + "api" + "=" == "google?api=";
    }
  }

  lemma Nested(a: string, b: string, c: string, d: string, e: string, f: string)
    ensures a + b + (c + d + e + f) == a + b + c + d + e + f
  {
  }

  /** A selector is accepted, and as this text, exactly when it addresses something of which this is
      the text. */
  lemma SessionTextIff(provider: string, text: string)
    ensures Session(provider) == Some(text) <==> exists m :: Addresses(provider, m) && text == Text(m)
  {
    if Session(provider) == Some(text) {
      var m := DenotesWhenAccepted(provider);
      AcceptedWhenDenoting(provider, m);
      AddressesIsDenotes(provider, m);
      TextIsPrint(m);
      assert Addresses(provider, m) && text == Text(m);
    }
    if m :| Addresses(provider, m) && text == Text(m) {
      AddressesIsDenotes(provider, m);
      AcceptedWhenDenoting(provider, m);
      TextIsPrint(m);
    }
  }

  // ---------------------------------------------------------------- the attachment form

  /** A value without its trailing slashes. */
  predicate Trimmed(value: string, v: string) {
    v <= value && (v != "" ==> Last(v) != '/') && forall i :: |v| <= i < |value| ==> value[i] == '/'
  }

  /** A parameter respelled: its key in lower case, an endpoint without trailing slashes and not empty;
      anything without an equals sign as it is. */
  ghost predicate Respelled(p: string, q: string) {
    if '=' !in p then q == p else exists key, value, v :: RespelledAs(p, q, key, value, v)
  }

  predicate RespelledAs(p: string, q: string, key: string, value: string, v: string) {
    && p == key + "=" + value && '=' !in key && q == Lower(key) + "=" + v
    && if Lower(key) == "endpoint" then v != "" && Trimmed(value, v) else v == value
  }

  lemma TrimmedIff(value: string, v: string)
    ensures Trimmed(value, v) <==> v == TrimSlashes(value)
  {
    var t := TrimSlashes(value);
    assert t != "" ==> t[|t| - 1..] == [Last(t)];
    assert Trimmed(value, t);
    if Trimmed(value, v) { TrimmedOnce(value, v, t); }
  }

  lemma TrimmedOnce(value: string, v: string, t: string)
    requires Trimmed(value, v) && Trimmed(value, t)
    ensures v == t
  {
    assert v == value[..|v|] && t == value[..|t|];
  }

  lemma CanonicalIsRespelled(p: string, q: string)
    requires '=' in p && CanonicalParameter(p) == Some(q)
    ensures Respelled(p, q)
  {
    var (k, w) := SplitOnce(p, '=').value;
    var v := if Lower(k) == "endpoint" then TrimSlashes(w) else w;
    TrimmedIff(w, v);
    assert RespelledAs(p, q, k, w, v);
  }

  lemma RespelledIsCanonical(p: string, q: string)
    requires '=' in p && Respelled(p, q)
    ensures CanonicalParameter(p) == Some(q)
  {
    var key, value, v :| RespelledAs(p, q, key, value, v);
    SplitOnceAt(key, '=', value);
    TrimmedIff(value, v);
  }

  lemma RespelledIff(p: string, q: string)
    ensures CanonicalParameter(p) == Some(q) <==> Respelled(p, q)
  {
    if '=' in p {
      if CanonicalParameter(p) == Some(q) { CanonicalIsRespelled(p, q); }
      if Respelled(p, q) { RespelledIsCanonical(p, q); }
    }
  }

  ghost predicate AllRespelled(ps: seq<string>, qs: seq<string>) {
    |ps| == |qs| && forall i :: 0 <= i < |ps| ==> Respelled(ps[i], qs[i])
  }

  lemma {:induction false} AllRespelledIff(ps: seq<string>, qs: seq<string>)
    ensures CanonicalParameters(ps) == Some(qs) <==> AllRespelled(ps, qs)
  {
    if ps != [] && qs != [] {
      RespelledIff(ps[0], qs[0]);
      AllRespelledIff(ps[1..], qs[1..]);
      assert qs == [qs[0]] + qs[1..];
      AllRespelledCons(ps, qs);
    }
  }

  lemma AllRespelledCons(ps: seq<string>, qs: seq<string>)
    requires ps != [] && qs != []
    ensures AllRespelled(ps, qs) <==> Respelled(ps[0], qs[0]) && AllRespelled(ps[1..], qs[1..])
  {
    if Respelled(ps[0], qs[0]) && AllRespelled(ps[1..], qs[1..]) {
      forall i | 0 <= i < |ps|
        ensures Respelled(ps[i], qs[i])
      {
        if i > 0 { assert ps[i] == ps[1..][i - 1] && qs[i] == qs[1..][i - 1]; }
      }
    }
    if AllRespelled(ps, qs) {
      forall i | 0 <= i < |ps| - 1
        ensures Respelled(ps[1..][i], qs[1..][i])
      {
        assert Respelled(ps[i + 1], qs[i + 1]);
      }
    }
  }

  /** Selectors of other modules, or without parameters, are left alone. */
  predicate OfOtherModule(provider: string) {
    var parts := SplitOnce(provider, '?');
    parts.None? || (Lower(parts.value.0) != "s3" && Lower(parts.value.0) != "google")
  }

  ghost predicate AttachmentText(module_: string, ps: seq<string>, text: string) {
    exists qs :: AllRespelled(ps, qs) && qs != [] && text == Lower(module_) + "?" + Join(qs, '&')
  }

  lemma ModuleName(module_: string)
    ensures KindOf(module_).Some? <==> Lower(module_) == "s3" || Lower(module_) == "google"
    ensures KindOf(module_).Some? ==> Name(KindOf(module_).value) == Lower(module_)
  {
  }

  lemma AttachmentParts(module_: string, ps: seq<string>, text: string)
    ensures AttachmentText(module_, ps, text) <==>
              && CanonicalParameters(ps).Some? && CanonicalParameters(ps).value != []
              && text == Lower(module_) + "?" + Join(CanonicalParameters(ps).value, '&')
  {
    if CanonicalParameters(ps).Some? { AllRespelledIff(ps, CanonicalParameters(ps).value); }
    if qs :| AllRespelled(ps, qs) && qs != [] && text == Lower(module_) + "?" + Join(qs, '&') {
      AllRespelledIff(ps, qs);
    }
  }

  /** A selector of one of the two modules becomes this text exactly when the text is the module's name
      in lower case and each parameter, in its place, respelled; there is no other reason to refuse. */
  lemma AttachmentTextIff(provider: string, text: string)
    ensures OfOtherModule(provider) ==> Canonical(provider) == Some(provider)
    ensures !OfOtherModule(provider) ==>
              var (module_, query) := SplitOnce(provider, '?').value;
              Canonical(provider) == Some(text) <==> AttachmentText(module_, Split(query, '&'), text)
  {
    var parts := SplitOnce(provider, '?');
    if parts.Some? {
      ModuleName(parts.value.0);
      AttachmentParts(parts.value.0, Split(parts.value.1, '&'), text);
    }
  }
}
