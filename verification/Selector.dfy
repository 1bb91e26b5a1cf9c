/**
 Storage provider selectors, `module?key=value&...`, and their two canonical forms: the spelling
 used for attachment and the stricter one that session fences are derived from.
 */
module Selector {
  import opened Common
  import opened Strings

  /** Removes every trailing slash. */
  function TrimSlashes(s: string): (r: string)
    ensures r <= s && !EndsWith(r, "/")
    ensures forall i :: |r| <= i < |s| ==> s[i] == '/'
  {
    if s != "" && Last(s) == '/' then TrimSlashes(s[..|s| - 1]) else s
  }

  datatype Kind = S3 | Google

  function Name(kind: Kind): string {
    if kind.S3? then "s3" else "google"
  }

  /** The parameter a session selector of this kind cannot do without. */
  function FirstKey(kind: Kind): string {
    if kind.S3? then "region" else "api"
  }

  function KindOf(module_: string): Option<Kind> {
    if Lower(module_) == "s3" then Some(S3) else if Lower(module_) == "google" then Some(Google) else None
  }

  // ---------------------------------------------------------------- attachment spelling

  function CanonicalParameter(p: string): Option<string> {
    match SplitOnce(p, '=')
    case None => Some(p)
    case Some((key, value)) =>
      if Lower(key) != "endpoint" then Some(Lower(key) + "=" + value)
      else if TrimSlashes(value) == "" then None
      else Some(Lower(key) + "=" + TrimSlashes(value))
  }

  function CanonicalParameters(ps: seq<string>): (r: Option<seq<string>>)
    ensures r.Some? ==> |r.value| == |ps|
  {
    if ps == [] then Some([])
    else
      var head, tail := CanonicalParameter(ps[0]), CanonicalParameters(ps[1..]);
      if head.None? || tail.None? then None else Some([head.value] + tail.value)
  }

  /** Rebuilds the selector from its canonical parts, whether or not any of them changed. */
  function Canonical(provider: string): Option<string> {
    var parts := SplitOnce(provider, '?');
    if parts.None? || KindOf(parts.value.0).None? then Some(provider)
    else
      var ps := CanonicalParameters(Split(parts.value.1, '&'));
      if ps.None? || ps.value == [] then None
      else Some(Name(KindOf(parts.value.0).value) + "?" + Join(ps.value, '&'))
  }

  /** The pushed parameter and whether it differs from the one read. */
  method PushParameter(p: string) returns (r: Option<string>, changed: bool)
    ensures r == CanonicalParameter(p)
    ensures r.Some? ==> (changed <==> r.value != p)
  {
    var pair := SplitOnce(p, '=');
    if pair.None? { return Some(p), false; }
    var (key, value) := pair.value;
    var canonicalKey := Lower(key);
    assert p == key + "=" + value;
    if canonicalKey == "endpoint" {
      var canonicalValue := TrimSlashes(value);
      if canonicalValue == "" { return None, false; }
      if canonicalValue != value || canonicalKey != key {
        SameParameter(canonicalKey, canonicalValue, key, value);
        return Some(canonicalKey + "=" + canonicalValue), true;
      }
    }
    if canonicalKey != key {
      SameParameter(canonicalKey, value, key, value);
      return Some(canonicalKey + "=" + value), true;
    }
    return Some(p), false;
  }

  lemma SameParameter(k: string, v: string, key: string, value: string)
    requires |k| == |key|
    ensures k + "=" + v == key + "=" + value <==> k == key && v == value
  {
    var s, t := k + "=" + v, key + "=" + value;
    assert k == s[..|k|] && v == s[|k| + 1..] && key == t[..|k|] && value == t[|k| + 1..];
  }

  lemma {:induction false} CanonicalSnoc(ps: seq<string>, p: string)
    ensures CanonicalParameters(ps + [p]) ==
            (if CanonicalParameters(ps).None? || CanonicalParameter(p).None? then None
             else Some(CanonicalParameters(ps).value + [CanonicalParameter(p).value]))
  {
    if ps == [] {
      assert ps + [p] == [p] && [p][1..] == [];
      if CanonicalParameter(p).Some? {
        assert [CanonicalParameter(p).value] + [] == [] + [CanonicalParameter(p).value];
      }
    } else {
      assert (ps + [p])[1..] == ps[1..] + [p];
      CanonicalSnoc(ps[1..], p);
      var head, tail, last := CanonicalParameter(ps[0]), CanonicalParameters(ps[1..]), CanonicalParameter(p);
      if head.Some? && tail.Some? && last.Some? {
        assert [head.value] + (tail.value + [last.value]) == [head.value] + tail.value + [last.value];
      }
    }
  }

  lemma {:induction false} CanonicalStops(ps: seq<string>, n: nat)
    requires n <= |ps| && CanonicalParameters(ps[..n]).None?
    ensures CanonicalParameters(ps).None?
    decreases |ps| - n
  {
    if n == |ps| {
      assert ps[..n] == ps;
    } else {
      CanonicalSnoc(ps[..n], ps[n]);
      assert ps[..n + 1] == ps[..n] + [ps[n]];
      CanonicalStops(ps, n + 1);
    }
  }

  /** The parameter loop, which also notes whether any parameter changed. */
  method PushParameters(ps: seq<string>) returns (r: Option<seq<string>>, changed: bool)
    ensures r == CanonicalParameters(ps)
    ensures r.Some? ==> (changed <==> r.value != ps)
  {
    changed := false;
    var parameters: seq<string> := [];
    var i := 0;
    while i < |ps|
      invariant 0 <= i <= |ps|
      invariant CanonicalParameters(ps[..i]) == Some(parameters)
      invariant changed <==> parameters != ps[..i]
    {
      CanonicalSnoc(ps[..i], ps[i]);
      assert ps[..i + 1] == ps[..i] + [ps[i]];
      var p, differs := PushParameter(ps[i]);
      if p.None? {
        CanonicalStops(ps, i + 1);
        return None, false;
      }
      SameSnoc(parameters, p.value, ps[..i], ps[i]);
      changed := changed || differs;
      parameters := parameters + [p.value];
      i := i + 1;
    }
    assert ps[..i] == ps;
    r := Some(parameters);
  }

  /** Returns the text it was given when nothing changed; that is the same as rebuilding it. */
  method CanonicalStorageProvider(provider: string) returns (r: Option<string>)
    ensures r == Canonical(provider)
  {
    var parts := SplitOnce(provider, '?');
    if parts.None? { return Some(provider); }
    var (module_, query) := parts.value;
    var kind := KindOf(module_);
    if kind.None? { return Some(provider); }
    var parameters, changed := PushParameters(Split(query, '&'));
    if parameters.None? { return None; }
    if changed || module_ != Name(kind.value) {
      return Some(Name(kind.value) + "?" + Join(parameters.value, '&'));
    }
    JoinSplit(query, '&');
    return Some(provider);
  }

  lemma SameSnoc(a: seq<string>, x: string, b: seq<string>, y: string)
    requires |a| == |b|
    ensures a + [x] == b + [y] <==> a == b && x == y
  {
    if a + [x] == b + [y] {
      assert (a + [x])[..|a|] == a && (b + [y])[..|b|] == b;
      assert (a + [x])[|a|] == x && (b + [y])[|b|] == y;
    }
  }

  // ---------------------------------------------------------------- session spelling

  datatype Slots = Slots(first: Option<string>, endpoint: Option<string>)

  /** The value recorded for the required parameter, if acceptable. */
  function FirstValue(kind: Kind, value: string): Option<string> {
    if kind.S3? then if value != "" && Lower(value) == value then Some(value) else None
    else if Lower(value) == "json" then Some("json") else None
  }

  /** One parameter: it must fill an empty slot. */
  function Fill(kind: Kind, p: string, slots: Slots): Option<Slots> {
    match SplitOnce(p, '=')
    case None => None
    case Some((key, value)) =>
      if key == FirstKey(kind) && slots.first.None? && FirstValue(kind, value).Some? then
        Some(slots.(first := FirstValue(kind, value)))
      else if key == "endpoint" && slots.endpoint.None? && value != "" then Some(slots.(endpoint := Some(value)))
      else None
  }

  function FillAll(kind: Kind, ps: seq<string>, slots: Slots): Option<Slots> {
    if ps == [] then Some(slots)
    else
      var next := Fill(kind, ps[0], slots);
      if next.None? then None else FillAll(kind, ps[1..], next.value)
  }

  function Print(kind: Kind, first: string, endpoint: Option<string>): string {
    Name(kind) + "?" + (FirstKey(kind) + "=" + first +
                        if endpoint.None? then "" else "&" + ("endpoint" + "=" + endpoint.value))
  }

  /** Reading a selector whose spelling is already canonical. */
  function SessionOf(canonical: string): Option<string> {
    var parts := SplitOnce(canonical, '?');
    var (module_, query) := if parts.None? then (canonical, "") else parts.value;
    if module_ != "s3" && module_ != "google" then None
    else
      var kind := if module_ == "s3" then S3 else Google;
      var slots := FillAll(kind, Split(query, '&'), Slots(None, None));
      if slots.None? || slots.value.first.None? then None
      else Some(Print(kind, slots.value.first.value, slots.value.endpoint))
  }

  function Session(provider: string): Option<string> {
    var canonical := Canonical(provider);
    if canonical.None? then None else SessionOf(canonical.value)
  }

  method ReadS3(query: string) returns (r: Option<Slots>)
    ensures r == FillAll(S3, Split(query, '&'), Slots(None, None))
  {
    var region, endpoint := None, None;
    var ps := Split(query, '&');
    if query == "" { return None; }
    var i := 0;
    assert ps[0..] == ps;
    while i < |ps|
      invariant 0 <= i <= |ps|
      invariant FillAll(S3, ps, Slots(None, None)) == FillAll(S3, ps[i..], Slots(region, endpoint))
    {
      assert ps[i..][1..] == ps[i + 1..];
      var pair := SplitOnce(ps[i], '=');
      if pair.None? { return None; }
      var (key, value) := pair.value;
      if key == "region" && region.None? && value != "" && value == Lower(value) {
        region := Some(value);
      } else if key == "endpoint" && endpoint.None? && value != "" {
        endpoint := Some(value);
      } else {
        return None;
      }
      i := i + 1;
    }
    r := Some(Slots(region, endpoint));
  }

  method ReadGoogle(query: string) returns (jsonApi: bool, endpoint: Option<string>, ok: bool)
    ensures ok <==> FillAll(Google, Split(query, '&'), Slots(None, None)).Some?
    ensures ok ==> FillAll(Google, Split(query, '&'), Slots(None, None)) ==
                   Some(Slots(if jsonApi then Some("json") else None, endpoint))
  {
    jsonApi, endpoint, ok := false, None, false;
    var ps := Split(query, '&');
    var i := 0;
    assert ps[0..] == ps;
    while i < |ps|
      invariant 0 <= i <= |ps|
      invariant FillAll(Google, ps, Slots(None, None)) ==
                FillAll(Google, ps[i..], Slots(if jsonApi then Some("json") else None, endpoint))
    {
      assert ps[i..][1..] == ps[i + 1..];
      var pair := SplitOnce(ps[i], '=');
      if pair.None? { return; }
      var (key, value) := pair.value;
      if key == "api" && !jsonApi && Lower(value) == "json" {
        jsonApi := true;
      } else if key == "endpoint" && endpoint.None? && value != "" {
        endpoint := Some(value);
      } else {
        return;
      }
      i := i + 1;
    }
    ok := true;
  }

  method CanonicalSessionStorageProvider(provider: string) returns (r: Option<string>)
    ensures r == Session(provider)
  {
    var canonical := CanonicalStorageProvider(provider);
    if canonical.None? { return None; }
    var parts := SplitOnce(canonical.value, '?');
    var (module_, query) := if parts.None? then (canonical.value, "") else parts.value;
    if module_ == "s3" {
      var slots := ReadS3(query);
      if slots.None? || slots.value.first.None? { return None; }
      r := Some(Print(S3, slots.value.first.value, slots.value.endpoint));
    } else if module_ == "google" {
      var jsonApi, endpoint, ok := ReadGoogle(query);
      if !ok || !jsonApi { return None; }
      r := Some(Print(Google, "json", endpoint));
    } else {
      r := None;
    }
  }
}
