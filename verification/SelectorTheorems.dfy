/** When two selectors canonicalize to the same text, said without looking at parameter order. */
module SelectorTheorems {
  import opened Common
  import opened Strings
  import opened Selector

  /** What a session selector addresses. `first` is the region, or "json" for Google. */
  datatype Meaning = Meaning(kind: Kind, first: string, endpoint: Option<string>)

  // ---------------------------------------------------------------- the order-free reading

  predicate HasPair(p: string) {
    '=' in p
  }

  /** A parameter up to the differences that do not matter. */
  function Pair(kind: Kind, p: string): (string, string) {
    match SplitOnce(p, '=')
    case None => ("", p)
    case Some((key, value)) => (Lower(key), Normal(kind, Lower(key), value))
  }

  function Normal(kind: Kind, key: string, value: string): string {
    if key == "endpoint" then TrimSlashes(value)
    else if kind.Google? && key == "api" then Lower(value)
    else value
  }

  predicate AllPairs(ps: seq<string>) {
    forall i :: 0 <= i < |ps| ==> HasPair(ps[i])
  }

  function PairsOf(kind: Kind, ps: seq<string>): multiset<(string, string)> {
    if ps == [] then multiset{} else multiset{Pair(kind, ps[0])} + PairsOf(kind, ps[1..])
  }

  function FirstPair(kind: Kind, first: Option<string>): multiset<(string, string)> {
    if first.None? then multiset{} else multiset{(FirstKey(kind), first.value)}
  }

  function EndpointPair(endpoint: Option<string>): multiset<(string, string)> {
    if endpoint.None? then multiset{} else multiset{("endpoint", endpoint.value)}
  }

  function Filled(kind: Kind, slots: Slots): multiset<(string, string)> {
    FirstPair(kind, slots.first) + EndpointPair(slots.endpoint)
  }

  predicate Good(kind: Kind, slots: Slots) {
    && (slots.first.Some? ==> FirstValue(kind, slots.first.value) == slots.first)
    && (slots.endpoint.Some? ==> slots.endpoint.value != "" && !EndsWith(slots.endpoint.value, "/"))
  }

  function SlotsOf(m: Meaning): Slots {
    Slots(Some(m.first), m.endpoint)
  }

  /**
   The selector names the module in some letter case, and its parameters, in some order and with
   keys in some letter case, are exactly the required one and perhaps an endpoint.
   */
  predicate Denotes(provider: string, m: Meaning) {
    var parts := SplitOnce(provider, '?');
    && Good(m.kind, SlotsOf(m))
    && parts.Some? && KindOf(parts.value.0) == Some(m.kind)
    && AllPairs(Split(parts.value.1, '&'))
    && PairsOf(m.kind, Split(parts.value.1, '&')) == Filled(m.kind, SlotsOf(m))
  }

  // ---------------------------------------------------------------- small facts

  lemma LowerTwice(s: string)
    ensures Lower(Lower(s)) == Lower(s)
  {
  }

  lemma LowerAvoids(s: string, c: char)
    requires c !in s && !IsAlpha(c)
    ensures c !in Lower(s)
  {
  }

  lemma KindOfName(kind: Kind)
    ensures KindOf(Name(kind)) == Some(kind) && '?' !in Name(kind)
  {
    assert Lower("s3") == "s3" && Lower("google") == "google";
  }

  lemma Keys(kind: Kind)
    ensures FirstKey(kind) != "endpoint" && Lower(FirstKey(kind)) == FirstKey(kind) && Lower("endpoint") == "endpoint"
    ensures '=' !in FirstKey(kind) && '=' !in "endpoint" && '&' !in FirstKey(kind) && '&' !in "endpoint"
  {
    assert Lower("region") == "region" && Lower("api") == "api" && Lower("endpoint") == "endpoint";
    assert "region" != "endpoint" by { assert |"region"| != |"endpoint"|; }
  }

  lemma TrimAgain(s: string)
    requires !EndsWith(s, "/")
    ensures TrimSlashes(s) == s
  {
    assert s != "" ==> s[|s| - 1..] == [Last(s)];
  }

  /** Equal after trimming means equal up to trailing slashes. */
  lemma TrimEqual(a: string, b: string)
    requires |a| <= |b|
    ensures TrimSlashes(a) == TrimSlashes(b) <==> a <= b && forall i :: |a| <= i < |b| ==> b[i] == '/'
  {
    if a <= b && forall i :: |a| <= i < |b| ==> b[i] == '/' { TrimExtended(a, b); }
    if TrimSlashes(a) == TrimSlashes(b) {
      forall i | 0 <= i < |a|
        ensures a[i] == b[i]
      {
      }
    }
  }

  lemma {:induction false} TrimExtended(a: string, b: string)
    requires a <= b && forall i :: |a| <= i < |b| ==> b[i] == '/'
    ensures TrimSlashes(a) == TrimSlashes(b)
    decreases |b|
  {
    if |a| < |b| { TrimExtended(a, b[..|b| - 1]); } else { assert a == b; }
  }

  // ---------------------------------------------------------------- filling slots

  predicate Canonicals(ps: seq<string>) {
    forall i :: 0 <= i < |ps| ==> CanonicalParameter(ps[i]) == Some(ps[i])
  }

  lemma CanonicalPair(p: string)
    requires CanonicalParameter(p) == Some(p) && HasPair(p)
    ensures var (key, value) := SplitOnce(p, '=').value;
            Lower(key) == key && (key == "endpoint" ==> value != "" && !EndsWith(value, "/") &&
                                                        TrimSlashes(value) == value)
  {
    var (key, value) := SplitOnce(p, '=').value;
    SameParameter(Lower(key), if Lower(key) == "endpoint" then TrimSlashes(value) else value, key, value);
  }

  lemma FillStep(kind: Kind, p: string, slots: Slots)
    requires CanonicalParameter(p) == Some(p) && Good(kind, slots)
    ensures var next := Fill(kind, p, slots);
            next.Some? ==> HasPair(p) && Good(kind, next.value) &&
                           multiset{Pair(kind, p)} + Filled(kind, slots) == Filled(kind, next.value)
  {
    if HasPair(p) {
      CanonicalPair(p);
      Keys(kind);
      var (key, value) := SplitOnce(p, '=').value;
      if key == FirstKey(kind) && slots.first.None? && FirstValue(kind, value).Some? {
        FirstNormal(kind, value);
        FillFirst(kind, slots, FirstValue(kind, value).value);
      } else if key == "endpoint" && slots.endpoint.None? && value != "" {
        FillEndpoint(kind, slots, value);
      }
    }
  }

  lemma FillFirst(kind: Kind, slots: Slots, value: string)
    requires slots.first.None?
    ensures multiset{(FirstKey(kind), value)} + Filled(kind, slots) == Filled(kind, slots.(first := Some(value)))
  {
  }

  lemma FillEndpoint(kind: Kind, slots: Slots, value: string)
    requires slots.endpoint.None?
    ensures multiset{("endpoint", value)} + Filled(kind, slots) == Filled(kind, slots.(endpoint := Some(value)))
  {
  }

  /** Recording a value is the same as normalising it. */
  lemma FirstNormal(kind: Kind, value: string)
    ensures FirstValue(kind, value) == FirstValue(kind, Normal(kind, FirstKey(kind), value))
    ensures FirstValue(kind, value).Some? ==> FirstValue(kind, value).value == Normal(kind, FirstKey(kind), value)
  {
    LowerTwice(value);
    Keys(kind);
  }

  lemma {:induction false} FillAllSound(kind: Kind, ps: seq<string>, slots: Slots)
    requires Canonicals(ps) && Good(kind, slots)
    ensures var end := FillAll(kind, ps, slots);
            end.Some? ==> AllPairs(ps) && Good(kind, end.value) &&
                          PairsOf(kind, ps) + Filled(kind, slots) == Filled(kind, end.value)
  {
    if ps != [] {
      FillStep(kind, ps[0], slots);
      var next := Fill(kind, ps[0], slots);
      if next.Some? && FillAll(kind, ps[1..], next.value).Some? {
        CanonicalsTail(ps);
        FillAllSound(kind, ps[1..], next.value);
        AllPairsCons(ps);
        Regroup(multiset{Pair(kind, ps[0])}, PairsOf(kind, ps[1..]), Filled(kind, slots), Filled(kind, next.value));
      }
    }
  }

  lemma CanonicalsTail(ps: seq<string>)
    requires ps != [] && Canonicals(ps)
    ensures CanonicalParameter(ps[0]) == Some(ps[0]) && Canonicals(ps[1..])
  {
  }

  lemma Regroup<T>(a: multiset<T>, b: multiset<T>, c: multiset<T>, d: multiset<T>)
    requires a + c == d
    ensures a + b + c == b + d
  {
  }

  /** If the pairs are exactly those of `end`, no parameter meets a slot that is taken. */
  lemma FillWhenDue(kind: Kind, p: string, slots: Slots, rest: multiset<(string, string)>, end: Slots)
    requires CanonicalParameter(p) == Some(p) && HasPair(p) && Good(kind, slots) && Good(kind, end)
    requires multiset{Pair(kind, p)} + rest + Filled(kind, slots) == Filled(kind, end)
    ensures Fill(kind, p, slots).Some?
    ensures Good(kind, Fill(kind, p, slots).value)
    ensures rest + Filled(kind, Fill(kind, p, slots).value) == Filled(kind, end)
  {
    CanonicalPair(p);
    Keys(kind);
    var (key, value) := SplitOnce(p, '=').value;
    FirstNormal(kind, value);
    var pair := Pair(kind, p);
    assert pair in Filled(kind, end);
    DueSlot(kind, pair, rest, slots, end);
    FillStep(kind, p, slots);
  }

  lemma DueSlot(kind: Kind, pair: (string, string), rest: multiset<(string, string)>, slots: Slots, end: Slots)
    requires multiset{pair} + rest + Filled(kind, slots) == Filled(kind, end)
    ensures (pair.0 == FirstKey(kind) && end.first == Some(pair.1) && slots.first.None?) ||
            (pair.0 == "endpoint" && end.endpoint == Some(pair.1) && slots.endpoint.None?)
  {
    Keys(kind);
    var all := Filled(kind, end);
    assert all[pair] >= 1;
    if slots.first.Some? { assert all[(FirstKey(kind), slots.first.value)] >= 1; }
    if slots.endpoint.Some? { assert all[("endpoint", slots.endpoint.value)] >= 1; }
  }

  lemma {:induction false} FilledInjective(kind: Kind, a: Slots, b: Slots)
    requires Filled(kind, a) == Filled(kind, b)
    ensures a == b
  {
    Keys(kind);
    if a.first.Some? { assert (FirstKey(kind), a.first.value) in Filled(kind, b); }
    if b.first.Some? { assert (FirstKey(kind), b.first.value) in Filled(kind, a); }
    if a.endpoint.Some? { assert ("endpoint", a.endpoint.value) in Filled(kind, b); }
    if b.endpoint.Some? { assert ("endpoint", b.endpoint.value) in Filled(kind, a); }
  }

  lemma {:induction false} FillAllComplete(kind: Kind, ps: seq<string>, slots: Slots, end: Slots)
    requires Canonicals(ps) && AllPairs(ps) && Good(kind, slots) && Good(kind, end)
    requires PairsOf(kind, ps) + Filled(kind, slots) == Filled(kind, end)
    ensures FillAll(kind, ps, slots) == Some(end)
  {
    if ps == [] {
      FilledInjective(kind, slots, end);
    } else {
      CanonicalsTail(ps);
      AllPairsCons(ps);
      FillWhenDue(kind, ps[0], slots, PairsOf(kind, ps[1..]), end);
      FillAllComplete(kind, ps[1..], Fill(kind, ps[0], slots).value, end);
    }
  }

  // ---------------------------------------------------------------- canonical spelling keeps the reading

  lemma CanonicalKeepsPair(kind: Kind, p: string)
    requires CanonicalParameter(p).Some?
    ensures var c := CanonicalParameter(p).value;
            && CanonicalParameter(c) == Some(c)
            && (HasPair(c) <==> HasPair(p)) && (HasPair(p) ==> Pair(kind, c) == Pair(kind, p))
            && ('&' !in p ==> '&' !in c)
  {
    if HasPair(p) {
      var (key, value) := SplitOnce(p, '=').value;
      var k, v := Lower(key), if Lower(key) == "endpoint" then TrimSlashes(value) else value;
      assert CanonicalParameter(p) == Some(k + "=" + v);
      LowerTwice(key);
      LowerAvoids(key, '=');
      if '&' !in p { LowerAvoids(key, '&'); }
      SplitOnceAt(k, '=', v);
      if Lower(key) == "endpoint" { TrimAgain(v); }
    }
  }

  lemma {:induction false} CanonicalsKeepPairs(kind: Kind, ps: seq<string>)
    requires CanonicalParameters(ps).Some?
    ensures var cs := CanonicalParameters(ps).value;
            && Canonicals(cs) && CanonicalParameters(cs) == Some(cs)
            && (AllPairs(cs) <==> AllPairs(ps)) && (AllPairs(ps) ==> PairsOf(kind, cs) == PairsOf(kind, ps))
            && ((forall i :: 0 <= i < |ps| ==> '&' !in ps[i]) ==> forall i :: 0 <= i < |cs| ==> '&' !in cs[i])
  {
    if ps != [] {
      CanonicalKeepsPair(kind, ps[0]);
      CanonicalsKeepPairs(kind, ps[1..]);
      var cs := CanonicalParameters(ps).value;
      var head, tail := CanonicalParameter(ps[0]).value, CanonicalParameters(ps[1..]).value;
      assert cs == [head] + tail && cs[1..] == tail;
      assert AllPairs(ps) <==> HasPair(ps[0]) && AllPairs(ps[1..]) by { AllPairsCons(ps); }
      assert AllPairs(cs) <==> HasPair(head) && AllPairs(tail) by { AllPairsCons(cs); }
    }
  }

  lemma AllPairsCons(ps: seq<string>)
    requires ps != []
    ensures AllPairs(ps) <==> HasPair(ps[0]) && AllPairs(ps[1..])
  {
    if HasPair(ps[0]) && AllPairs(ps[1..]) {
      forall i | 0 <= i < |ps|
        ensures HasPair(ps[i])
      {
        if i > 0 { assert ps[i] == ps[1..][i - 1]; }
      }
    }
  }

  /** A parameter is refused only for an endpoint that is all slashes, which nothing denotes. */
  lemma {:induction false} RefusedHasEmptyEndpoint(kind: Kind, ps: seq<string>)
    requires CanonicalParameters(ps).None? && AllPairs(ps)
    ensures ("endpoint", "") in PairsOf(kind, ps)
  {
    AllPairsCons(ps);
    if CanonicalParameter(ps[0]).Some? { RefusedHasEmptyEndpoint(kind, ps[1..]); }
  }

  // ---------------------------------------------------------------- main results

  /** The parts of the canonical spelling. */
  lemma CanonicalParts(provider: string)
    requires SplitOnce(provider, '?').Some? && KindOf(SplitOnce(provider, '?').value.0).Some?
    requires Canonical(provider).Some?
    ensures var (m, q) := SplitOnce(provider, '?').value;
            var kind := KindOf(m).value;
            var cs := CanonicalParameters(Split(q, '&'));
            && cs.Some? && Canonicals(cs.value)
            && SplitOnce(Canonical(provider).value, '?') == Some((Name(kind), Join(cs.value, '&')))
            && Split(Join(cs.value, '&'), '&') == cs.value
  {
    var (m, q) := SplitOnce(provider, '?').value;
    var kind := KindOf(m).value;
    CanonicalsKeepPairs(kind, Split(q, '&'));
    KindOfName(kind);
    var cs := CanonicalParameters(Split(q, '&')).value;
    SplitOnceAt(Name(kind), '?', Join(cs, '&'));
    SplitJoin(cs, '&');
  }

  /** The attachment spelling is a normal form. */
  lemma CanonicalIdempotent(provider: string)
    requires Canonical(provider).Some?
    ensures Canonical(Canonical(provider).value) == Canonical(provider)
  {
    var parts := SplitOnce(provider, '?');
    if parts.Some? && KindOf(parts.value.0).Some? {
      var kind := KindOf(parts.value.0).value;
      CanonicalParts(provider);
      CanonicalsKeepPairs(kind, Split(parts.value.1, '&'));
      KindOfName(kind);
    }
  }

  lemma NameDecides(kind: Kind)
    ensures Name(kind) == "s3" <==> kind.S3?
    ensures Name(kind) == "google" <==> kind.Google?
  {
    assert |"s3"| != |"google"|;
  }

  lemma SessionOfParts(kind: Kind, cs: seq<string>, text: string)
    requires cs != [] && SplitOnce(text, '?') == Some((Name(kind), Join(cs, '&'))) && Split(Join(cs, '&'), '&') == cs
    ensures SessionOf(text) == var slots := FillAll(kind, cs, Slots(None, None));
                               if slots.None? || slots.value.first.None? then None
                               else Some(Print(kind, slots.value.first.value, slots.value.endpoint))
  {
    NameDecides(kind);
  }

  /** A selector that denotes something is accepted and printed from its meaning alone. */
  lemma AcceptedWhenDenoting(provider: string, m: Meaning)
    requires Denotes(provider, m)
    ensures Session(provider) == Some(Print(m.kind, m.first, m.endpoint))
  {
    var (module_, query) := SplitOnce(provider, '?').value;
    var ps := Split(query, '&');
    if CanonicalParameters(ps).None? {
      Keys(m.kind);
      RefusedHasEmptyEndpoint(m.kind, ps);
      assert false;
    }
    CanonicalsKeepPairs(m.kind, ps);
    var cs := CanonicalParameters(ps).value;
    CanonicalParts(provider);
    FillAllComplete(m.kind, cs, Slots(None, None), SlotsOf(m));
    SessionOfParts(m.kind, cs, Canonical(provider).value);
  }

  /** Only selectors that denote something are accepted. */
  lemma DenotesWhenAccepted(provider: string) returns (m: Meaning)
    requires Session(provider).Some?
    ensures Denotes(provider, m)
  {
    var parts := SplitOnce(provider, '?');
    AcceptedShape(provider);
    var kind := KindOf(parts.value.0).value;
    var ps := Split(parts.value.1, '&');
    CanonicalParts(provider);
    CanonicalsKeepPairs(kind, ps);
    var cs := CanonicalParameters(ps).value;
    SessionOfParts(kind, cs, Canonical(provider).value);
    FillAllSound(kind, cs, Slots(None, None));
    var slots := FillAll(kind, cs, Slots(None, None)).value;
    m := Meaning(kind, slots.first.value, slots.endpoint);
  }

  lemma EmptyQuery(kind: Kind)
    ensures FillAll(kind, Split("", '&'), Slots(None, None)).None?
  {
    SplitAt("", '&', "");
    assert SplitOnce("", '=').None?;
  }

  /** Without a query, or with another module, nothing is accepted. */
  lemma AcceptedShape(provider: string)
    requires Session(provider).Some?
    ensures SplitOnce(provider, '?').Some? && KindOf(SplitOnce(provider, '?').value.0).Some?
  {
    var parts := SplitOnce(provider, '?');
    EmptyQuery(S3);
    EmptyQuery(Google);
    if parts.Some? && KindOf(parts.value.0).None? {
      KindOfName(S3);
      KindOfName(Google);
    }
  }

  lemma DenotesOnce(provider: string, m: Meaning, n: Meaning)
    requires Denotes(provider, m) && Denotes(provider, n)
    ensures m == n
  {
    FilledInjective(m.kind, SlotsOf(m), SlotsOf(n));
  }

  /** Printed values cannot hold the separator. */
  predicate NoSeparator(m: Meaning) {
    '&' !in m.first && (m.endpoint.Some? ==> '&' !in m.endpoint.value)
  }

  lemma {:induction false} PairsAvoid(kind: Kind, ps: seq<string>, pair: (string, string))
    requires AllPairs(ps) && (forall i :: 0 <= i < |ps| ==> '&' !in ps[i]) && pair in PairsOf(kind, ps)
    ensures '&' !in pair.1
  {
    AllPairsCons(ps);
    if pair == Pair(kind, ps[0]) {
      LowerAvoids(SplitOnce(ps[0], '=').value.1, '&');
    } else {
      PairsAvoid(kind, ps[1..], pair);
    }
  }

  lemma DenotedAvoids(provider: string, m: Meaning)
    requires Denotes(provider, m)
    ensures NoSeparator(m)
  {
    var ps := Split(SplitOnce(provider, '?').value.1, '&');
    PairsAvoid(m.kind, ps, (FirstKey(m.kind), m.first));
    if m.endpoint.Some? { PairsAvoid(m.kind, ps, ("endpoint", m.endpoint.value)); }
  }

  function PrintedParameters(m: Meaning): seq<string> {
    [FirstKey(m.kind) + "=" + m.first] +
    if m.endpoint.None? then [] else ["endpoint" + "=" + m.endpoint.value]
  }

  lemma PrintedPairs(m: Meaning)
    requires Good(m.kind, SlotsOf(m))
    ensures AllPairs(PrintedParameters(m)) && PairsOf(m.kind, PrintedParameters(m)) == Filled(m.kind, SlotsOf(m))
  {
    Keys(m.kind);
    var ps := PrintedParameters(m);
    SplitOnceAt(FirstKey(m.kind), '=', m.first);
    FirstNormal(m.kind, m.first);
    assert Pair(m.kind, ps[0]) == (FirstKey(m.kind), m.first);
    if m.endpoint.Some? {
      SplitOnceAt("endpoint", '=', m.endpoint.value);
      TrimAgain(m.endpoint.value);
      assert ps[1..] == [ps[1]] && [ps[1]][1..] == [];
      assert Pair(m.kind, ps[1]) == ("endpoint", m.endpoint.value);
      assert PairsOf(m.kind, ps[1..]) == multiset{("endpoint", m.endpoint.value)};
    } else {
      assert ps[1..] == [];
    }
  }

  lemma PrintedSplit(m: Meaning)
    requires NoSeparator(m)
    ensures Split(FirstKey(m.kind) + "=" + m.first +
                  if m.endpoint.None? then "" else "&" + ("endpoint" + "=" + m.endpoint.value), '&')
            == PrintedParameters(m)
  {
    Keys(m.kind);
    var first := FirstKey(m.kind) + "=" + m.first;
    if m.endpoint.Some? {
      var last := "endpoint" + "=" + m.endpoint.value;
      SplitAt(first, '&', last);
      SplitAt(last, '&', "");
      assert first + ("&" + last) == first + "&" + last;
    } else {
      SplitAt(first, '&', "");
      assert first + "" == first;
    }
  }

  lemma PrintDenotes(m: Meaning)
    requires Good(m.kind, SlotsOf(m)) && NoSeparator(m)
    ensures Denotes(Print(m.kind, m.first, m.endpoint), m)
  {
    KindOfName(m.kind);
    var query := FirstKey(m.kind) + "=" + m.first +
                 if m.endpoint.None? then "" else "&" + ("endpoint" + "=" + m.endpoint.value);
    SplitOnceAt(Name(m.kind), '?', query);
    PrintedSplit(m);
    PrintedPairs(m);
  }

  /** The session spelling is a normal form, and accepts its own output. */
  lemma SessionIdempotent(provider: string)
    ensures Session(provider).Some? ==> Session(Session(provider).value) == Session(provider)
  {
    if Session(provider).Some? {
      var m := DenotesWhenAccepted(provider);
      TextDenotes(provider, m);
      AcceptedWhenDenoting(Session(provider).value, m);
    }
  }

  /** The text of a selector means what the selector means. */
  lemma TextDenotes(provider: string, m: Meaning)
    requires Denotes(provider, m)
    ensures Session(provider) == Some(Print(m.kind, m.first, m.endpoint)) && Denotes(Session(provider).value, m)
  {
    AcceptedWhenDenoting(provider, m);
    DenotedAvoids(provider, m);
    PrintDenotes(m);
  }

  /**
   Two selectors are accepted with the same text exactly when they mean the same: same provider,
   same region, same endpoint up to trailing slashes.
   */
  lemma SameTextIffSameMeaning(p: string, q: string)
    ensures Session(p).Some? && Session(p) == Session(q) <==> exists m :: Denotes(p, m) && Denotes(q, m)
  {
    if Session(p).Some? && Session(p) == Session(q) {
      var m := DenotesWhenAccepted(p);
      var n := DenotesWhenAccepted(q);
      TextDenotes(p, m);
      TextDenotes(q, n);
      DenotesOnce(Session(p).value, m, n);
      assert Denotes(p, m) && Denotes(q, m);
    }
    if exists k :: Denotes(p, k) && Denotes(q, k) {
      var k :| Denotes(p, k) && Denotes(q, k);
      TextDenotes(p, k);
      TextDenotes(q, k);
    }
  }

  // ---------------------------------------------------------------- order

  lemma {:induction false} PairsMoved(kind: Kind, l: seq<string>, x: string, r: seq<string>)
    ensures PairsOf(kind, l + [x] + r) == multiset{Pair(kind, x)} + PairsOf(kind, l + r)
  {
    var all, rest := l + [x] + r, l + r;
    if l == [] {
      assert all[0] == x && all[1..] == r && rest == r;
    } else {
      PairsMoved(kind, l[1..], x, r);
      assert all[0] == l[0] && all[1..] == l[1..] + [x] + r;
      assert rest[0] == l[0] && rest[1..] == l[1..] + r;
    }
  }

  lemma RemoveOne(a: seq<string>, l: seq<string>, x: string, r: seq<string>)
    requires a != [] && x == a[0] && multiset(a) == multiset(l + [x] + r)
    ensures multiset(a[1..]) == multiset(l + r)
  {
    assert a == [a[0]] + a[1..];
    assert multiset(a) == multiset{x} + multiset(a[1..]);
    assert multiset(l + [x] + r) == multiset{x} + multiset(l + r);
    assert multiset(a[1..]) == multiset(a) - multiset{x} && multiset(l + r) == multiset(l + [x] + r) - multiset{x};
  }

  lemma {:induction false} PairsPermute(kind: Kind, a: seq<string>, b: seq<string>)
    requires multiset(a) == multiset(b)
    ensures PairsOf(kind, a) == PairsOf(kind, b)
  {
    if a == [] {
      assert |b| == |multiset(b)|;
    } else {
      assert a[0] in multiset(b);
      var i :| 0 <= i < |b| && b[i] == a[0];
      var l, r := b[..i], b[i + 1..];
      assert b == l + [a[0]] + r;
      RemoveOne(a, l, a[0], r);
      PairsPermute(kind, a[1..], l + r);
      PairsMoved(kind, l, a[0], r);
    }
  }

  lemma AllPairsPermute(a: seq<string>, b: seq<string>)
    requires multiset(a) == multiset(b) && AllPairs(a)
    ensures AllPairs(b)
  {
    forall i | 0 <= i < |b|
      ensures HasPair(b[i])
    {
      assert b[i] in multiset(a);
    }
  }

  lemma SameReading(p: string, q: string, m: Meaning)
    requires Denotes(p, m) && SplitOnce(q, '?').Some?
    requires KindOf(SplitOnce(q, '?').value.0) == Some(m.kind)
    requires multiset(Split(SplitOnce(p, '?').value.1, '&')) == multiset(Split(SplitOnce(q, '?').value.1, '&'))
    ensures Denotes(q, m)
  {
    var a, b := Split(SplitOnce(p, '?').value.1, '&'), Split(SplitOnce(q, '?').value.1, '&');
    PairsPermute(m.kind, a, b);
    AllPairsPermute(a, b);
  }

  lemma OrderKeepsText(p: string, q: string)
    requires SplitOnce(p, '?').Some? && SplitOnce(q, '?').Some?
    requires KindOf(SplitOnce(p, '?').value.0) == KindOf(SplitOnce(q, '?').value.0)
    requires multiset(Split(SplitOnce(p, '?').value.1, '&')) == multiset(Split(SplitOnce(q, '?').value.1, '&'))
    ensures Session(p).Some? ==> Session(p) == Session(q)
  {
    if Session(p).Some? {
      var m := DenotesWhenAccepted(p);
      SameReading(p, q, m);
      TextDenotes(p, m);
      TextDenotes(q, m);
    }
  }

  /** Reordering parameters, or changing the letter case of the module, changes nothing. */
  lemma OrderIrrelevant(m1: string, q1: string, m2: string, q2: string)
    requires '?' !in m1 && '?' !in m2 && Lower(m1) == Lower(m2)
    requires multiset(Split(q1, '&')) == multiset(Split(q2, '&'))
    ensures Session(m1 + "?" + q1) == Session(m2 + "?" + q2)
  {
    SplitOnceAt(m1, '?', q1);
    SplitOnceAt(m2, '?', q2);
    OrderKeepsText(m1 + "?" + q1, m2 + "?" + q2);
    OrderKeepsText(m2 + "?" + q2, m1 + "?" + q1);
  }
}
