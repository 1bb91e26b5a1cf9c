/** What every run of the session publication protocol keeps. */
module SessionTheorems {
  import opened Common
  import opened SessionProtocol

  lemma OpsAppend(chain: seq<Claim>, c: Claim)
    ensures Ops(chain + [c]) == Ops(chain) + [c.op]
  {
  }

  /** Rewriting the head object changes no operation, predecessor or content of the chain. */
  lemma RetagChain(st: State, state: HeadState, etag: ETag)
    requires ChainOk(st.chain) && st.chain != []
    requires Edge(Top(Last(st.chain)).state, state)
    ensures ChainOk(Retag(st, state, etag).chain)
    ensures Ops(Retag(st, state, etag).chain) == Ops(st.chain)
    ensures Last(Retag(st, state, etag).chain).content == Last(st.chain).content
    ensures Last(Retag(st, state, etag).chain).base == Last(st.chain).base
    ensures CurrentETag(Retag(st, state, etag).chain) == Some(etag)
    ensures CrossedHead(st.chain) || state == Publishing ==> CrossedHead(Retag(st, state, etag).chain)
    ensures WasCommitted(Last(Retag(st, state, etag).chain)) <==> WasCommitted(Last(st.chain)) || state == Committed
  {
    var chain, chain' := st.chain, Retag(st, state, etag).chain;
    var n := |chain|;
    assert LinkOk(chain, n - 1);
    forall i | 0 <= i < n
      ensures LinkOk(chain', i)
    {
      assert LinkOk(chain, i);
      assert chain'[..i] == chain[..i];
      assert Ops(chain'[..i + 1]) == Ops(chain[..i + 1]);
    }
    VersionsGrow(Last(chain), HeadVersion(state, etag));
  }

  lemma VersionsGrow(c: Claim, v: HeadVersion)
    ensures var d := c.(versions := c.versions + [v]);
            && (Crossed(d) <==> Crossed(c) || v.state == Publishing || v.state == Committed)
            && (WasCommitted(d) <==> WasCommitted(c) || v.state == Committed)
  {
    var d := c.(versions := c.versions + [v]);
    assert d.versions[|c.versions|] == v;
    assert forall k :: 0 <= k < |c.versions| ==> d.versions[k] == c.versions[k];
  }

  /** A head that is still Accepted never crossed the fence. */
  lemma AcceptedNotCrossed(c: Claim)
    requires Life(c.versions) && Top(c).state == Accepted
    ensures !Crossed(c)
  {
    var n := |c.versions|;
    assert n > 1 ==> Edge(c.versions[n - 2].state, c.versions[n - 1].state);
    assert n == 1;
  }

  lemma RetagKeepsInv(st: State, state: HeadState, etag: ETag)
    requires Inv(st) && st.chain != [] && etag !in st.issued
    requires Edge(Top(Last(st.chain)).state, state)
    requires state == Committed ==> Visible(st.manifest, Last(st.chain).content, Last(st.chain).base)
    ensures Inv(Retag(st, state, etag))
  {
    RetagChain(st, state, etag);
    var st' := Retag(st, state, etag);
    forall s | s in st'.servers
      ensures ServerOk(st', st'.servers[s])
    {
      assert ServerOk(st, st.servers[s]);
      assert LinkOk(st.chain, |st.chain| - 1);
      assert st.chain[..|st.chain| - 1 + 1] == st.chain;
    }
  }

  lemma ClaimChain(st: State, sv: Server, base: nat, state: HeadState, etag: ETag)
    requires Inv(st) && sv.tip == Ops(st.chain) && etag !in st.issued
    requires CurrentETag(st.chain) == sv.captured && Extensible(st, sv)
    requires state == Accepted || state == Publishing
    ensures ChainOk(CompareAndClaim(st, sv, base, state, etag).chain)
    ensures Ops(CompareAndClaim(st, sv, base, state, etag).chain) == Ops(st.chain) + [sv.op]
  {
    var chain := CompareAndClaim(st, sv, base, state, etag).chain;
    OpsAppend(st.chain, Last(chain));
    forall i | 0 <= i < |chain|
      ensures LinkOk(chain, i)
    {
      assert chain[..i] == st.chain[..i];
      if i < |st.chain| {
        assert LinkOk(st.chain, i);
        assert chain[..i + 1] == st.chain[..i + 1];
      } else {
        assert chain[..i + 1] == chain;
        assert st.chain[..i] == st.chain;
      }
    }
    forall i, j | 0 <= i < j < |chain|
      ensures chain[i].op != chain[j].op
    {
      assert Ops(st.chain)[i] == st.chain[i].op;
    }
  }

  lemma ClaimETags(st: State, sv: Server, base: nat, state: HeadState, etag: ETag)
    requires ETagsOk(st) && etag !in st.issued
    ensures ETagsOk(CompareAndClaim(st, sv, base, state, etag))
  {
  }

  lemma ClaimServers(st: State, sv: Server, base: nat, state: HeadState, etag: ETag, other: Server)
    requires Inv(st) && ServerOk(st, other) && etag !in st.issued
    requires CurrentETag(st.chain) == sv.captured && Extensible(st, sv) && !CrossedHead(st.chain)
    ensures ServerOk(CompareAndClaim(st, sv, base, state, etag), other)
  {
    var st' := CompareAndClaim(st, sv, base, state, etag);
    assert CurrentETag(st'.chain) == Some(etag);
  }

  lemma ExtensibleNotCrossed(st: State, sv: Server)
    requires Inv(st) && Extensible(st, sv)
    ensures !CrossedHead(st.chain)
  {
    if st.chain != [] {
      assert LinkOk(st.chain, |st.chain| - 1);
      AcceptedNotCrossed(Last(st.chain));
    }
  }

  lemma ClaimManifest(st: State, sv: Server, base: nat, state: HeadState, etag: ETag)
    requires ManifestOk(st) && !CrossedHead(st.chain) && base < |st.manifest|
    requires state == Accepted || state == Publishing
    ensures ManifestOk(CompareAndClaim(st, sv, base, state, etag))
  {
  }

  /** A successful compare-and-swap by a server that found its operation new. */
  lemma ClaimKeepsInv(st: State, sv: Server, base: nat, state: HeadState, etag: ETag)
    requires Inv(st) && ServerOk(st, sv) && etag !in st.issued && base < |st.manifest|
    requires CurrentETag(st.chain) == sv.captured && Extensible(st, sv)
    requires state == Accepted || state == Publishing
    ensures Inv(CompareAndClaim(st, sv, base, state, etag))
    ensures Ops(CompareAndClaim(st, sv, base, state, etag).chain) == Ops(st.chain) + [sv.op]
  {
    ExtensibleNotCrossed(st, sv);
    ClaimChain(st, sv, base, state, etag);
    ClaimETags(st, sv, base, state, etag);
    ClaimManifest(st, sv, base, state, etag);
    var st' := CompareAndClaim(st, sv, base, state, etag);
    forall s | s in st'.servers
      ensures ServerOk(st', st'.servers[s])
    {
      ClaimServers(st, sv, base, state, etag, st.servers[s]);
    }
  }

  /** Moving one server to a phase its invariant allows. */
  lemma SetKeepsInv(st: State, s: ServerId, sv: Server, phase: Phase)
    requires Inv(st) && ServerOk(st, sv.(phase := phase))
    ensures Inv(Set(st, s, sv, phase))
  {
    var st' := Set(st, s, sv, phase);
    forall t | t in st'.servers
      ensures ServerOk(st', st'.servers[t])
    {
      assert ServerOk(st, st'.servers[t]);
    }
  }

  lemma AppendKeepsInv(st: State, put: Published)
    requires Inv(st) && put.base == |st.manifest| - 1
    requires put.bySession ==> HeadIs(st.chain, put.content, put.base)
    ensures Inv(st.(manifest := st.manifest + [put]))
    ensures put.base >= 0 ==> Visible(st.manifest + [put], put.content, put.base)
  {
    var st' := st.(manifest := st.manifest + [put]);
    assert st'.manifest[|st.manifest|] == put;
    forall content, base: nat | Visible(st.manifest, content, base)
      ensures Visible(st'.manifest, content, base)
    {
      var i :| 0 <= i < |st.manifest| && IsCandidate(st.manifest[i], content, base);
      assert IsCandidate(st'.manifest[i], content, base);
    }
    forall t | t in st'.servers
      ensures ServerOk(st', st'.servers[t])
    {
      assert ServerOk(st, st.servers[t]);
    }
  }

  lemma HeadContent(st: State)
    requires Inv(st) && st.chain != []
    ensures Last(st.chain).content == Ops(st.chain)
    ensures Top(Last(st.chain)).etag in st.issued
  {
    assert LinkOk(st.chain, |st.chain| - 1);
    assert st.chain[..|st.chain| - 1 + 1] == st.chain;
  }

  lemma PublishKeepsInv(st: State, s: ServerId, step: Step)
    requires Inv(st) && s in st.servers
    requires (step.ClaimPublishing? || step.MarkCommitted?) && step.server == s
    ensures Inv(Next(st, step))
  {
    var sv := st.servers[s];
    assert ServerOk(st, sv);
    if step.ClaimPublishing? && sv.phase.FoundOwn? && st.chain == [] {
      SetKeepsInv(st, s, sv, Ready);
    } else if step.ClaimPublishing? && sv.phase.FoundOwn? {
      var head := Last(st.chain);
      if Sealed(head) {
        SetKeepsInv(st, s, sv, Claimed(head.content, head.base));
      } else if Top(head).state != Accepted || step.etag in st.issued {
        SetKeepsInv(st, s, sv, Ready);
      } else {
        RetagKeepsInv(st, Publishing, step.etag);
        RetagChain(st, Publishing, step.etag);
        SetKeepsInv(Retag(st, Publishing, step.etag), s, sv, Claimed(head.content, head.base));
      }
    }
    if step.MarkCommitted? && sv.phase.Written? {
      if ExpiredHead(st.chain) || Top(Last(st.chain)).state == Committed || step.etag in st.issued {
        SetKeepsInv(st, s, sv, Ready);
      } else {
        CrossedIsNotAccepted(st);
        RetagKeepsInv(st, Committed, step.etag);
        SetKeepsInv(Retag(st, Committed, step.etag), s, sv, Ready);
      }
    }
  }

  lemma CrossedIsNotAccepted(st: State)
    requires Inv(st) && CrossedHead(st.chain)
    ensures Top(Last(st.chain)).state != Accepted
  {
    assert LinkOk(st.chain, |st.chain| - 1);
    if Top(Last(st.chain)).state == Accepted { AcceptedNotCrossed(Last(st.chain)); }
  }

  lemma ClaimStepKeepsInv(st: State, s: ServerId, step: Step)
    requires Inv(st) && s in st.servers
    requires (step.Accept? || step.Finalize?) && step.server == s
    ensures Inv(Next(st, step))
  {
    var sv := st.servers[s];
    assert ServerOk(st, sv);
    if sv.phase.Checkpointed? {
      var state := if step.Accept? then Accepted else Publishing;
      SetKeepsInv(st, s, sv, Ready);
      if CurrentETag(st.chain) == sv.captured && step.etag !in st.issued {
        ClaimKeepsInv(st, sv, sv.phase.base, state, step.etag);
        var st' := CompareAndClaim(st, sv, sv.phase.base, state, step.etag);
        if step.Finalize? { assert Last(st'.chain).versions[0].state == Publishing; }
        SetKeepsInv(st', s, sv, if step.Accept? then Ready else Claimed(sv.tip + [sv.op], sv.phase.base));
      }
    }
  }

  lemma NextKeepsInv(st: State, step: Step)
    requires Inv(st)
    ensures Inv(Next(st, step))
  {
    match step
    case PublishElsewhere(content) => AppendKeepsInv(st, Published(content, |st.manifest| - 1, false));
    case ExpireHead(etag) =>
      if st.chain != [] && !ExpiredHead(st.chain) && etag !in st.issued {
        RetagKeepsInv(st, Failed, etag);
      }
    case Attach(s, op) =>
      if s !in st.servers && !ExpiredHead(st.chain) {
        if st.chain != [] { HeadContent(st); }
        var tip := if st.chain == [] then [] else Last(st.chain).content;
        SetKeepsInv(st, s, Server(op, CurrentETag(st.chain), tip, Ready), Ready);
      }
    case Accept(s, _) => if s in st.servers { ClaimStepKeepsInv(st, s, step); }
    case Finalize(s, _) => if s in st.servers { ClaimStepKeepsInv(st, s, step); }
    case ClaimPublishing(s, _) => if s in st.servers { PublishKeepsInv(st, s, step); }
    case MarkCommitted(s, _) => if s in st.servers { PublishKeepsInv(st, s, step); }
    case _ =>
      if step.server in st.servers {
        var sv := st.servers[step.server];
        assert ServerOk(st, sv);
        LocalStepKeepsInv(st, step, sv);
      }
  }

  lemma LocalStepKeepsInv(st: State, step: Step, sv: Server)
    requires Inv(st)
    requires step.Detach? || step.CheckStatus? || step.Checkpoint? || step.PutManifest? || step.Abandon?
    requires step.server in st.servers && sv == st.servers[step.server] && ServerOk(st, sv)
    ensures Inv(Next(st, step))
  {
    var s := step.server;
    match step
    case Detach(_) =>
    case Abandon(_) => SetKeepsInv(st, s, sv, Ready);
    case CheckStatus(_, goal) =>
      if st.chain != [] && Last(st.chain).op == sv.op { assert Ops(st.chain)[|st.chain| - 1] == sv.op; }
      SetKeepsInv(st, s, sv, AfterStatus(StatusOf(st, sv), goal));
    case Checkpoint(_, base) =>
      if sv.phase.FoundNew? && base < |st.manifest| { SetKeepsInv(st, s, sv, Checkpointed(sv.phase.goal, base)); }
    case PutManifest(_) => PutKeepsInv(st, s, sv);
  }

  lemma PutKeepsInv(st: State, s: ServerId, sv: Server)
    requires Inv(st) && s in st.servers && sv == st.servers[s] && ServerOk(st, sv)
    ensures Inv(Next(st, PutManifest(s)))
  {
    if sv.phase.Claimed? {
      var content, base := sv.phase.content, sv.phase.base;
      if IsCandidate(Last(st.manifest), content, base) {
        assert Visible(st.manifest, content, base);
        SetKeepsInv(st, s, sv, Written(content, base));
      } else if |st.manifest| - 1 != base {
        SetKeepsInv(st, s, sv, Ready);
      } else {
        var put := Published(content, base, true);
        AppendKeepsInv(st, put);
        SetKeepsInv(st.(manifest := st.manifest + [put]), s, sv, Written(content, base));
      }
    }
  }

  lemma {:induction false} RunKeepsInv(st: State, steps: seq<Step>)
    requires Inv(st)
    ensures Inv(Run(st, steps))
  {
    if steps != [] {
      RunKeepsInv(st, steps[..|steps| - 1]);
      NextKeepsInv(Run(st, steps[..|steps| - 1]), Last(steps));
    }
  }

  // ---------------------------------------------------------------- main results

  ghost predicate DistinctOps(chain: seq<Claim>) {
    forall i, j :: 0 <= i < j < |chain| ==> chain[i].op != chain[j].op
  }

  ghost predicate OneChain(st: State) {
    DistinctOps(st.chain) && (forall i :: 0 <= i < |st.chain| ==> LinkOk(st.chain, i)) && ETagsOk(st)
  }

  /** Over every interleaving, the claims of the head form one chain: each was conditioned on
      the ETag of exactly the head before it, holds that head's operations followed by its own,
      and no operation occurs twice, however often its request was retried. */
  lemma OperationsFormOneChain(steps: seq<Step>)
    ensures OneChain(Run(Initial, steps))
  {
    RunKeepsInv(Initial, steps);
  }

  /** `b` keeps everything `a` recorded: claims are only added, heads only move forward,
      nothing is added after a head that crossed the publication fence or expired, and manifests
      are only appended. */
  predicate Extends(a: State, b: State) {
    && |a.chain| <= |b.chain|
    && (forall i :: 0 <= i < |a.chain| ==> SameClaim(a.chain[i], b.chain[i]))
    && (CrossedHead(a.chain) ==> |b.chain| == |a.chain| && CrossedHead(b.chain))
    && (ExpiredHead(a.chain) ==> b.chain == a.chain)
    && a.manifest <= b.manifest
  }

  predicate SameClaim(a: Claim, b: Claim) {
    a.op == b.op && a.predecessor == b.predecessor && a.content == b.content && a.base == b.base &&
    a.versions <= b.versions
  }

  lemma ClaimExtends(st: State, sv: Server, base: nat, state: HeadState, etag: ETag)
    requires Inv(st) && (sv.captured == CurrentETag(st.chain) ==> Extensible(st, sv))
    ensures Extends(st, CompareAndClaim(st, sv, base, state, etag))
  {
    if st.chain != [] && Top(Last(st.chain)).state == Accepted {
      assert LinkOk(st.chain, |st.chain| - 1);
      AcceptedNotCrossed(Last(st.chain));
    }
  }

  lemma RetagExtends(st: State, state: HeadState, etag: ETag)
    requires Inv(st) && st.chain != [] && !ExpiredHead(st.chain)
    ensures Extends(st, Retag(st, state, etag))
  {
    VersionsGrow(Last(st.chain), HeadVersion(state, etag));
  }

  /** Setting a server's phase leaves what is recorded alone. */
  lemma SetExtends(a: State, b: State, s: ServerId, sv: Server, phase: Phase)
    requires Extends(a, b)
    ensures Extends(a, Set(b, s, sv, phase))
  {
  }

  lemma ExtendsItself(st: State)
    ensures Extends(st, st)
  {
  }

  lemma NextExtends(st: State, step: Step)
    requires Inv(st)
    ensures Extends(st, Next(st, step))
  {
    ExtendsItself(st);
    if step.PublishElsewhere? {
    } else if step.ExpireHead? {
      if st.chain != [] && !ExpiredHead(st.chain) { RetagExtends(st, Failed, step.etag); }
    } else if step.server in st.servers && !step.Attach? {
      ServerExtends(st, step, st.servers[step.server]);
    }
  }

  lemma ClaimStepExtends(st: State, step: Step, sv: Server)
    requires Inv(st) && (step.Accept? || step.Finalize?)
    requires step.server in st.servers && sv == st.servers[step.server] && sv.phase.Checkpointed?
    ensures Extends(st, Next(st, step))
  {
    assert ServerOk(st, sv);
    ExtendsItself(st);
    var state := if step.Accept? then Accepted else Publishing;
    ClaimExtends(st, sv, sv.phase.base, state, step.etag);
    var claimed := CompareAndClaim(st, sv, sv.phase.base, state, step.etag);
    SetExtends(st, claimed, step.server, sv, Next(st, step).servers[step.server].phase);
  }

  lemma ServerExtends(st: State, step: Step, sv: Server)
    requires Inv(st) && !step.PublishElsewhere? && !step.ExpireHead? && !step.Attach?
    requires step.server in st.servers && sv == st.servers[step.server]
    ensures Extends(st, Next(st, step))
  {
    ExtendsItself(st);
    if (step.Accept? || step.Finalize?) && sv.phase.Checkpointed? {
      ClaimStepExtends(st, step, sv);
    } else if step.ClaimPublishing? || step.MarkCommitted? {
      RetagStepExtends(st, step, sv);
    }
  }

  lemma RetagStepExtends(st: State, step: Step, sv: Server)
    requires Inv(st) && (step.ClaimPublishing? || step.MarkCommitted?)
    requires step.server in st.servers && sv == st.servers[step.server]
    ensures Extends(st, Next(st, step))
  {
    ExtendsItself(st);
    if st.chain != [] && !ExpiredHead(st.chain) {
      var state := if step.ClaimPublishing? then Publishing else Committed;
      RetagExtends(st, state, step.etag);
      SetExtends(st, Retag(st, state, step.etag), step.server, sv, Next(st, step).servers[step.server].phase);
    }
  }

  lemma {:induction false} RunExtends(st: State, steps: seq<Step>)
    requires Inv(st)
    ensures Extends(st, Run(st, steps))
  {
    if steps != [] {
      var mid := Run(st, steps[..|steps| - 1]);
      RunExtends(st, steps[..|steps| - 1]);
      RunKeepsInv(st, steps[..|steps| - 1]);
      NextExtends(mid, Last(steps));
      var end := Next(mid, Last(steps));
      forall i | 0 <= i < |st.chain|
        ensures SameClaim(st.chain[i], end.chain[i])
      {
        assert SameClaim(st.chain[i], mid.chain[i]) && SameClaim(mid.chain[i], end.chain[i]);
      }
    }
  }

  lemma ExtendedOps(a: State, b: State, op: OpId)
    requires Extends(a, b) && op in Ops(a.chain)
    ensures op in Ops(b.chain)
  {
    var i :| 0 <= i < |a.chain| && Ops(a.chain)[i] == op;
    assert SameClaim(a.chain[i], b.chain[i]);
    assert Ops(b.chain)[i] == op;
  }

  /** A server's own step to a phase that says it is in the session. */
  lemma OwnStepKnows(st: State, step: Step, s: ServerId)
    requires Inv(st) && s in st.servers && Knows(st, st.servers[s])
    requires !step.PublishElsewhere? && !step.ExpireHead? && !step.Attach? && !step.Detach? && step.server == s
    ensures var next := Next(st, step); s in next.servers && Knows(next, next.servers[s])
  {
    var sv, next := st.servers[s], Next(st, step);
    assert ServerOk(st, sv);
    NextExtends(st, step);
    if sv.op in Ops(st.chain) {
      ExtendedOps(st, next, sv.op);
    } else if step.CheckStatus? && st.chain != [] {
      assert Ops(st.chain)[|st.chain| - 1] == Last(st.chain).op;
    } else if step.Finalize? && |next.chain| > |st.chain| {
      assert Ops(next.chain)[|st.chain|] == sv.op;
    }
  }

  lemma OthersKeepServer(st: State, step: Step, s: ServerId)
    requires !By(step, s)
    ensures s in Next(st, step).servers <==> s in st.servers
    ensures s in st.servers ==> Next(st, step).servers[s] == st.servers[s]
  {
  }

  lemma OneKnows(st: State, step: Step, s: ServerId)
    requires Inv(st) && s in st.servers && Knows(st, st.servers[s]) && s in Next(st, step).servers
    requires !(step.Attach? && step.server == s)
    ensures Knows(Next(st, step), Next(st, step).servers[s])
  {
    if By(step, s) {
      if !step.Detach? { OwnStepKnows(st, step, s); }
    } else {
      OthersKeepServer(st, step, s);
      NextExtends(st, step);
      if st.servers[s].op in Ops(st.chain) { ExtendedOps(st, Next(st, step), st.servers[s].op); }
    }
  }

  lemma NextKnows(st: State, step: Step)
    requires Inv(st) && AllKnow(st)
    ensures AllKnow(Next(st, step))
  {
    var next := Next(st, step);
    forall s | s in next.servers
      ensures Knows(next, next.servers[s])
    {
      if step.Attach? && step.server == s {
        assert s in st.servers ==> next == st && Knows(st, st.servers[s]);
      } else if s in st.servers {
        OneKnows(st, step, s);
      } else {
        OthersKeepServer(st, step, s);
      }
    }
  }

  lemma {:induction false} RunKnows(steps: seq<Step>)
    ensures AllKnow(Run(Initial, steps))
  {
    if steps != [] {
      RunKnows(steps[..|steps| - 1]);
      RunKeepsInv(Initial, steps[..|steps| - 1]);
      NextKnows(Run(Initial, steps[..|steps| - 1]), Last(steps));
    }
  }

  /** An operation once accepted is never reported New again, to any server and after any
      further steps: a retried request cannot claim the head a second time. */
  lemma AcceptedIsNeverNewAgain(steps: seq<Step>, more: seq<Step>, sv: Server)
    requires sv.op in Ops(Run(Initial, steps).chain)
    ensures StatusOf(Run(Run(Initial, steps), more), sv) != New
  {
    var st := Run(Initial, steps);
    RunKeepsInv(Initial, steps);
    RunExtends(st, more);
    var i :| 0 <= i < |st.chain| && Ops(st.chain)[i] == sv.op;
    var end := Run(st, more);
    assert SameClaim(st.chain[i], end.chain[i]);
    assert Ops(end.chain)[i] == sv.op;
  }

  /** Publication closes the session: once the head was Publishing or Committed, no run adds an
      operation, not even after the head expired. */
  lemma PublicationSealsTheSession(steps: seq<Step>, more: seq<Step>)
    requires CrossedHead(Run(Initial, steps).chain)
    ensures Ops(Run(Run(Initial, steps), more).chain) == Ops(Run(Initial, steps).chain)
    ensures CrossedHead(Run(Run(Initial, steps), more).chain)
  {
    var st := Run(Initial, steps);
    RunKeepsInv(Initial, steps);
    RunExtends(st, more);
    var end := Run(st, more);
    forall i | 0 <= i < |st.chain|
      ensures Ops(end.chain)[i] == Ops(st.chain)[i]
    {
      assert SameClaim(st.chain[i], end.chain[i]);
    }
  }

  /**
   The session wrote the manifest at most once, with exactly its accepted operations in order, over
   exactly the version its checkpoint was computed from; every manifest, of this session or
   another, replaced the version just before it; and a head that was ever Committed has its
   manifest.
   */
  ghost predicate PublishedOnce(st: State) {
    && (forall i, j | 0 <= i < |st.manifest| && 0 <= j < |st.manifest| ::
          st.manifest[i].bySession && st.manifest[j].bySession ==> i == j)
    && (forall i :: 0 <= i < |st.manifest| && st.manifest[i].bySession ==>
          st.chain != [] && st.manifest[i].content == Ops(st.chain) && st.manifest[i].base == Last(st.chain).base)
    && (forall i :: 0 < i < |st.manifest| ==> st.manifest[i].base == i - 1)
    && (st.chain != [] && WasCommitted(Last(st.chain)) ==> Visible(st.manifest, Ops(st.chain), Last(st.chain).base))
  }

  lemma InvMeansPublishedOnce(st: State)
    requires Inv(st)
    ensures PublishedOnce(st)
  {
    if st.chain != [] { HeadContent(st); }
  }

  /** In every run, whether or not the head expires at any time. */
  lemma PublishedOnceAndNothingLost(steps: seq<Step>)
    ensures PublishedOnce(Run(Initial, steps))
  {
    RunKeepsInv(Initial, steps);
    InvMeansPublishedOnce(Run(Initial, steps));
  }

  /** A head claimed by `finalize` is Publishing from its first value on: no later step of any
      server ever shows it as Accepted. */
  lemma FinalizeNeverExposesAccepted(steps: seq<Step>, s: ServerId, etag: ETag, more: seq<Step>)
    requires var st := Run(Initial, steps); |Next(st, Finalize(s, etag)).chain| > |st.chain|
    ensures var st := Run(Initial, steps);
            NeverAccepted(Run(Next(st, Finalize(s, etag)), more), |st.chain|)
  {
    var st := Run(Initial, steps);
    RunKeepsInv(Initial, steps);
    NextKeepsInv(st, Finalize(s, etag));
    StaysPublishing(Next(st, Finalize(s, etag)), |st.chain|, more);
  }

  predicate NeverAccepted(st: State, n: nat) {
    n < |st.chain| && forall k :: 0 <= k < |st.chain[n].versions| ==> st.chain[n].versions[k].state != Accepted
  }

  lemma StaysPublishing(st: State, n: nat, more: seq<Step>)
    requires Inv(st) && n < |st.chain| && st.chain[n].versions != []
    requires st.chain[n].versions[0].state == Publishing
    ensures NeverAccepted(Run(st, more), n)
  {
    RunExtends(st, more);
    RunKeepsInv(st, more);
    var end := Run(st, more);
    assert SameClaim(st.chain[n], end.chain[n]);
    assert LinkOk(end.chain, n);
    var versions := end.chain[n].versions;
    assert versions[0] == st.chain[n].versions[0];
    forall k | 0 <= k < |versions|
      ensures versions[k].state != Accepted
    {
      assert k > 0 ==> Edge(versions[k - 1].state, versions[k].state);
    }
  }

  /** A bare compare-and-swap keeps operations distinct exactly when the operation is not in the
      session yet. */
  lemma CompareAndSwapDistinct(st: State, sv: Server, base: nat, etag: ETag)
    requires Inv(st) && sv.captured == CurrentETag(st.chain) && etag !in st.issued
    ensures DistinctOps(CompareAndClaim(st, sv, base, Accepted, etag).chain) <==> sv.op !in Ops(st.chain)
  {
    var chain := CompareAndClaim(st, sv, base, Accepted, etag).chain;
    if sv.op in Ops(st.chain) {
      var i :| 0 <= i < |st.chain| && Ops(st.chain)[i] == sv.op;
      assert chain[i].op == chain[|st.chain|].op;
    } else {
      forall i, j | 0 <= i < j < |chain|
        ensures chain[i].op != chain[j].op
      {
        assert chain[i] == st.chain[i] && Ops(st.chain)[i] == chain[i].op;
      }
    }
  }

  /**
   Why the driver asks for the status first. The native accept on its own refuses a repeated
   operation that is deeper in the session, but for a server that attached to the head of its own
   operation it claims that operation again. So it keeps operations distinct exactly when
   it is refused anyway or the current head is not of this operation.
   */
  lemma AcceptAloneIsNotEnough(st: State, sv: Server, base: nat, etag: ETag)
    requires Inv(st) && ServerOk(st, sv) && etag !in st.issued
    ensures DistinctOps(NativeAccept(st, sv, base, etag).chain) <==>
              !(st.chain != [] && Last(st.chain).op == sv.op && sv.captured == CurrentETag(st.chain) &&
                base == |st.manifest| - 1)
  {
    if sv.captured == CurrentETag(st.chain) {
      CompareAndSwapDistinct(st, sv, base, etag);
      if st.chain != [] {
        HeadContent(st);
        assert Ops(st.chain)[|st.chain| - 1] == Last(st.chain).op;
        assert Last(st.chain).content != sv.tip + [sv.op] by { assert |Ops(st.chain)| != |sv.tip + [sv.op]|; }
      }
    }
  }

  /** What the native accept refuses by itself, whoever calls it: it claims the head at most once per
      call, never over a changed manifest, a head that moved on, or one that another operation has
      begun to publish, and rewrites nothing. */
  lemma AcceptRefuses(st: State, sv: Server, base: nat, etag: ETag)
    ensures var after := NativeAccept(st, sv, base, etag);
            && after.manifest == st.manifest && after.servers == st.servers
            && (after.chain != st.chain ==>
                  && after.chain == st.chain + [Claim(sv.op, sv.captured, sv.tip + [sv.op], base,
                                                      [HeadVersion(Accepted, etag)])]
                  && CurrentETag(st.chain) == sv.captured && base == |st.manifest| - 1 && etag !in st.issued
                  && (SealedHead(st.chain) ==> Last(st.chain).op == sv.op))
  {
  }

  lemma CheckpointedAlone()
    ensures var st := Next(Next(Next(Initial, Attach(0, 7)), CheckStatus(0, ToAccept)), Checkpoint(0, 0));
            st == Initial.(servers := map[0 := Server(7, None, [], Checkpointed(ToAccept, 0))])
  {
    var s1 := Next(Initial, Attach(0, 7));
    assert s1 == Initial.(servers := map[0 := Server(7, None, [], Ready)]);
    var s2 := Next(s1, CheckStatus(0, ToAccept));
    assert s2 == Initial.(servers := map[0 := Server(7, None, [], FoundNew(ToAccept))]);
  }

  lemma AcceptedAlone(st: State)
    requires st == Initial.(servers := map[0 := Server(7, None, [], Checkpointed(ToAccept, 0))])
    ensures var next := Next(st, Accept(0, 1));
            next.chain == [Claim(7, None, [7], 0, [HeadVersion(Accepted, 1)])] && next.issued == {1} &&
            next.manifest == Initial.manifest && 1 !in next.servers
  {
    assert [] + [7] == [7];
    assert NativeAccept(st, st.servers[0], 0, 1) == CompareAndClaim(st, st.servers[0], 0, Accepted, 1);
  }

  lemma AcceptedAgain(st: State)
    requires st.chain == [Claim(7, None, [7], 0, [HeadVersion(Accepted, 1)])] && st.issued == {1}
    requires st.manifest == Initial.manifest && 1 !in st.servers
    ensures var next := Next(st, Attach(1, 7));
            1 in next.servers && Ops(NativeAccept(next, next.servers[1], 0, 2).chain) == [7, 7]
  {
    var next := Next(st, Attach(1, 7));
    assert next.servers[1] == Server(7, Some(1), [7], Ready);
    assert |[7] + [7]| == 2;
    assert NativeAccept(next, next.servers[1], 0, 2) == CompareAndClaim(next, next.servers[1], 0, Accepted, 2);
  }

  /** The hazard is reachable: a second server attaching for an accepted operation captures
      that operation's own head, and an accept without the status check claims it again. */
  lemma UncheckedAcceptDuplicates()
    ensures var st := Run(Initial, [Attach(0, 7), CheckStatus(0, ToAccept), Checkpoint(0, 0), Accept(0, 1),
                                  Attach(1, 7)]);
            1 in st.servers && Ops(NativeAccept(st, st.servers[1], 0, 2).chain) == [7, 7]
  {
    RunFive(Initial, Attach(0, 7), CheckStatus(0, ToAccept), Checkpoint(0, 0), Accept(0, 1), Attach(1, 7));
    CheckpointedAlone();
    var st := Next(Next(Next(Initial, Attach(0, 7)), CheckStatus(0, ToAccept)), Checkpoint(0, 0));
    AcceptedAlone(st);
    AcceptedAgain(Next(st, Accept(0, 1)));
  }

  lemma RunFive(st: State, a: Step, b: Step, c: Step, d: Step, e: Step)
    ensures Run(st, [a, b, c, d, e]) == Next(Next(Next(Next(Next(st, a), b), c), d), e)
  {
    var all := [a, b, c, d, e];
    assert all[..4] == [a, b, c, d] && [a, b, c, d][..3] == [a, b, c] && [a, b, c][..2] == [a, b] && [a, b][..1] == [a];
    assert [a][..0] == [];
    assert Run(st, [a]) == Next(st, a);
    assert Run(st, [a, b]) == Next(Next(st, a), b);
    assert Run(st, [a, b, c]) == Next(Run(st, [a, b]), c);
  }
}
