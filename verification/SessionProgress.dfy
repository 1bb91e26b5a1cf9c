/**
 What the status of an operation means, and that the protocol gets somewhere: a server that is
 left alone accepts or publishes its operation.
 */
module SessionProgress {
  import opened Common
  import opened SessionProtocol
  import opened SessionTheorems

  // ---------------------------------------------------------------- what a status means

  /** What an answer says about the session, in terms of its history and of the manifest. */
  predicate Meaning(st: State, sv: Server, status: Status) {
    var own := st.chain != [] && Last(st.chain).op == sv.op;
    match status
    case New => sv.op !in Ops(st.chain) && (st.chain != [] ==> Current(st, sv) && !SealedHead(st.chain))
    case IsAccepted => own && !ExpiredHead(st.chain) && !WasCommitted(Last(st.chain))
    case IsCommitted =>
      && own && !ExpiredHead(st.chain) && WasCommitted(Last(st.chain))
      && Visible(st.manifest, Ops(st.chain), Last(st.chain).base)
    case IsFailed => own && ExpiredHead(st.chain)
    case Conflict =>
      && st.chain != [] && Last(st.chain).op != sv.op
      && (SealedHead(st.chain) || !Current(st, sv) || sv.op in Ops(st.chain))
  }

  /** The head is the one this server saw when attaching. */
  predicate Current(st: State, sv: Server) {
    CurrentETag(st.chain) == sv.captured
  }

  lemma FailedIsLast(versions: seq<HeadVersion>, k: nat)
    requires Life(versions) && k < |versions| && versions[k].state == Failed
    ensures k == |versions| - 1
  {
    assert k < |versions| - 1 ==> Edge(versions[k].state, versions[k + 1].state);
  }

  /** A head that was committed is committed still, or has expired. */
  lemma CommittedStays(c: Claim)
    requires Life(c.versions)
    ensures WasCommitted(c) ==> Top(c).state == Committed || Top(c).state == Failed
    ensures Top(c).state == Committed ==> WasCommitted(c)
  {
    var n := |c.versions| - 1;
    if WasCommitted(c) {
      var k :| 0 <= k <= n && c.versions[k].state == Committed;
      if k < n {
        assert Edge(c.versions[k].state, c.versions[k + 1].state);
        FailedIsLast(c.versions, k + 1);
      }
    }
    if Top(c).state == Committed { assert c.versions[n].state == Committed; }
  }

  /** The status of any attachment, in every state the protocol reaches, is the one answer whose
      meaning holds. */
  lemma StatusMeans(st: State, sv: Server, status: Status)
    requires Inv(st)
    ensures StatusOf(st, sv) == status <==> Meaning(st, sv, status)
  {
    if st.chain != [] {
      var n := |st.chain| - 1;
      assert LinkOk(st.chain, n) && Ops(st.chain)[n] == Last(st.chain).op;
      CommittedStays(Last(st.chain));
      InvMeansPublishedOnce(st);
    }
  }

  // ---------------------------------------------------------------- a server left alone

  lemma RunThree(st: State, a: Step, b: Step, c: Step)
    ensures Run(st, [a, b, c]) == Next(Next(Next(st, a), b), c)
  {
    assert [a, b, c][..2] == [a, b] && [a, b][..1] == [a] && [a][..0] == [];
    assert Run(st, [a]) == Next(st, a);
    assert Run(st, [a, b]) == Next(Next(st, a), b);
  }

  lemma RunFour(st: State, a: Step, b: Step, c: Step, d: Step)
    ensures Run(st, [a, b, c, d]) == Next(Next(Next(Next(st, a), b), c), d)
  {
    assert [a, b, c, d][..3] == [a, b, c];
    RunThree(st, a, b, c);
  }

  /** A server that attaches sees the head as it is: its operation is new exactly when the session does
      not hold it and publication has not begun. */
  lemma AttachesCurrent(st: State, s: ServerId, op: OpId)
    requires Inv(st) && s !in st.servers && !ExpiredHead(st.chain)
    ensures var after := Next(st, Attach(s, op));
            && after.chain == st.chain && after.manifest == st.manifest
            && s in after.servers && after.servers[s].op == op && Current(after, after.servers[s])
            && (StatusOf(after, after.servers[s]) == New <==> op !in Ops(st.chain) && !SealedHead(st.chain))
  {
    var after := Next(st, Attach(s, op));
    NextKeepsInv(st, Attach(s, op));
    StatusMeans(after, after.servers[s], New);
  }

  /** A new operation is checked and checkpointed over the current manifest. */
  lemma Checkpoints(st: State, s: ServerId, goal: Goal)
    requires Inv(st) && s in st.servers && StatusOf(st, st.servers[s]).New?
    ensures var base := |st.manifest| - 1;
            Next(Next(st, CheckStatus(s, goal)), Checkpoint(s, base)) ==
              Set(st, s, st.servers[s], Checkpointed(goal, base))
  {
    var sv, base := st.servers[s], |st.manifest| - 1;
    var found := Next(st, CheckStatus(s, goal));
    assert found == Set(st, s, sv, FoundNew(goal));
    var next := sv.(phase := Checkpointed(goal, base));
    assert found.servers[s := next] == st.servers[s := next];
  }

  /** A new operation is accepted, on top of what the session holds, exactly when the head is still
      the one seen when attaching; nothing is published. */
  lemma AcceptsAlone(st: State, s: ServerId, etag: ETag)
    requires Inv(st) && s in st.servers && StatusOf(st, st.servers[s]).New? && etag !in st.issued
    ensures var sv := st.servers[s];
            var end := Run(st, [CheckStatus(s, ToAccept), Checkpoint(s, |st.manifest| - 1), Accept(s, etag)]);
            && end.manifest == st.manifest && s in end.servers
            && Ops(end.chain) == Ops(st.chain) + (if Current(st, sv) then [sv.op] else [])
            && (Current(st, sv) ==> StatusOf(end, end.servers[s]) == IsAccepted)
  {
    var sv, base := st.servers[s], |st.manifest| - 1;
    RunThree(st, CheckStatus(s, ToAccept), Checkpoint(s, base), Accept(s, etag));
    Checkpoints(st, s, ToAccept);
    StatusMeans(st, sv, New);
    var ready := Set(st, s, sv, Checkpointed(ToAccept, base));
    var rv := ready.servers[s];
    assert NativeAccept(ready, rv, base, etag) == CompareAndClaim(ready, rv, base, Accepted, etag);
    if Current(st, sv) {
      OpsAppend(st.chain, Claim(sv.op, sv.captured, sv.tip + [sv.op], base, [HeadVersion(Accepted, etag)]));
    } else {
      assert Ops(st.chain) + [] == Ops(st.chain);
    }
  }

  /** What a publisher that has claimed the head does next, when its candidate was computed from the
      current manifest or is the current manifest. */
  lemma WritesAndCommits(st: State, s: ServerId, etag: ETag)
    requires Inv(st) && s in st.servers && st.servers[s].phase.Claimed? && SealedHead(st.chain) && etag !in st.issued
    requires st.servers[s].phase == Claimed(Last(st.chain).content, Last(st.chain).base)
    ensures var phase := st.servers[s].phase;
            var end := Next(Next(st, PutManifest(s)), MarkCommitted(s, etag));
            && s in end.servers && end.servers[s].op == st.servers[s].op && Ops(end.chain) == Ops(st.chain)
            && end.chain != [] && Last(end.chain).op == Last(st.chain).op && !ExpiredHead(end.chain)
            && (Top(Last(end.chain)).state == Committed <==>
                  Top(Last(st.chain)).state == Committed || phase.base == |st.manifest| - 1 ||
                  IsCandidate(Last(st.manifest), phase.content, phase.base))
  {
    var put := Next(st, PutManifest(s));
    assert put.chain == st.chain && put.issued == st.issued;
    RetagOps(put, etag);
  }

  lemma RetagOps(st: State, etag: ETag)
    requires st.chain != []
    ensures var after := Retag(st, Committed, etag);
            && Ops(after.chain) == Ops(st.chain) && after.chain != [] && Last(after.chain).op == Last(st.chain).op
            && Top(Last(after.chain)).state == Committed
  {
  }

  /** A new operation whose head is still current is published alone: the session ends with it, and
      the manifest gets one more version, with exactly the session's operations. */
  lemma FinalizesAlone(st: State, s: ServerId, first: ETag, second: ETag)
    requires Inv(st) && s in st.servers && StatusOf(st, st.servers[s]).New? && Current(st, st.servers[s])
    requires first !in st.issued && second !in st.issued && first != second
    ensures var sv, base := st.servers[s], |st.manifest| - 1;
            var end := Run(st, [CheckStatus(s, ToPublish), Checkpoint(s, base), Finalize(s, first), PutManifest(s),
                                MarkCommitted(s, second)]);
            && Ops(end.chain) == Ops(st.chain) + [sv.op]
            && end.manifest == st.manifest + [Published(Ops(st.chain) + [sv.op], base, true)]
            && s in end.servers && StatusOf(end, end.servers[s]) == IsCommitted
  {
    var sv, base := st.servers[s], |st.manifest| - 1;
    RunFive(st, CheckStatus(s, ToPublish), Checkpoint(s, base), Finalize(s, first), PutManifest(s),
            MarkCommitted(s, second));
    Checkpoints(st, s, ToPublish);
    StatusMeans(st, sv, New);
    var ready := Set(st, s, sv, Checkpointed(ToPublish, base));
    FinalizeClaims(st, s, first);
    var claimed := Next(ready, Finalize(s, first));
    WritesNew(claimed, s);
    CommitsWritten(Next(claimed, PutManifest(s)), s, second);
  }

  lemma CommitsWritten(st: State, s: ServerId, etag: ETag)
    requires s in st.servers && st.servers[s].phase.Written? && etag !in st.issued
    requires st.chain != [] && Top(Last(st.chain)).state == Publishing && Last(st.chain).op == st.servers[s].op
    ensures var end := Next(st, MarkCommitted(s, etag));
            && Ops(end.chain) == Ops(st.chain) && end.manifest == st.manifest
            && s in end.servers && StatusOf(end, end.servers[s]) == IsCommitted
  {
    RetagOps(st, etag);
  }

  lemma FinalizeClaims(st: State, s: ServerId, etag: ETag)
    requires Inv(st) && s in st.servers && StatusOf(st, st.servers[s]).New? && Current(st, st.servers[s])
    requires etag !in st.issued
    ensures var sv, base := st.servers[s], |st.manifest| - 1;
            var claimed := Next(Set(st, s, sv, Checkpointed(ToPublish, base)), Finalize(s, etag));
            && claimed.chain == st.chain + [Claim(sv.op, sv.captured, Ops(st.chain) + [sv.op], base,
                                                  [HeadVersion(Publishing, etag)])]
            && Ops(claimed.chain) == Ops(st.chain) + [sv.op]
            && claimed.manifest == st.manifest && claimed.issued == st.issued + {etag}
            && s in claimed.servers && claimed.servers[s] == sv.(phase := Claimed(Ops(st.chain) + [sv.op], base))
  {
    var sv, base := st.servers[s], |st.manifest| - 1;
    assert ServerOk(st, sv);
    OpsAppend(st.chain, Claim(sv.op, sv.captured, sv.tip + [sv.op], base, [HeadVersion(Publishing, etag)]));
  }

  /** A candidate computed from the current manifest is not that manifest, and is written over it. */
  lemma WritesNew(st: State, s: ServerId)
    requires st.manifest != [] && Last(st.manifest).base == |st.manifest| - 2
    requires s in st.servers && st.servers[s].phase.Claimed? && st.servers[s].phase.base == |st.manifest| - 1
    ensures var phase, put := st.servers[s].phase, Next(st, PutManifest(s));
            && put.manifest == st.manifest + [Published(phase.content, phase.base, true)]
            && put.chain == st.chain && put.issued == st.issued
            && put.servers == st.servers[s := st.servers[s].(phase := Written(phase.content, phase.base))]
  {
  }

  /** An accepted operation whose head is still its own is published alone, exactly when it was
      published before, or its checkpoint is the current manifest or was computed from it. */
  lemma PublishesAlone(st: State, s: ServerId, first: ETag, second: ETag)
    requires Inv(st) && s in st.servers && first !in st.issued && second !in st.issued && first != second
    requires StatusOf(st, st.servers[s]).IsAccepted? || StatusOf(st, st.servers[s]).IsCommitted?
    ensures var end := Run(st, [CheckStatus(s, ToPublish), ClaimPublishing(s, first), PutManifest(s),
                                MarkCommitted(s, second)]);
            var base := Last(st.chain).base;
            && Ops(end.chain) == Ops(st.chain) && s in end.servers
            && (StatusOf(end, end.servers[s]) == IsCommitted <==>
                  StatusOf(st, st.servers[s]) == IsCommitted || base == |st.manifest| - 1 ||
                  IsCandidate(Last(st.manifest), Ops(st.chain), base))
  {
    RunFour(st, CheckStatus(s, ToPublish), ClaimPublishing(s, first), PutManifest(s), MarkCommitted(s, second));
    ClaimsAlone(st, s, first);
    WritesAndCommits(Next(Next(st, CheckStatus(s, ToPublish)), ClaimPublishing(s, first)), s, second);
  }

  lemma ClaimsAlone(st: State, s: ServerId, etag: ETag)
    requires Inv(st) && s in st.servers && etag !in st.issued
    requires StatusOf(st, st.servers[s]).IsAccepted? || StatusOf(st, st.servers[s]).IsCommitted?
    ensures var claimed := Next(Next(st, CheckStatus(s, ToPublish)), ClaimPublishing(s, etag));
            && Inv(claimed) && SealedHead(claimed.chain) && Ops(claimed.chain) == Ops(st.chain)
            && Last(claimed.chain).op == st.servers[s].op && Last(claimed.chain).base == Last(st.chain).base
            && Last(claimed.chain).content == Ops(st.chain)
            && (Top(Last(claimed.chain)).state == Committed <==> StatusOf(st, st.servers[s]) == IsCommitted)
            && claimed.manifest == st.manifest && claimed.issued <= st.issued + {etag} && s in claimed.servers
            && claimed.servers[s] == st.servers[s].(phase := Claimed(Ops(st.chain), Last(st.chain).base))
  {
    HeadContent(st);
    var found := Next(st, CheckStatus(s, ToPublish));
    NextKeepsInv(st, CheckStatus(s, ToPublish));
    NextKeepsInv(found, ClaimPublishing(s, etag));
    ClaimsHead(found, s, etag);
  }

  lemma ClaimsHead(st: State, s: ServerId, etag: ETag)
    requires s in st.servers && st.servers[s].phase.FoundOwn? && st.chain != [] && !ExpiredHead(st.chain)
    requires Inv(st) && etag !in st.issued
    ensures var claimed, head := Next(st, ClaimPublishing(s, etag)), Last(st.chain);
            && SealedHead(claimed.chain) && Ops(claimed.chain) == Ops(st.chain) && Last(claimed.chain).op == head.op
            && (Top(Last(claimed.chain)).state == Committed <==> Top(head).state == Committed)
            && Last(claimed.chain).content == head.content && Last(claimed.chain).base == head.base
            && claimed.manifest == st.manifest && claimed.issued <= st.issued + {etag}
            && s in claimed.servers && claimed.servers[s] == st.servers[s].(phase := Claimed(head.content, head.base))
  {
    if !SealedHead(st.chain) {
      var after := Retag(st, Publishing, etag);
      assert Top(Last(after.chain)) == HeadVersion(Publishing, etag);
      assert Ops(after.chain) == Ops(st.chain);
    }
  }
}
