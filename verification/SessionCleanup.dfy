/**
 Cleanup of session objects. Expiring a head is a step of the protocol; deleting an expired head
 ends what its session remembers, and the next attachment starts from nothing.
 */
module SessionCleanup {
  import opened Common
  import opened SessionProtocol
  import opened SessionTheorems

  datatype Move = Protocol(step: Step) | Sweep

  /** Only an expired head is deleted. */
  predicate Sweepable(st: State) {
    ExpiredHead(st.chain)
  }

  function Unmarked(manifest: seq<Published>): (r: seq<Published>)
    ensures |r| == |manifest|
    ensures forall i :: 0 <= i < |r| ==> r[i] == manifest[i].(bySession := false)
  {
    seq(|manifest|, i requires 0 <= i < |manifest| => manifest[i].(bySession := false))
  }

  /** The head is gone. What it published stays, as manifests of an earlier life of the session. */
  function Swept(st: State): State {
    st.(chain := [], manifest := Unmarked(st.manifest))
  }

  function Make(st: State, m: Move): State {
    match m
    case Protocol(step) => Next(st, step)
    case Sweep => if Sweepable(st) then Swept(st) else st
  }

  function RunMoves(st: State, moves: seq<Move>): State {
    if moves == [] then st else Make(RunMoves(st, moves[..|moves| - 1]), Last(moves))
  }

  /** The move at `k` deletes the head. */
  predicate SweepsAt(st: State, moves: seq<Move>, k: nat)
    requires k < |moves|
  {
    moves[k].Sweep? && Sweepable(RunMoves(st, moves[..k]))
  }

  ghost predicate NeverSwept(st: State, moves: seq<Move>) {
    forall k :: 0 <= k < |moves| ==> !SweepsAt(st, moves, k)
  }

  function Steps(moves: seq<Move>): seq<Step> {
    if moves == [] then []
    else Steps(moves[..|moves| - 1]) + if Last(moves).Protocol? then [Last(moves).step] else []
  }

  lemma NeverSweptPrefix(st: State, moves: seq<Move>, n: nat)
    requires NeverSwept(st, moves) && n <= |moves|
    ensures NeverSwept(st, moves[..n])
  {
    forall k | 0 <= k < n
      ensures !SweepsAt(st, moves[..n], k)
    {
      assert moves[..n][..k] == moves[..k];
      assert !SweepsAt(st, moves, k);
    }
  }

  lemma {:induction false} UnsweptRun(st: State, moves: seq<Move>)
    requires NeverSwept(st, moves)
    ensures RunMoves(st, moves) == Run(st, Steps(moves))
  {
    if moves != [] {
      var n := |moves| - 1;
      NeverSweptPrefix(st, moves, n);
      UnsweptRun(st, moves[..n]);
      var steps := Steps(moves[..n]);
      if moves[n].Protocol? {
        assert (steps + [moves[n].step])[..|steps|] == steps;
      } else {
        assert !SweepsAt(st, moves, n);
        assert steps + [] == steps;
      }
    }
  }

  lemma SweptAfter(st: State, moves: seq<Move>, k: nat)
    requires k < |moves| && SweepsAt(st, moves, k)
    ensures RunMoves(st, moves[..k + 1]).chain == []
  {
    assert moves[..k + 1][..k] == moves[..k];
  }

  /**
   An operation in the session is reported New again, to some server at some time, exactly when
   the head was deleted: until then to none, and right after it to every server.
   */
  lemma NewAgainIffSwept(steps: seq<Step>, moves: seq<Move>, op: OpId)
    requires op in Ops(Run(Initial, steps).chain)
    ensures var st := Run(Initial, steps);
            (forall k, sv: Server | 0 <= k <= |moves| && sv.op == op :: StatusOf(RunMoves(st, moves[..k]), sv) != New)
            <==> NeverSwept(st, moves)
  {
    var st := Run(Initial, steps);
    if NeverSwept(st, moves) {
      forall k, sv: Server | 0 <= k <= |moves| && sv.op == op
        ensures StatusOf(RunMoves(st, moves[..k]), sv) != New
      {
        NeverSweptPrefix(st, moves, k);
        UnsweptRun(st, moves[..k]);
        AcceptedIsNeverNewAgain(steps, Steps(moves[..k]), sv);
      }
    } else {
      var k :| 0 <= k < |moves| && SweepsAt(st, moves, k);
      SweptAfter(st, moves, k);
      var sv := Server(op, None, [], Ready);
      assert sv.op == op && StatusOf(RunMoves(st, moves[..k + 1]), sv) == New;
    }
  }

  /** Accepted history is only ever extended, at every time, exactly when the head is not deleted. */
  lemma ExtendedIffNotSwept(st: State, moves: seq<Move>)
    requires Inv(st) && st.chain != []
    ensures (forall k :: 0 <= k <= |moves| ==> Extends(st, RunMoves(st, moves[..k]))) <==> NeverSwept(st, moves)
  {
    if NeverSwept(st, moves) {
      forall k | 0 <= k <= |moves|
        ensures Extends(st, RunMoves(st, moves[..k]))
      {
        NeverSweptPrefix(st, moves, k);
        UnsweptRun(st, moves[..k]);
        RunExtends(st, Steps(moves[..k]));
      }
    } else {
      var k :| 0 <= k < |moves| && SweepsAt(st, moves, k);
      SweptAfter(st, moves, k);
      assert !Extends(st, RunMoves(st, moves[..k + 1]));
    }
  }

  // ---------------------------------------------------------------- the next life

  /** A publisher of the deleted session that can still write a manifest or commit a head. */
  predicate MayStillWrite(manifest: seq<Published>, phase: Phase)
    requires manifest != []
  {
    phase.Written? ||
    (phase.Claimed? && (phase.base == |manifest| - 1 || IsCandidate(Last(manifest), phase.content, phase.base)))
  }

  predicate Harmless(st: State) {
    st.manifest != [] && forall s :: s in st.servers ==> !MayStillWrite(st.manifest, st.servers[s].phase)
  }

  /** What is promised of a session. */
  ghost predicate Promised(st: State) {
    OneChain(st) && PublishedOnce(st)
  }

  lemma InvMeansPromised(st: State)
    requires Inv(st)
    ensures Promised(st)
  {
    InvMeansPublishedOnce(st);
  }

  lemma SweepKeepsInv(st: State)
    requires Inv(st) && Sweepable(st) && Harmless(st)
    ensures Inv(Swept(st))
  {
    var after := Swept(st);
    forall s | s in after.servers
      ensures ServerOk(after, after.servers[s])
    {
      assert ServerOk(st, st.servers[s]) && !MayStillWrite(st.manifest, st.servers[s].phase);
    }
  }

  // ---------------------------------------------------------------- what a late publisher breaks

  lemma Unused(used: set<nat>) returns (n: nat)
    ensures n !in used
  {
    n := 0;
    var left := used;
    while n in used
      invariant left <= used && (forall k :: k in used && k >= n ==> k in left)
      decreases left
    {
      left := left - {n};
      n := n + 1;
    }
  }

  /** A new server accepts the first operation of the next life. */
  lemma AcceptsFirst(st: State, n: ServerId, etag: ETag)
    requires st.chain == [] && st.manifest != [] && n !in st.servers && etag !in st.issued
    ensures var base := |st.manifest| - 1;
            var ready := Next(Next(Next(st, Attach(n, 0)), CheckStatus(n, ToAccept)), Checkpoint(n, base));
            var next := Next(ready, Accept(n, etag));
            && next.chain == [Claim(0, None, [0], base, [HeadVersion(Accepted, etag)])]
            && next.issued == st.issued + {etag} && next.manifest == st.manifest
            && forall s :: s in st.servers ==> s in next.servers && next.servers[s] == st.servers[s]
  {
    var base := |st.manifest| - 1;
    var ready := Next(Next(Next(st, Attach(n, 0)), CheckStatus(n, ToAccept)), Checkpoint(n, base));
    assert ready == st.(servers := st.servers[n := Server(0, None, [], Checkpointed(ToAccept, base))]);
    assert [] + [0] == [0];
    assert NativeAccept(ready, ready.servers[n], base, etag) ==
           CompareAndClaim(ready, ready.servers[n], base, Accepted, etag);
  }

  /** A publisher that has written its manifest then commits that head, which was never published. */
  lemma CommitsAnother(st: State, s: ServerId, etag: ETag, first: ETag)
    requires st.manifest != [] && (forall i :: 0 <= i < |st.manifest| ==> st.manifest[i].base == i - 1)
    requires st.chain == [Claim(0, None, [0], |st.manifest| - 1, [HeadVersion(Accepted, first)])]
    requires s in st.servers && st.servers[s].phase.Written? && etag !in st.issued
    ensures !PublishedOnce(Next(st, MarkCommitted(s, etag)))
  {
    var next := Next(st, MarkCommitted(s, etag));
    assert Last(next.chain).versions[1] == HeadVersion(Committed, etag);
    assert WasCommitted(Last(next.chain));
  }

  lemma WrittenBreaks(st: State, s: ServerId) returns (steps: seq<Step>)
    requires st.chain == [] && st.manifest != [] &&
             (forall i :: 0 <= i < |st.manifest| ==> st.manifest[i].base == i - 1)
    requires s in st.servers && st.servers[s].phase.Written?
    ensures !PublishedOnce(Run(st, steps))
  {
    var n := Unused(st.servers.Keys);
    var first := Unused(st.issued);
    var etag := Unused(st.issued + {first});
    var base := |st.manifest| - 1;
    steps := [Attach(n, 0), CheckStatus(n, ToAccept), Checkpoint(n, base), Accept(n, first), MarkCommitted(s, etag)];
    RunFive(st, Attach(n, 0), CheckStatus(n, ToAccept), Checkpoint(n, base), Accept(n, first), MarkCommitted(s, etag));
    AcceptsFirst(st, n, first);
    var ready := Next(Next(Next(st, Attach(n, 0)), CheckStatus(n, ToAccept)), Checkpoint(n, base));
    CommitsAnother(Next(ready, Accept(n, first)), s, etag, first);
  }

  lemma {:induction false} RunAppend(st: State, a: seq<Step>, b: seq<Step>)
    ensures Run(st, a + b) == Run(Run(st, a), b)
  {
    if b == [] {
      assert a + b == a;
    } else {
      assert (a + b)[..|a + b| - 1] == a + b[..|b| - 1];
      RunAppend(st, a, b[..|b| - 1]);
    }
  }

  /** Any publisher that may still write breaks what was promised, in some continuation. */
  lemma LatePublisherBreaks(st: State, s: ServerId) returns (steps: seq<Step>)
    requires st.chain == [] && st.manifest != [] &&
             (forall i :: 0 <= i < |st.manifest| ==> st.manifest[i].base == i - 1)
    requires s in st.servers && MayStillWrite(st.manifest, st.servers[s].phase)
    ensures !PublishedOnce(Run(st, steps))
  {
    var phase := st.servers[s].phase;
    if phase.Written? {
      steps := WrittenBreaks(st, s);
    } else {
      var put := Next(st, PutManifest(s));
      assert [PutManifest(s)][..0] == [];
      assert Run(st, [PutManifest(s)]) == put;
      if IsCandidate(Last(st.manifest), phase.content, phase.base) {
        var rest := WrittenBreaks(put, s);
        RunAppend(st, [PutManifest(s)], rest);
        steps := [PutManifest(s)] + rest;
      } else {
        assert put.manifest[|st.manifest|].bySession && put.chain == [];
        steps := [PutManifest(s)];
      }
    }
  }

  /**
   Deleting an expired head is harmless exactly when no publisher of the session can still write:
   every continuation keeps what is promised, one chain published at most once, if and only if
   no server has written its manifest without having committed the head, or has claimed a
   candidate that is visible or computed from the current version.
   */
  lemma SweepStartsAfresh(st: State)
    requires Inv(st) && Sweepable(st)
    ensures (forall steps :: Promised(Run(Swept(st), steps))) <==> Harmless(st)
  {
    if Harmless(st) {
      SweepKeepsInv(st);
      forall steps
        ensures Promised(Run(Swept(st), steps))
      {
        RunKeepsInv(Swept(st), steps);
        InvMeansPromised(Run(Swept(st), steps));
      }
    } else {
      var s :| s in st.servers && MayStillWrite(st.manifest, st.servers[s].phase);
      var after := Swept(st);
      assert MayStillWrite(after.manifest, after.servers[s].phase);
      var steps := LatePublisherBreaks(after, s);
      assert !Promised(Run(after, steps));
    }
  }

  /** The protocol invariant over any steps, expiries and harmless deletions. */
  lemma {:induction false} MovesKeepInv(st: State, moves: seq<Move>)
    requires Inv(st)
    requires forall k :: 0 <= k < |moves| && SweepsAt(st, moves, k) ==> Harmless(RunMoves(st, moves[..k]))
    ensures Inv(RunMoves(st, moves))
  {
    if moves != [] {
      var n := |moves| - 1;
      var before := moves[..n];
      forall k | 0 <= k < n && SweepsAt(st, before, k)
        ensures Harmless(RunMoves(st, before[..k]))
      {
        assert before[..k] == moves[..k];
        assert SweepsAt(st, moves, k);
      }
      MovesKeepInv(st, before);
      var mid := RunMoves(st, before);
      if moves[n].Protocol? {
        NextKeepsInv(mid, moves[n].step);
      } else if Sweepable(mid) {
        assert SweepsAt(st, moves, n);
        SweepKeepsInv(mid);
      }
    }
  }

  /** Over such moves every life of the session is one chain, published at most once. */
  lemma EachLife(moves: seq<Move>)
    requires forall k :: 0 <= k < |moves| && SweepsAt(Initial, moves, k) ==> Harmless(RunMoves(Initial, moves[..k]))
    ensures Promised(RunMoves(Initial, moves))
  {
    MovesKeepInv(Initial, moves);
    InvMeansPromised(RunMoves(Initial, moves));
  }

  // ---------------------------------------------------------------- a run that breaks it

  /** A server that has claimed the head for publication and not yet written the manifest. */
  lemma ClaimedAlone()
    ensures var ready := Next(Next(Next(Initial, Attach(0, 7)), CheckStatus(0, ToPublish)), Checkpoint(0, 0));
            var st := Next(ready, Finalize(0, 1));
            && st.chain == [Claim(7, None, [7], 0, [HeadVersion(Publishing, 1)])] && st.issued == {1}
            && st.manifest == Initial.manifest && st.servers == map[0 := Server(7, None, [], Claimed([7], 0))]
  {
    var ready := Next(Next(Next(Initial, Attach(0, 7)), CheckStatus(0, ToPublish)), Checkpoint(0, 0));
    assert ready == Initial.(servers := map[0 := Server(7, None, [], Checkpointed(ToPublish, 0))]);
    assert [] + [7] == [7];
  }

  lemma RunSeven(a: Move, b: Move, c: Move, d: Move, e: Move, f: Move, g: Move)
    ensures RunMoves(Initial, [a, b, c, d, e, f, g]) ==
            Make(Make(Make(Make(Make(Make(Make(Initial, a), b), c), d), e), f), g)
  {
    var all := [a, b, c, d, e, f, g];
    assert all[..6] == [a, b, c, d, e, f] && all[..6][..5] == [a, b, c, d, e] && all[..6][..5][..4] == [a, b, c, d];
    assert [a, b, c, d][..3] == [a, b, c] && [a, b, c][..2] == [a, b] && [a, b][..1] == [a] && [a][..0] == [];
    assert RunMoves(Initial, [a]) == Make(Initial, a);
    assert RunMoves(Initial, [a, b]) == Make(Make(Initial, a), b);
    assert RunMoves(Initial, [a, b, c]) == Make(RunMoves(Initial, [a, b]), c);
    assert RunMoves(Initial, [a, b, c, d]) == Make(RunMoves(Initial, [a, b, c]), d);
    assert RunMoves(Initial, [a, b, c, d, e]) == Make(RunMoves(Initial, [a, b, c, d]), e);
  }

  lemma ClaimedThenDeleted(st: State)
    requires st.chain == [Claim(7, None, [7], 0, [HeadVersion(Publishing, 1)])] && st.issued == {1}
    requires st.manifest == Initial.manifest && st.servers == map[0 := Server(7, None, [], Claimed([7], 0))]
    ensures !PublishedOnce(Make(Make(Make(st, Protocol(ExpireHead(2))), Sweep), Protocol(PutManifest(0))))
  {
    var expired := Next(st, ExpireHead(2));
    assert Top(Last(expired.chain)).state == Failed;
    var end := Next(Swept(expired), PutManifest(0));
    assert end.chain == [] && end.manifest[1].bySession;
  }

  /** It happens: the head expires and is deleted under a publisher, which then writes the manifest
      of a session that is gone. */
  lemma DeletedSessionPublishes()
    ensures !PublishedOnce(RunMoves(Initial,
              [Protocol(Attach(0, 7)), Protocol(CheckStatus(0, ToPublish)), Protocol(Checkpoint(0, 0)),
               Protocol(Finalize(0, 1)), Protocol(ExpireHead(2)), Sweep, Protocol(PutManifest(0))]))
  {
    RunSeven(Protocol(Attach(0, 7)), Protocol(CheckStatus(0, ToPublish)), Protocol(Checkpoint(0, 0)),
             Protocol(Finalize(0, 1)), Protocol(ExpireHead(2)), Sweep, Protocol(PutManifest(0)));
    ClaimedAlone();
    var ready := Next(Next(Next(Initial, Attach(0, 7)), CheckStatus(0, ToPublish)), Checkpoint(0, 0));
    ClaimedThenDeleted(Next(ready, Finalize(0, 1)));
  }

  /** Nothing but the deletion of an expired head takes an operation out of the session, and it leaves
      servers and published contents alone. */
  lemma OnlyExpiredForgotten(st: State, move: Move, op: OpId)
    requires Inv(st) && op in Ops(st.chain) && op !in Ops(Make(st, move).chain)
    ensures var after := Make(st, move);
            && move.Sweep? && ExpiredHead(st.chain) && after.chain == [] && after.servers == st.servers
            && |after.manifest| == |st.manifest|
            && forall i :: 0 <= i < |st.manifest| ==> after.manifest[i].content == st.manifest[i].content
  {
    if move.Protocol? {
      NextExtends(st, move.step);
      ExtendedOps(st, Next(st, move.step), op);
    }
  }
}
