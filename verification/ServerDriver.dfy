/**
 The Rust driver of the session protocol: `RemoteServer` owns a native worker pool, possibly a
 cloud connection, and possibly a session attachment, and runs native session calls in order.
 Native results are arbitrary: a call may fail without effect, or apply and still report
 failure. Between any two native actions other servers take any number of protocol steps.
 */
module ServerDriver {
  import opened Common
  import opened SessionProtocol
  import SessionTheorems
  import SessionProgress

  /** The steps `complete_request` and `stage_request` may take. */
  predicate CompletionStep(step: Step) {
    step.CheckStatus? || step.Checkpoint? || step.Accept? || step.Abandon?
  }

  /** The steps `upload` may take: in particular it never accepts. */
  predicate UploadStep(step: Step) {
    step.CheckStatus? || step.Checkpoint? || step.Finalize? || step.ClaimPublishing? ||
    step.PutManifest? || step.MarkCommitted? || step.Abandon?
  }

  datatype Program = Completion | Publication

  /** From position `from` on, the steps of `s` are steps of the given program. */
  ghost predicate OwnSteps(trace: seq<Step>, from: nat, s: ServerId, program: Program) {
    forall i :: from <= i < |trace| && By(trace[i], s) ==>
      if program.Completion? then CompletionStep(trace[i]) else UploadStep(trace[i])
  }

  /** No step a request completion takes changes the published manifest. */
  lemma CompletionKeepsManifest(st: State, step: Step)
    requires CompletionStep(step)
    ensures Next(st, step).manifest == st.manifest
  {
    if step.server in st.servers && step.Accept? {
      var sv := st.servers[step.server];
      if sv.phase.Checkpointed? {
        assert NativeAccept(st, sv, sv.phase.base, step.etag).manifest == st.manifest;
      }
    }
  }

  /** How a server's own step moves its phase when `manifests` versions were already published. */
  predicate MayFollow(step: Step, a: Phase, b: Phase, manifests: nat) {
    && (step.Abandon? ==> b.Ready?)
    && (step.Checkpoint? && a.FoundNew? && step.base < manifests ==> b == Checkpointed(a.goal, step.base))
    && (step.Accept? && a.Checkpointed? && a.goal.ToAccept? ==> b.Ready?)
    && (step.Finalize? && a.Checkpointed? && a.goal.ToPublish? ==> b.Ready? || b.Claimed?)
    && (step.ClaimPublishing? && a.FoundOwn? ==> b.Ready? || b.Claimed?)
    && (step.PutManifest? && a.Claimed? ==> b.Ready? || b.Written?)
    && (step.PutManifest? && a.Ready? ==> b.Ready?)
    && (step.MarkCommitted? && a.Written? ==> b.Ready?)
  }

  lemma PhaseStep(st: State, step: Step, s: ServerId)
    requires Inv(st) && By(step, s) && s in st.servers && !step.Attach? && !step.Detach?
    ensures var st' := Next(st, step);
            s in st'.servers && st'.servers[s].op == st.servers[s].op &&
            MayFollow(step, st.servers[s].phase, st'.servers[s].phase, |st.manifest|)
  {
    var sv := st.servers[s];
    assert ServerOk(st, sv);
  }

  lemma Join(t0: seq<Step>, t1: seq<Step>, t2: seq<Step>, s: ServerId, program: Program)
    requires t0 <= t1 <= t2
    requires OwnSteps(t1, |t0|, s, program) && OwnSteps(t2, |t1|, s, program)
    ensures OwnSteps(t2, |t0|, s, program)
  {
    forall i | |t0| <= i < |t2| && By(t2[i], s)
      ensures if program.Completion? then CompletionStep(t2[i]) else UploadStep(t2[i])
    {
      if i < |t1| { assert t2[i] == t1[i]; }
    }
  }

  datatype CallKind = StatusCall | CheckpointCall | AcceptCall | FinalizeCall | UploadCall | PlainUploadCall

  /** What a native call reports: failure, success, or a status. */
  datatype Answer = Refused | Granted | Told(status: Status)

  /** A native session call, with what held on this server when it was made, and its answer. */
  datatype Call = Call(kind: CallKind, workersStopped: bool, handleClosed: bool, answer: Answer)

  predicate Quiesced(c: Call) {
    c.kind.StatusCall? || (c.workersStopped && c.handleClosed)
  }

  function Granting(r: Outcome): Answer {
    if r.Ok? then Granted else Refused
  }

  /** What a call is and reported. */
  predicate Is(c: Call, kind: CallKind, answer: Answer) {
    c.kind == kind && c.answer == answer
  }

  /** The calls a request completion makes, and its result: an operation that is accepted or committed
      is left alone, a new one is checkpointed and accepted, and everything else is an error. */
  predicate CompletionCalls(made: seq<Call>, r: Outcome) {
    if |made| == 1 then
      && made[0].kind.StatusCall? && made[0].answer != Told(New)
      && (r.Ok? <==> made[0].answer == Told(IsAccepted) || made[0].answer == Told(IsCommitted))
    else if |made| == 2 then
      Is(made[0], StatusCall, Told(New)) && Is(made[1], CheckpointCall, Refused) && r.Err?
    else
      && |made| == 3 && Is(made[0], StatusCall, Told(New)) && Is(made[1], CheckpointCall, Granted)
      && Is(made[2], AcceptCall, Granting(r))
  }

  /** The calls a publication makes: a new operation is finalized, one that is accepted or committed
      goes to the fenced publisher, and everything else is an error. */
  predicate PublicationCalls(made: seq<Call>, r: Outcome) {
    if |made| == 1 then
      made[0].kind.StatusCall? && made[0].answer in {Refused, Told(IsFailed), Told(Conflict)} && r.Err?
    else
      && |made| == 2 && made[0].kind.StatusCall?
      && if made[0].answer == Told(New) then Is(made[1], FinalizeCall, Granting(r))
         else made[0].answer in {Told(IsAccepted), Told(IsCommitted)} && Is(made[1], UploadCall, Granting(r))
  }

  /** At some moment from `n` on, what the answer means held for this server. */
  ghost predicate AnsweredIn(trace: seq<Step>, n: nat, s: ServerId, op: OpId, status: Status) {
    exists k :: n <= k <= |trace| && HeldAt(Run(Initial, trace[..k]), s, op, status)
  }

  ghost predicate HeldAt(st: State, s: ServerId, op: OpId, status: Status) {
    s in st.servers && st.servers[s].op == op && SessionProgress.Meaning(st, st.servers[s], status)
  }

  lemma Answers(st: State, trace: seq<Step>, s: ServerId, op: OpId)
    requires st == Run(Initial, trace) && Inv(st) && s in st.servers && st.servers[s].op == op
    ensures AnsweredIn(trace, |trace|, s, op, StatusOf(st, st.servers[s]))
  {
    assert trace[..|trace|] == trace;
    SessionProgress.StatusMeans(st, st.servers[s], StatusOf(st, st.servers[s]));
    assert HeldAt(Run(Initial, trace[..|trace|]), s, op, StatusOf(st, st.servers[s]));
  }

  lemma AnsweredLater(past: seq<Step>, trace: seq<Step>, n: nat, s: ServerId, op: OpId, status: Status)
    requires past <= trace && AnsweredIn(past, n, s, op, status)
    ensures AnsweredIn(trace, n, s, op, status)
  {
    var k :| n <= k <= |past| && HeldAt(Run(Initial, past[..k]), s, op, status);
    assert trace[..k] == past[..k];
  }

  /** Reading the status changes the reader's phase and nothing else. */
  lemma Looked(st: State, trace: seq<Step>, s: ServerId, op: OpId, goal: Goal)
    requires st == Run(Initial, trace) && Inv(st) && s in st.servers && st.servers[s].op == op
    ensures var status, after := StatusOf(st, st.servers[s]), Next(st, CheckStatus(s, goal));
            && after == Set(st, s, st.servers[s], AfterStatus(status, goal)) && SessionTheorems.Extends(st, after)
            && (status.IsAccepted? || status.IsCommitted? ==> op in Ops(st.chain))
            && AnsweredIn(trace + [CheckStatus(s, goal)], |trace|, s, op, status)
  {
    var status := StatusOf(st, st.servers[s]);
    Answers(st, trace, s, op);
    AnsweredLater(trace, trace + [CheckStatus(s, goal)], |trace|, s, op, status);
    SessionTheorems.NextExtends(st, CheckStatus(s, goal));
    if status.IsAccepted? || status.IsCommitted? { assert Ops(st.chain)[|st.chain| - 1] == op; }
  }

  /** The shared durable storage, with the run so far. */
  class Storage {
    var st: State
    ghost var trace: seq<Step>

    ghost predicate Valid()
      reads this
    {
      st == Run(Initial, trace)
    }

    lemma Reachable()
      requires Valid()
      ensures Inv(st) && AllKnow(st)
    {
      SessionTheorems.RunKeepsInv(Initial, trace);
      SessionTheorems.RunKnows(trace);
    }

    constructor ()
      ensures Valid() && trace == []
    {
      st := Initial;
      trace := [];
    }

    method Do(step: Step)
      requires Valid()
      modifies this
      ensures Valid() && st == Next(old(st), step) && trace == old(trace) + [step]
    {
      st := Next(st, step);
      trace := trace + [step];
      assert trace[..|trace| - 1] == old(trace);
    }

    /** Any interleaving of the other servers. */
    method Others(me: ServerId)
      requires Valid()
      modifies this
      ensures Valid() && old(trace) <= trace
      ensures forall i :: |old(trace)| <= i < |trace| ==> !By(trace[i], me)
      ensures me in st.servers <==> me in old(st).servers
      ensures me in st.servers ==> st.servers[me] == old(st).servers[me]
      ensures SessionTheorems.Extends(old(st), st)
    {
      var steps: seq<Step> := *;
      var n := 0;
      ghost var start := trace;
      Reachable();
      while n < |steps|
        invariant 0 <= n <= |steps|
        invariant Valid() && start <= trace
        invariant forall i :: |start| <= i < |trace| ==> !By(trace[i], me)
        invariant me in st.servers <==> me in old(st).servers
        invariant me in st.servers ==> st.servers[me] == old(st).servers[me]
        invariant SessionTheorems.Extends(old(st), st)
      {
        if !By(steps[n], me) {
          ghost var before := st;
          Reachable();
          SessionTheorems.OthersKeepServer(st, steps[n], me);
          SessionTheorems.NextExtends(st, steps[n]);
          Do(steps[n]);
          ExtendsTrans(old(st), before, st);
        }
        n := n + 1;
      }
    }
  }

  lemma ExtendsTrans(a: State, b: State, c: State)
    requires SessionTheorems.Extends(a, b) && SessionTheorems.Extends(b, c)
    ensures SessionTheorems.Extends(a, c)
  {
    forall i | 0 <= i < |a.chain|
      ensures SessionTheorems.SameClaim(a.chain[i], c.chain[i])
    {
      assert SessionTheorems.SameClaim(a.chain[i], b.chain[i]) && SessionTheorems.SameClaim(b.chain[i], c.chain[i]);
    }
  }

  /** A server is plain, owns a static-VFS session, or owns a cloud connection with or without a session. */
  class RemoteServer {
    const storage: Storage
    const id: ServerId
    const op: OpId
    var raw: bool               // native workers are running
    var session: bool           // owns a static-VFS session attachment
    var database: bool          // owns a cloud connection
    var databaseSession: bool   // that connection carries a session attachment
    var sqlOpen: bool           // that connection's SQLite handle is open
    ghost var calls: seq<Call>

    predicate HasSession()
      reads this
    {
      session || (database && databaseSession)
    }

    /** The attachment is idle between calls, and every session call so far was made quiesced. */
    ghost predicate Valid()
      reads this, storage
    {
      && storage.Valid()
      && (HasSession() ==>
            id in storage.st.servers && storage.st.servers[id].op == op && storage.st.servers[id].phase.Ready?)
      && forall c :: c in calls ==> Quiesced(c)
    }

    /** A server in any of the four forms, over an attachment made when it was started. */
    constructor (storage: Storage, id: ServerId, op: OpId, session: bool, database: bool, databaseSession: bool)
      requires storage.Valid()
      requires session || (database && databaseSession) ==>
                 && id in storage.st.servers
                 && var sv := storage.st.servers[id]; sv == Server(op, sv.captured, sv.tip, Ready)
      ensures Valid() && this.storage == storage && this.id == id && this.op == op && raw && calls == []
      ensures this.session == session && this.database == database && this.databaseSession == databaseSession
    {
      this.storage, this.id, this.op := storage, id, op;
      this.session, this.database, this.databaseSession := session, database, databaseSession;
      raw, sqlOpen, calls := true, true, [];
    }

    /** Stops the workers whatever happens next; only closing the SQLite handle can fail. */
    method Quiesce() returns (r: Outcome)
      requires Valid()
      modifies this`raw, this`sqlOpen
      ensures Valid() && !raw
      ensures r.Ok? ==> database ==> !sqlOpen
      ensures r.Err? ==> database && sqlOpen && old(sqlOpen)
      ensures !old(raw) && !(database && old(sqlOpen)) ==> r.Ok? && sqlOpen == old(sqlOpen)
    {
      raw := false;
      r := Ok;
      if database && sqlOpen {
        var closed: bool := *;
        if closed { sqlOpen := false; } else { r := Err; }
      }
    }

    /** What holds during a session call: this server owns an attachment. */
    ghost predicate Attached()
      reads this, storage
    {
      && storage.Valid() && HasSession()
      && id in storage.st.servers && storage.st.servers[id].op == op
      && forall c :: c in calls ==> Quiesced(c)
    }

    /** What holds inside a request: attached and quiesced. */
    ghost predicate Inside()
      reads this, storage
    {
      Attached() && !raw && (database ==> !sqlOpen)
    }

    ghost function Phase(): Phase
      reads this, storage
      requires id in storage.st.servers
    {
      storage.st.servers[id].phase
    }

    /** A call made now. */
    function Made(kind: CallKind, answer: Answer): Call
      reads this
    {
      Call(kind, !raw, !(database && sqlOpen), answer)
    }

    /** The status of the head as it is now. */
    method Look(goal: Goal) returns (status: Status)
      requires Attached() && Phase().Ready?
      modifies storage
      ensures Attached() && storage.trace == old(storage.trace) + [CheckStatus(id, goal)]
      ensures Phase() == AfterStatus(status, goal)
      ensures status.IsAccepted? || status.IsCommitted? ==> op in Ops(storage.st.chain)
      ensures AnsweredIn(storage.trace, |old(storage.trace)|, id, op, status)
      ensures SessionTheorems.Extends(old(storage.st), storage.st)
    {
      status := StatusOf(storage.st, storage.st.servers[id]);
      storage.Reachable();
      Looked(storage.st, storage.trace, id, op, goal);
      storage.Do(CheckStatus(id, goal));
    }

    /** Reads the operation status; `None` when the native call fails. */
    method ReadStatus(goal: Goal) returns (r: Option<Status>)
      requires Attached() && Phase().Ready?
      modifies storage, this`calls
      ensures Attached() && old(storage.trace) <= storage.trace
      ensures forall p :: OwnSteps(storage.trace, |old(storage.trace)|, id, p)
      ensures r.None? ==> Phase().Ready?
      ensures r.Some? ==> Phase() == AfterStatus(r.value, goal)
      ensures r.Some? && (r.value.IsAccepted? || r.value.IsCommitted?) ==> op in Ops(storage.st.chain)
      ensures r.Some? ==> AnsweredIn(storage.trace, |old(storage.trace)|, id, op, r.value)
      ensures calls == old(calls) + [Made(StatusCall, if r.Some? then Told(r.value) else Refused)]
      ensures SessionTheorems.Extends(old(storage.st), storage.st)
    {
      storage.Others(id);
      var failed: bool := *;
      if failed {
        calls := calls + [Made(StatusCall, Refused)];
        return None;
      }
      ghost var before := storage.st;
      var status := Look(goal);
      calls := calls + [Made(StatusCall, Told(status))];
      r := Some(status);
      ExtendsTrans(old(storage.st), before, storage.st);
    }

    /** One protocol step of this server, after any steps of others. */
    method Act(step: Step)
      requires Attached() && By(step, id) && !step.Attach? && !step.Detach?
      modifies storage
      ensures Attached() && old(storage.trace) <= storage.trace
      ensures CompletionStep(step) ==> OwnSteps(storage.trace, |old(storage.trace)|, id, Completion)
      ensures UploadStep(step) ==> OwnSteps(storage.trace, |old(storage.trace)|, id, Publication)
      ensures MayFollow(step, old(Phase()), Phase(), |old(storage.st.manifest)|)
      ensures SessionTheorems.Extends(old(storage.st), storage.st)
    {
      storage.Others(id);
      storage.Reachable();
      ghost var before := storage.st;
      SessionTheorems.NextExtends(storage.st, step);
      PhaseStep(storage.st, step, id);
      storage.Do(step);
      ExtendsTrans(old(storage.st), before, storage.st);
    }

    method Checkpoint() returns (r: Outcome)
      requires Inside() && Phase().FoundNew?
      modifies storage, this`calls
      ensures Inside() && old(storage.trace) <= storage.trace
      ensures forall p :: OwnSteps(storage.trace, |old(storage.trace)|, id, p)
      ensures r.Ok? ==> Phase().Checkpointed? && Phase().goal == old(Phase().goal)
      ensures r.Err? ==> Phase().Ready?
      ensures calls == old(calls) + [Made(CheckpointCall, Granting(r))]
    {
      r := SaveCheckpoint();
      calls := calls + [Made(CheckpointCall, Granting(r))];
    }

    /** The native checkpoint, on its own or as the first part of `finalize`. */
    method SaveCheckpoint() returns (r: Outcome)
      requires Inside() && Phase().FoundNew?
      modifies storage
      ensures Inside() && old(storage.trace) <= storage.trace
      ensures forall p :: OwnSteps(storage.trace, |old(storage.trace)|, id, p)
      ensures r.Ok? ==> Phase().Checkpointed? && Phase().goal == old(Phase().goal)
      ensures r.Err? ==> Phase().Ready?
    {
      var base: nat := *;
      var failed: bool := *;
      if failed || base >= |storage.st.manifest| {
        Act(Abandon(id));
        return Err;
      }
      Act(SessionProtocol.Checkpoint(id, base));
      r := Ok;
    }

    /** The accepted-head compare-and-swap. It may apply and report failure; it reports success
        only after applying, or when the head already is this exact operation and checkpoint. */
    method Accept() returns (r: Outcome)
      requires Inside() && Phase().Checkpointed? && Phase().goal.ToAccept?
      modifies storage, this`calls
      ensures Inside() && Phase().Ready? && old(storage.trace) <= storage.trace
      ensures OwnSteps(storage.trace, |old(storage.trace)|, id, Completion)
      ensures r.Ok? ==> op in Ops(storage.st.chain)
      ensures calls == old(calls) + [Made(AcceptCall, Granting(r))]
    {
      var etag: ETag, lost: bool, sent: bool := *, *, *;
      var mine := storage.st.servers[id].tip + [op];
      r := Err;
      if sent {
        Act(SessionProtocol.Accept(id, etag));
        var chain := storage.st.chain;
        if chain != [] && Last(chain).op == op && Last(chain).content == mine && !lost {
          assert Ops(chain)[|chain| - 1] == op;
          r := Ok;
        }
      } else {
        Act(Abandon(id));
      }
      calls := calls + [Made(AcceptCall, Granting(r))];
    }

    /** The status for the application, at any time, whether or not the server is quiesced. */
    method OperationStatus() returns (r: Option<Status>)
      requires Valid()
      modifies this`calls, storage
      ensures Valid() && old(storage.trace) <= storage.trace
      ensures OwnSteps(storage.trace, |old(storage.trace)|, id, Completion)
      ensures !HasSession() ==> r.None? && storage.trace == old(storage.trace) && calls == old(calls)
      ensures HasSession() ==> calls == old(calls) + [Made(StatusCall, if r.Some? then Told(r.value) else Refused)]
      ensures r.Some? ==> AnsweredIn(storage.trace, |old(storage.trace)|, id, op, r.value)
      ensures r.Some? && (r.value.IsAccepted? || r.value.IsCommitted?) ==> op in Ops(storage.st.chain)
      ensures SessionTheorems.Extends(old(storage.st), storage.st)
    {
      if !HasSession() {
        SessionTheorems.ExtendsItself(storage.st);
        return None;
      }
      r := ReadStatus(ToAccept);
      ghost var before, t1 := storage.st, storage.trace;
      Act(Abandon(id));
      Join(old(storage.trace), t1, storage.trace, id, Completion);
      ExtendsTrans(old(storage.st), before, storage.st);
      if r.Some? { AnsweredLater(t1, storage.trace, |old(storage.trace)|, id, op, r.value); }
      if r.Some? && (r.value.IsAccepted? || r.value.IsCommitted?) {
        SessionTheorems.ExtendedOps(before, storage.st, op);
      }
    }

    /** Persist the final checkpoint of a new operation and accept it. */
    method CompleteRequest() returns (r: Outcome)
      requires Valid()
      modifies this`raw, this`sqlOpen, this`calls, storage
      ensures Valid() && old(storage.trace) <= storage.trace
      ensures OwnSteps(storage.trace, |old(storage.trace)|, id, Completion)
      ensures r.Ok? ==> HasSession() && op in Ops(storage.st.chain)
      ensures !old(HasSession()) ==> r.Err? && storage.trace == old(storage.trace)
      ensures old(calls) <= calls
      ensures if calls == old(calls) then r.Err? && (!HasSession() || (database && sqlOpen))
              else CompletionCalls(calls[|old(calls)|..], r)
    {
      r := Quiesce();
      if r.Err? { return; }
      if !HasSession() { return Err; }
      var status := ReadStatus(ToAccept);
      if status.None? { return Err; }
      match status.value {
        case IsAccepted => return Ok;
        case IsCommitted => return Ok;
        case Conflict => return Err;
        case IsFailed => return Err;
        case New =>
      }
      ghost var t1 := storage.trace;
      r := CheckpointAndAccept();
      Join(old(storage.trace), t1, storage.trace, id, Completion);
    }

    /** What completion does with a new operation. */
    method CheckpointAndAccept() returns (r: Outcome)
      requires Inside() && Phase() == FoundNew(ToAccept)
      modifies this`calls, storage
      ensures Inside() && Phase().Ready? && old(storage.trace) <= storage.trace
      ensures OwnSteps(storage.trace, |old(storage.trace)|, id, Completion)
      ensures r.Ok? ==> op in Ops(storage.st.chain)
      ensures || (r.Err? && calls == old(calls) + [Made(CheckpointCall, Refused)])
              || calls == old(calls) + [Made(CheckpointCall, Granted), Made(AcceptCall, Granting(r))]
    {
      r := Checkpoint();
      if r.Err? { return; }
      ghost var t1 := storage.trace;
      r := Accept();
      Join(old(storage.trace), t1, storage.trace, id, Completion);
    }

    /** The same boundary, restricted to session-owned cloud connections. */
    method StageRequest() returns (r: Outcome)
      requires Valid()
      modifies this`raw, this`sqlOpen, this`calls, storage
      ensures Valid() && old(storage.trace) <= storage.trace
      ensures OwnSteps(storage.trace, |old(storage.trace)|, id, Completion)
      ensures r.Ok? ==> database && databaseSession && op in Ops(storage.st.chain)
      ensures !(database && databaseSession) ==> r.Err? && storage.trace == old(storage.trace) && calls == old(calls)
      ensures old(calls) <= calls
      ensures if calls == old(calls) then r.Err? && (!(database && databaseSession) || sqlOpen)
              else CompletionCalls(calls[|old(calls)|..], r)
    {
      if !(database && databaseSession) { return Err; }
      r := CompleteRequest();
    }

    /** The manifest write and the final commit shared by `finalize` and `upload`. */
    method PublishClaimed() returns (r: Outcome)
      requires Inside() && (Phase().Claimed? || Phase().Ready?)
      modifies storage
      ensures Inside() && Phase().Ready? && old(storage.trace) <= storage.trace
      ensures OwnSteps(storage.trace, |old(storage.trace)|, id, Publication)
      ensures r.Ok? ==> PublishedWithMe()
    {
      Act(PutManifest(id));
      ghost var t1 := storage.trace;
      var etag: ETag, lost: bool := *, *;
      if !storage.st.servers[id].phase.Written? {
        Act(Abandon(id));
        Join(old(storage.trace), t1, storage.trace, id, Publication);
        return Err;
      }
      storage.Reachable();
      ghost var before := storage.st;
      assert ServerOk(before, before.servers[id]);
      Act(MarkCommitted(id, etag));
      Join(old(storage.trace), t1, storage.trace, id, Publication);
      var committed := storage.st.chain != [] && Top(Last(storage.st.chain)).state == Committed;
      if !committed || lost { return Err; }
      storage.Reachable();
      SessionTheorems.HeadContent(storage.st);
      SessionTheorems.ExtendedOps(before, storage.st, op);
      r := Ok;
    }

    /** This operation is in the session, and the session's operations are published. */
    ghost predicate PublishedWithMe()
      reads this, storage
    {
      var st := storage.st;
      && op in Ops(st.chain) && st.chain != [] && Top(Last(st.chain)).state == Committed
      && Visible(st.manifest, Ops(st.chain), Last(st.chain).base)
    }

    /** `finalize`: checkpoint, claim the head directly as Publishing, publish. */
    method Finalize() returns (r: Outcome)
      requires Inside() && Phase() == FoundNew(ToPublish)
      modifies storage, this`calls
      ensures Inside() && Phase().Ready? && old(storage.trace) <= storage.trace
      ensures OwnSteps(storage.trace, |old(storage.trace)|, id, Publication)
      ensures r.Ok? ==> PublishedWithMe()
      ensures calls == old(calls) + [Made(FinalizeCall, Granting(r))]
    {
      r := SaveCheckpoint();
      if r.Err? {
        calls := calls + [Made(FinalizeCall, Refused)];
        return;
      }
      var etag: ETag := *;
      ghost var t1 := storage.trace;
      Act(SessionProtocol.Finalize(id, etag));
      Join(old(storage.trace), t1, storage.trace, id, Publication);
      ghost var t2 := storage.trace;
      r := PublishClaimed();
      calls := calls + [Made(FinalizeCall, Granting(r))];
      Join(old(storage.trace), t2, storage.trace, id, Publication);
    }

    /** The fenced publisher. It publishes the head it finds, which may already be a later
        operation accepted on top of this one. */
    method PublishAccepted() returns (r: Outcome)
      requires Inside() && Phase().FoundOwn?
      modifies storage, this`calls
      ensures Inside() && Phase().Ready? && old(storage.trace) <= storage.trace
      ensures OwnSteps(storage.trace, |old(storage.trace)|, id, Publication)
      ensures r.Ok? ==> PublishedWithMe()
      ensures calls == old(calls) + [Made(UploadCall, Granting(r))]
    {
      var etag: ETag := *;
      Act(ClaimPublishing(id, etag));
      ghost var t1 := storage.trace;
      r := PublishClaimed();
      calls := calls + [Made(UploadCall, Granting(r))];
      Join(old(storage.trace), t1, storage.trace, id, Publication);
    }

    /** Publish this server's session, or its plain cloud connection. */
    method Upload() returns (r: Outcome)
      requires Valid()
      modifies this`raw, this`sqlOpen, this`calls, storage
      ensures Valid() && old(storage.trace) <= storage.trace
      ensures OwnSteps(storage.trace, |old(storage.trace)|, id, Publication)
      ensures r.Ok? ==> HasSession() || database
      ensures r.Ok? && HasSession() ==> PublishedWithMe()
      ensures r.Ok? && !HasSession() ==> |storage.st.manifest| == |old(storage.st.manifest)| + 1
      ensures old(calls) <= calls
      ensures if calls == old(calls) then r.Err? && if database then sqlOpen else !HasSession()
              else if HasSession() then PublicationCalls(calls[|old(calls)|..], r)
              else calls == old(calls) + [Made(PlainUploadCall, Granting(r))]
    {
      r := Quiesce();
      if r.Err? { return; }
      if HasSession() {
        r := PublishSession();
      } else if database {
        r := PlainUpload();
      } else {
        r := Err;
      }
    }

    /** The publication of a session, by the status of its operation. */
    method PublishSession() returns (r: Outcome)
      requires Inside() && Phase().Ready?
      modifies this`calls, storage
      ensures Inside() && Phase().Ready? && old(storage.trace) <= storage.trace
      ensures OwnSteps(storage.trace, |old(storage.trace)|, id, Publication)
      ensures r.Ok? ==> PublishedWithMe()
      ensures old(calls) <= calls && PublicationCalls(calls[|old(calls)|..], r)
    {
      var status := ReadStatus(ToPublish);
      if status.None? { return Err; }
      ghost var t1 := storage.trace;
      match status.value {
        case New => r := Finalize();
        case IsAccepted => r := PublishAccepted();
        case IsCommitted => r := PublishAccepted();
        case IsFailed => r := Err;
        case Conflict => r := Err;
      }
      Join(old(storage.trace), t1, storage.trace, id, Publication);
    }

    /** A connection without a session publishes its manifest itself. */
    method PlainUpload() returns (r: Outcome)
      requires Valid() && !HasSession() && database && !raw && !sqlOpen
      modifies this`calls, storage
      ensures Valid() && old(storage.trace) <= storage.trace
      ensures OwnSteps(storage.trace, |old(storage.trace)|, id, Publication)
      ensures r.Ok? ==> |storage.st.manifest| == |old(storage.st.manifest)| + 1
      ensures calls == old(calls) + [Made(PlainUploadCall, Granting(r))]
    {
      var content: seq<OpId>, applied: bool, lost: bool := *, *, *;
      if applied { storage.Do(PublishElsewhere(content)); }
      r := if applied && !lost then Ok else Err;
      calls := calls + [Made(PlainUploadCall, Granting(r))];
    }

    /** Dropping the attachment detaches it. */
    method GiveUp()
      requires storage.Valid()
      modifies storage
      ensures storage.Valid() && storage.trace == old(storage.trace) + [Detach(id)] && id !in storage.st.servers
    {
      storage.Do(Detach(id));
    }

    /** Stops the workers and gives the attachment up; errors are dropped. */
    method Drop()
      requires Valid()
      modifies this, storage
      ensures Valid() && !raw && !HasSession() && calls == old(calls)
      ensures forall i :: |old(storage.trace)| <= i < |storage.trace| && By(storage.trace[i], id) ==>
                storage.trace[i].Detach?
      ensures old(HasSession()) ==> id !in storage.st.servers
    {
      var _ := Quiesce();
      if HasSession() { GiveUp(); }
      session, database, databaseSession := false, false, false;
    }

    /** Starts a server for a static-VFS session; a refused start releases the attachment. */
    static method StartSession(storage: Storage, id: ServerId, op: OpId) returns (r: Option<RemoteServer>)
      requires storage.Valid() && id !in storage.st.servers
      modifies storage
      ensures storage.Valid()
      ensures r.None? ==> id !in storage.st.servers
      ensures r.Some? ==> r.value.Valid() && r.value.HasSession() && r.value.raw && r.value.calls == [] &&
                          fresh(r.value)
      ensures r.Some? ==> r.value.storage == storage && r.value.id == id && r.value.op == op
      ensures r.Some? ==> id in storage.st.servers && !StatusOf(storage.st, storage.st.servers[id]).Conflict?
    {
      var attached: bool, statusOk: bool, started: bool := *, *, *;
      storage.Others(id);
      if !attached { return None; }
      storage.Do(Attach(id, op));
      if id !in storage.st.servers { return None; }
      storage.Others(id);
      if !statusOk || StatusOf(storage.st, storage.st.servers[id]).Conflict? || !started {
        storage.Do(Detach(id));
        return None;
      }
      var server := new RemoteServer(storage, id, op, true, false, false);
      r := Some(server);
    }
  }
}
