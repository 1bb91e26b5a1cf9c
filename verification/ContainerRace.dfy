/**
 Clients racing to open a container that may not exist yet, on storage that answers every request.
 Each step is one request of one client.
 */
module ContainerRace {
  import opened Common

  /** A client: may it create, and with which block size? */
  datatype Client = Client(create: bool, blockSize: nat)

  /** Where a client is in: attach; look, put, make the bucket, put again; attach again. */
  datatype Phase =
    | Attaching
    | Looking
    | Putting
    | MakingBucket
    | PuttingAgain
    | AttachingAgain(initialized: bool)
    | Attached(tried: Option<bool>)
    | Refused

  /** `created` lists who put a manifest, in order. */
  datatype Storage = Storage(bucket: bool, manifest: Option<nat>, created: seq<nat>)

  datatype State = State(storage: Storage, phases: map<nat, Phase>)

  type Clients = nat -> Client

  function At(s: State, id: nat): Phase {
    if id in s.phases then s.phases[id] else Attaching
  }

  /** A conditional put: only into a bucket, and only if there is no manifest. */
  function Put(st: Storage, id: nat, blockSize: nat): (Storage, bool) {
    if st.bucket && st.manifest.None? then
      (st.(manifest := Some(blockSize), created := st.created + [id]), true)
    else (st, false)
  }

  function ClientStep(st: Storage, phase: Phase, id: nat, c: Client): (Storage, Phase) {
    match phase
    case Attaching =>
      (st, if st.manifest.Some? then Attached(None) else if c.create then Looking else Refused)
    case Looking => (st, if st.manifest.Some? then AttachingAgain(false) else Putting)
    case Putting =>
      var (next, ok) := Put(st, id, c.blockSize);
      (next, if ok then AttachingAgain(true) else MakingBucket)
    case MakingBucket => (st.(bucket := true), PuttingAgain)
    case PuttingAgain => var (next, ok) := Put(st, id, c.blockSize); (next, AttachingAgain(ok))
    case AttachingAgain(ok) => (st, if st.manifest.Some? then Attached(Some(ok)) else Refused)
    case _ => (st, phase)
  }

  function Step(s: State, id: nat, clients: Clients): State {
    var (storage, phase) := ClientStep(s.storage, At(s, id), id, clients(id));
    State(storage, s.phases[id := phase])
  }

  /** A schedule says whose request comes next. */
  function Run(s: State, schedule: seq<nat>, clients: Clients): State
    decreases |schedule|
  {
    if schedule == [] then s else Run(Step(s, schedule[0], clients), schedule[1..], clients)
  }

  function Start(bucket: bool, manifest: Option<nat>): State
  {
    State(Storage(bucket, manifest, []), map[])
  }

  // ---------------------------------------------------------------- what every step keeps

  predicate PhaseOk(st: Storage, phase: Phase, id: nat, c: Client) {
    && (!phase.Attaching? && !phase.Attached? && !phase.Refused? ==> c.create)
    && (phase.PuttingAgain? ==> st.bucket)
    && (phase.AttachingAgain? || phase.Attached? ==> st.manifest.Some?)
    && (phase == AttachingAgain(true) || phase == Attached(Some(true)) <==> st.created == [id])
    && (phase.Refused? ==> !c.create)
    && (phase.Attached? && phase.tried.Some? ==> c.create)
  }

  /** At most one creation, none over an existing manifest, and the first block size stays. */
  predicate StorageOk(st: Storage, initial: Option<nat>, clients: Clients) {
    && (initial.Some? ==> st.manifest == initial && st.created == [])
    && (initial.None? && st.manifest.Some? ==>
          |st.created| == 1 && clients(st.created[0]).create && st.manifest == Some(clients(st.created[0]).blockSize))
    && (st.manifest.None? ==> st.created == [])
  }

  ghost predicate Inv(s: State, initial: Option<nat>, clients: Clients) {
    && StorageOk(s.storage, initial, clients)
    && (s.storage.manifest.Some? ==> s.storage.bucket)
    && (forall id :: PhaseOk(s.storage, At(s, id), id, clients(id)))
    && (initial.Some? ==> forall id :: At(s, id) == Attaching || At(s, id) == Attached(None))
  }

  lemma StepKeeps(s: State, id: nat, initial: Option<nat>, clients: Clients)
    requires Inv(s, initial, clients)
    ensures Inv(Step(s, id, clients), initial, clients)
  {
    var t := Step(s, id, clients);
    assert PhaseOk(s.storage, At(s, id), id, clients(id));
    assert t.storage.created != s.storage.created ==> t.storage.created == [id];
    forall k
      ensures PhaseOk(t.storage, At(t, k), k, clients(k))
    {
      assert PhaseOk(s.storage, At(s, k), k, clients(k));
      assert t.storage.created == [id] && k != id ==> t.storage.created[0] != k;
    }
  }

  lemma {:induction false} RunKeeps(s: State, schedule: seq<nat>, initial: Option<nat>, clients: Clients)
    requires Inv(s, initial, clients)
    ensures Inv(Run(s, schedule, clients), initial, clients)
    decreases |schedule|
  {
    if schedule != [] {
      StepKeeps(s, schedule[0], initial, clients);
      RunKeeps(Step(s, schedule[0], clients), schedule[1..], initial, clients);
    }
  }

  predicate Finished(phase: Phase) {
    phase.Attached? || phase.Refused?
  }

  /**
   Every schedule: one creation at most, the first creator's block size, and each finished client
   that may create is attached, and says truly whether it was the one to initialize. A container
   that was there at the start is attached to by every client, creating or not.
   */
  lemma RaceOutcome(bucket: bool, manifest: Option<nat>, schedule: seq<nat>, clients: Clients, id: nat)
    requires manifest.Some? ==> bucket
    ensures var end := Run(Start(bucket, manifest), schedule, clients);
            && StorageOk(end.storage, manifest, clients)
            && (Finished(At(end, id)) && clients(id).create ==> At(end, id).Attached?)
            && (manifest.Some? && Finished(At(end, id)) ==> At(end, id) == Attached(None))
            && (At(end, id).Attached? && At(end, id) != Attached(None) ==>
                  clients(id).create && (At(end, id) == Attached(Some(true)) <==> end.storage.created == [id]))
            && (end.storage.created != [] && end.storage.created[0] == id ==>
                  At(end, id) == AttachingAgain(true) || At(end, id) == Attached(Some(true)))
  {
    RunKeeps(Start(bucket, manifest), schedule, manifest, clients);
    var end := Run(Start(bucket, manifest), schedule, clients);
    assert PhaseOk(end.storage, At(end, id), id, clients(id));
  }

  // ---------------------------------------------------------------- every client finishes

  function Rank(phase: Phase): nat {
    match phase
    case Attaching => 6
    case Looking => 5
    case Putting => 4
    case MakingBucket => 3
    case PuttingAgain => 2
    case AttachingAgain(_) => 1
    case _ => 0
  }

  function Turns(schedule: seq<nat>, id: nat): nat {
    if schedule == [] then 0 else (if schedule[0] == id then 1 else 0) + Turns(schedule[1..], id)
  }

  lemma {:induction false} TurnsFinish(s: State, schedule: seq<nat>, clients: Clients, id: nat)
    requires Turns(schedule, id) >= Rank(At(s, id))
    ensures Finished(At(Run(s, schedule, clients), id))
    decreases |schedule|
  {
    if schedule != [] {
      var t := Step(s, schedule[0], clients);
      assert schedule[0] != id ==> At(t, id) == At(s, id);
      TurnsFinish(t, schedule[1..], clients, id);
    }
  }

  /** Six turns are enough for any client that may create to end attached. */
  lemma EveryCreatorAttaches(bucket: bool, manifest: Option<nat>, schedule: seq<nat>, clients: Clients, id: nat)
    requires (manifest.Some? ==> bucket) && clients(id).create && Turns(schedule, id) >= 6
    ensures At(Run(Start(bucket, manifest), schedule, clients), id).Attached?
  {
    TurnsFinish(Start(bucket, manifest), schedule, clients, id);
    RaceOutcome(bucket, manifest, schedule, clients, id);
  }

  function Times(id: nat, n: nat): seq<nat> {
    seq(n, i => id)
  }

  lemma RunTimes(s: State, id: nat, n: nat, clients: Clients)
    ensures Run(s, Times(id, n + 1), clients) == Run(Step(s, id, clients), Times(id, n), clients)
  {
    assert Times(id, n + 1)[1..] == Times(id, n);
  }

  /** A client alone with storage that has no such container: it creates one of its own block size and
      attaches, or is refused, by whether it may create. */
  lemma ClientAlone(bucket: bool, clients: Clients, id: nat)
    ensures var end := Run(Start(bucket, None), Times(id, 6), clients);
            if clients(id).create then
              At(end, id) == Attached(Some(true)) && end.storage == Storage(true, Some(clients(id).blockSize), [id])
            else
              At(end, id) == Refused && end.storage == Storage(bucket, None, [])
  {
    var s0 := Start(bucket, None);
    var s1 := Step(s0, id, clients);
    var s2 := Step(s1, id, clients);
    var s3 := Step(s2, id, clients);
    var s4 := Step(s3, id, clients);
    var s5 := Step(s4, id, clients);
    RunTimes(s0, id, 5, clients);
    RunTimes(s1, id, 4, clients);
    RunTimes(s2, id, 3, clients);
    RunTimes(s3, id, 2, clients);
    RunTimes(s4, id, 1, clients);
    RunTimes(s5, id, 0, clients);
  }
}
