/**
 Interrupting a connection from other threads while its owner tries to close it. The owner and
 any number of interrupting threads take single steps in any order.
 */
module Interrupt {
  import opened Common

  datatype Holder = Owner | Thread(id: nat)

  /** Where the closing owner is. */
  datatype Closing = Idle | Wanting | Entered | Called(ok: bool)

  /** Where an interrupting thread is. `Checked` remembers what the shared handle was. */
  datatype Interrupting = Out | Wants | Inside | Checked(present: bool)

  datatype Event = InterruptIssued(id: nat) | CloseReturned(ok: bool)

  /** `db` and `shared` say whether the owner's and the shared copy of the handle are non-null. */
  datatype State = State(
    owned: bool, db: bool, shared: bool, lock: Option<Holder>,
    closing: Closing, threads: map<nat, Interrupting>, log: seq<Event>, panicked: bool)

  function New(owned: bool): State {
    State(owned, true, owned, None, Idle, map[], [], false)
  }

  function At(s: State, id: nat): Interrupting {
    if id in s.threads then s.threads[id] else Out
  }

  function Move(s: State, id: nat, to: Interrupting): State {
    s.(threads := s.threads[id := to])
  }

  // ---------------------------------------------------------------- steps

  datatype Step = OwnerStep(closes: bool) | ThreadStep(id: nat)

  /** The owner: nothing if already closed; otherwise take the lock, close, clear both copies. */
  function OwnerNext(s: State, closes: bool): State {
    match s.closing
    case Idle => if s.db then s.(closing := Wanting) else s
    case Wanting => if s.lock.None? then s.(closing := Entered, lock := Some(Owner)) else s
    case Entered =>
      if s.owned && !s.shared then s.(panicked := true)
      else if !s.owned then s.(db := false, closing := Idle, lock := None)
      else s.(closing := Called(closes), log := s.log + [CloseReturned(closes)])
    case Called(ok) =>
      if ok then s.(shared := false, db := false, closing := Idle, lock := None)
      else s.(closing := Idle, lock := None)
  }

  /** A thread: take the lock, look at the shared handle, interrupt if it is there, let go. */
  function ThreadNext(s: State, id: nat): State {
    match At(s, id)
    case Out => Move(s, id, Wants)
    case Wants => if s.lock.None? then Move(s, id, Inside).(lock := Some(Thread(id))) else s
    case Inside => Move(s, id, Checked(s.shared))
    case Checked(present) =>
      Move(s, id, Out).(lock := None, log := if present then s.log + [InterruptIssued(id)] else s.log)
  }

  function Next(s: State, step: Step): State {
    if s.panicked then s
    else match step
      case OwnerStep(closes) => OwnerNext(s, closes)
      case ThreadStep(id) => ThreadNext(s, id)
  }

  function Run(s: State, steps: seq<Step>): State
    decreases |steps|
  {
    if steps == [] then s else Run(Next(s, steps[0]), steps[1..])
  }

  // ---------------------------------------------------------------- what every step keeps

  predicate InOwner(c: Closing) {
    c.Entered? || c.Called?
  }

  predicate InThread(i: Interrupting) {
    i.Inside? || i.Checked?
  }

  predicate Closed(log: seq<Event>) {
    CloseReturned(true) in log
  }

  /** No interrupt comes after a close that succeeded, and none at all without ownership. */
  predicate SafeLog(log: seq<Event>, owned: bool) {
    && (forall i, j :: 0 <= i < j < |log| && log[i] == CloseReturned(true) ==> !log[j].InterruptIssued?)
    && (forall i, j :: 0 <= i < j < |log| && log[i] == CloseReturned(true) ==> !log[j].CloseReturned?)
    && (!owned ==> log == [])
  }

  ghost predicate Inv(s: State) {
    && (s.lock == Some(Owner) <==> InOwner(s.closing))
    && (forall id :: s.lock == Some(Thread(id)) <==> InThread(At(s, id)))
    && (forall id :: At(s, id) == Checked(true) ==> s.shared)
    && (s.shared ==> s.owned)
    && (s.owned && s.db ==> s.shared)
    && (s.owned && !s.db ==> !s.shared)
    && (s.closing != Idle ==> s.db)
    && (s.closing.Called? ==> s.owned)
    && (Closed(s.log) <==> s.closing == Called(true) || (s.owned && !s.db))
    && SafeLog(s.log, s.owned)
    && !s.panicked
  }

  lemma NewInv(owned: bool)
    ensures Inv(New(owned))
  {
  }

  lemma SafeSnoc(log: seq<Event>, owned: bool, e: Event)
    requires SafeLog(log, owned) && owned && !Closed(log)
    ensures SafeLog(log + [e], owned)
    ensures Closed(log + [e]) <==> e == CloseReturned(true)
  {
    assert forall i :: 0 <= i < |log| ==> (log + [e])[i] == log[i] && log[i] in log;
  }

  lemma OwnerKeeps(s: State, closes: bool)
    requires Inv(s)
    ensures Inv(OwnerNext(s, closes))
  {
    if s.closing.Entered? && s.owned { SafeSnoc(s.log, s.owned, CloseReturned(closes)); }
    var t := OwnerNext(s, closes);
    assert forall id :: At(t, id) == At(s, id);
  }

  lemma ThreadKeeps(s: State, id: nat)
    requires Inv(s)
    ensures Inv(ThreadNext(s, id))
  {
    if At(s, id) == Checked(true) {
      assert s.lock == Some(Thread(id));
      SafeSnoc(s.log, s.owned, InterruptIssued(id));
    }
    var t := ThreadNext(s, id);
    assert forall k :: k != id ==> At(t, k) == At(s, k);
  }

  lemma {:induction false} RunKeeps(s: State, steps: seq<Step>)
    requires Inv(s)
    ensures Inv(Run(s, steps))
    decreases |steps|
  {
    if steps != [] {
      match steps[0] {
        case OwnerStep(closes) => OwnerKeeps(s, closes);
        case ThreadStep(id) => ThreadKeeps(s, id);
      }
      RunKeeps(Next(s, steps[0]), steps[1..]);
    }
  }

  lemma {:induction false} OwnedStays(s: State, steps: seq<Step>)
    ensures Run(s, steps).owned == s.owned
    decreases |steps|
  {
    if steps != [] { OwnedStays(Next(s, steps[0]), steps[1..]); }
  }

  /**
   Over every interleaving: no interrupt on a closed handle, no second close of it, none of either
   on a handle that is not owned, and the owner's consistency check never fails.
   */
  lemma NeverInterruptsClosed(owned: bool, steps: seq<Step>)
    ensures SafeLog(Run(New(owned), steps).log, owned) && !Run(New(owned), steps).panicked
  {
    NewInv(owned);
    RunKeeps(New(owned), steps);
    OwnedStays(New(owned), steps);
  }

  /** What the lock is for: between looking at the shared handle and interrupting, a thread holds
      the lock, the handle it saw is still there and has not been closed, and no other thread or
      the owner is inside. */
  lemma CheckedMeansOpen(owned: bool, steps: seq<Step>, id: nat, other: nat)
    ensures var s := Run(New(owned), steps);
            At(s, id) == Checked(true) ==>
              && s.lock == Some(Thread(id)) && s.shared && !Closed(s.log)
              && !InOwner(s.closing) && (other != id ==> !InThread(At(s, other)))
  {
    NewInv(owned);
    RunKeeps(New(owned), steps);
    var s := Run(New(owned), steps);
    assert s.lock == Some(Thread(id)) <==> InThread(At(s, id));
    assert s.lock == Some(Thread(other)) <==> InThread(At(s, other));
  }

  // ---------------------------------------------------------------- what gets done

  /** While a thread is inside, nobody else moves it, closes the handle or takes the lock. */
  lemma NotDisturbed(s: State, step: Step, id: nat)
    requires Inv(s) && InThread(At(s, id)) && step != ThreadStep(id)
    ensures var t := Next(s, step);
            Inv(t) && At(t, id) == At(s, id) && t.shared == s.shared && t.lock == s.lock && t.log == s.log
  {
    assert s.lock == Some(Thread(id));
    match step {
      case OwnerStep(closes) => OwnerKeeps(s, closes);
      case ThreadStep(k) =>
        ThreadKeeps(s, k);
        assert s.lock == Some(Thread(k)) <==> InThread(At(s, k));
    }
  }

  lemma {:induction false} NotDisturbedRun(s: State, steps: seq<Step>, id: nat)
    requires Inv(s) && InThread(At(s, id)) && ThreadStep(id) !in steps
    ensures var t := Run(s, steps);
            Inv(t) && At(t, id) == At(s, id) && t.shared == s.shared && t.lock == s.lock && t.log == s.log
    decreases |steps|
  {
    if steps != [] {
      NotDisturbed(s, steps[0], id);
      NotDisturbedRun(Next(s, steps[0]), steps[1..], id);
    }
  }

  /**
   An interrupt is not lost: a thread that has taken the lock issues its interrupt, whatever others do
   meanwhile, exactly when the connection owns its handle and has not closed it; then it lets go.
   */
  lemma InterruptsIffOpen(owned: bool, steps: seq<Step>, id: nat, before: seq<Step>, between: seq<Step>)
    requires At(Run(New(owned), steps), id) == Inside && ThreadStep(id) !in before && ThreadStep(id) !in between
    ensures var s := Run(New(owned), steps);
            var looked := Next(Run(s, before), ThreadStep(id));
            var end := Next(Run(looked, between), ThreadStep(id));
            && end.log == s.log + (if owned && !Closed(s.log) then [InterruptIssued(id)] else [])
            && At(end, id) == Out && end.lock == None
  {
    NewInv(owned);
    RunKeeps(New(owned), steps);
    OwnedStays(New(owned), steps);
    var s := Run(New(owned), steps);
    assert s.lock == Some(Thread(id)) <==> InThread(At(s, id));
    NotDisturbedRun(s, before, id);
    var here := Run(s, before);
    ThreadKeeps(here, id);
    NotDisturbedRun(Next(here, ThreadStep(id)), between, id);
    assert s.log + [] == s.log;
  }

  /** A close that finds the lock free tells SQLite, and takes both copies of the handle away exactly
      when SQLite agrees; without ownership it only forgets its own. */
  lemma ClosesAlone(s: State, a: bool, b: bool, closes: bool, c: bool)
    requires Inv(s) && s.lock == None && s.db
    ensures var want := if s.closing.Wanting? then s else Next(s, OwnerStep(a));
            var called := Next(Next(want, OwnerStep(b)), OwnerStep(closes));
            var end := if s.owned then Next(called, OwnerStep(c)) else called;
            && end.log == s.log + (if s.owned then [CloseReturned(closes)] else [])
            && (end.db <==> s.owned && !closes) && (end.shared <==> s.owned && !closes)
            && end.closing == Idle && end.lock == None
  {
    assert s.log + [] == s.log;
  }
}
