/**
 What the cloud VFS code asks of the native library and the file system, as a log of events.
 `DropBegan` is no call: it marks where a connection that owns the VFS starts to be dropped.
 `Refused` is the failure of a call that has no event of its own.
 */
module VfsLog {
  import opened Common

  /** Handles and callback contexts are numbered; no number is used twice. */
  datatype Event =
    | DirectoryCreated
    | DirectoryRemoved
    | VfsCreated(handle: nat)
    | Registered(handle: nat, context: nat)
    | Configured(handle: nat)
    | DestroyCalled(target: Option<nat>, ok: bool)
    | AttachCalled(handle: nat, ok: bool)
    | InitializeCalled(handle: nat)
    | UploadCalled(handle: nat)
    | DetachCalled(handle: nat, ok: bool)
    | SessionAttachCalled(handle: nat, ok: bool)
    | SessionReleased(handle: nat)
    | SqlOpened(handle: nat)
    | SqlReleased
    | SqlCloseFailed
    | DropBegan
    | DatabaseSought(found: bool)
    | Refused
    | ContextFreed(context: nat)
    | ContextLeaked(context: nat)

  type Log = seq<Event>

  /** The handle an event passes to native code. */
  function Passed(e: Event): Option<nat> {
    match e
    case DestroyCalled(target, _) => target
    case Registered(h, _) => Some(h)
    case Configured(h) => Some(h)
    case AttachCalled(h, _) => Some(h)
    case InitializeCalled(h) => Some(h)
    case UploadCalled(h) => Some(h)
    case DetachCalled(h, _) => Some(h)
    case SessionAttachCalled(h, _) => Some(h)
    case SessionReleased(h) => Some(h)
    case SqlOpened(h) => Some(h)
    case _ => None
  }

  predicate Dead(log: Log, h: nat) {
    DestroyCalled(Some(h), true) in log
  }

  predicate Live(log: Log, h: nat) {
    VfsCreated(h) in log && !Dead(log, h)
  }

  /** A registered callback may run, with its context, until the VFS is destroyed. */
  ghost predicate MayCall(log: Log, context: nat) {
    exists h :: Registered(h, context) in log && !Dead(log, h)
  }

  /** What must hold of the past when an event happens. */
  ghost predicate SafeNext(past: Log, e: Event) {
    && (Passed(e).Some? ==> Live(past, Passed(e).value))
    && (e.ContextFreed? ==> !MayCall(past, e.context) && ContextFreed(e.context) !in past &&
                            ContextLeaked(e.context) !in past)
    && (e.ContextLeaked? ==> ContextFreed(e.context) !in past && ContextLeaked(e.context) !in past)
    && (e.Registered? ==> ContextFreed(e.context) !in past)
  }

  ghost predicate Safe(log: Log) {
    log != [] ==> Safe(log[..|log| - 1]) && SafeNext(log[..|log| - 1], Last(log))
  }

  lemma SafeSnoc(log: Log, e: Event)
    requires Safe(log) && SafeNext(log, e)
    ensures Safe(log + [e])
  {
    assert (log + [e])[..|log|] == log;
  }

  lemma {:induction false} SafePrefix(log: Log, n: nat)
    requires Safe(log) && n <= |log|
    ensures Safe(log[..n])
    ensures n < |log| ==> SafeNext(log[..n], log[n])
  {
    if n < |log| {
      var init := log[..|log| - 1];
      if n == |init| {
        assert log[n] == Last(log);
      } else {
        SafePrefix(init, n);
        assert init[..n] == log[..n];
      }
    } else {
      assert log[..n] == log;
    }
  }

  /** A freed context stays out of native reach for the rest of the run. */
  lemma {:induction false} FreedIsOutOfReach(log: Log, context: nat)
    requires Safe(log) && ContextFreed(context) in log
    ensures !MayCall(log, context)
  {
    var init, e := log[..|log| - 1], Last(log);
    assert log == init + [e];
    if ContextFreed(context) in init {
      FreedIsOutOfReach(init, context);
    } else {
      assert e == ContextFreed(context);
    }
    forall h | Registered(h, context) in log
      ensures Dead(log, h)
    {
      assert Registered(h, context) in init;
      assert Dead(init, h);
    }
  }

  /** No call, of any kind, passes a VFS whose destruction has succeeded. */
  lemma DestroyedIsNeverPassed(log: Log, i: nat, j: nat, h: nat)
    requires Safe(log) && i < j < |log| && log[i] == DestroyCalled(Some(h), true)
    ensures Passed(log[j]) != Some(h)
  {
    SafePrefix(log, j);
    assert log[..j][i] == log[i];
  }

  // ---------------------------------------------------------------- when the cache directory may go

  predicate Since(log: Log, since: nat, e: Event) {
    exists i :: since <= i < |log| && log[i] == e
  }

  lemma StillSince(past: Log, more: Log, since: nat, e: Event)
    requires past <= more && Since(past, since, e)
    ensures Since(more, since, e)
  {
    var i :| since <= i < |past| && past[i] == e;
    assert more[i] == e;
  }

  lemma SinceJoin(past: Log, log: Log, since: nat, e: Event)
    requires past <= log && !Since(past, since, e) && !Since(log, |past|, e)
    ensures !Since(log, since, e)
  {
    forall i | since <= i < |log|
      ensures log[i] != e
    {
      if i < |past| { assert past[i] != e; }
    }
  }

  /** The VFS is destroyed and, unless a drop has begun, what was attached to it was detached. */
  predicate MayRemove(past: Log, since: nat, h: nat, began: bool) {
    Dead(past, h) && (began ==> Since(past, since, DetachCalled(h, true)) || Since(past, since, DropBegan))
  }

  /** From position `n` on, the directory is removed only when it may. */
  predicate RemovalsOk(log: Log, n: nat, since: nat, h: nat, began: bool) {
    forall i :: n <= i < |log| && log[i].DirectoryRemoved? ==> MayRemove(log[..i], since, h, began)
  }

  lemma RemovalsJoin(mid: Log, log: Log, n: nat, since: nat, h: nat, began: bool)
    requires mid <= log && RemovalsOk(mid, n, since, h, began) && RemovalsOk(log, |mid|, since, h, began)
    ensures RemovalsOk(log, n, since, h, began)
  {
    forall i | n <= i < |log| && log[i].DirectoryRemoved?
      ensures MayRemove(log[..i], since, h, began)
    {
      if i < |mid| {
        assert mid[i] == log[i] && mid[..i] == log[..i];
      }
    }
  }

  predicate NoneRemoved(log: Log, n: nat) {
    forall i :: n <= i < |log| ==> !log[i].DirectoryRemoved?
  }

  /** One removal, after events among which there is none. */
  lemma OneRemoval(past: Log, log: Log, since: nat, h: nat, began: bool)
    requires past <= log && NoneRemoved(log, |past|) && MayRemove(log, since, h, began)
    ensures RemovalsOk(log + [DirectoryRemoved], |past|, since, h, began)
  {
    assert (log + [DirectoryRemoved])[..|log|] == log;
  }

  // ---------------------------------------------------------------- why an open fails, and what it makes

  /** A failure, or a missing database that may not be created. */
  predicate Reason(e: Event, create: bool) {
    || e.Refused?
    || ((e.AttachCalled? || e.DetachCalled? || e.SessionAttachCalled?) && !e.ok)
    || (e.DatabaseSought? && !e.found && !create)
  }

  predicate HasReason(log: Log, n: nat, create: bool) {
    exists i :: n <= i < |log| && Reason(log[i], create)
  }

  predicate NothingMade(log: Log, n: nat) {
    forall i :: n <= i < |log| ==> !log[i].InitializeCalled? && !log[i].UploadCalled?
  }

  /** From position `n` on: a failure has a reason, and nothing is made without permission. */
  predicate Trail(log: Log, n: nat, create: bool, ok: bool) {
    (!ok ==> HasReason(log, n, create)) && (!create ==> NothingMade(log, n))
  }

  lemma TrailJoin(mid: Log, log: Log, n: nat, create: bool, before: bool, ok: bool)
    requires n <= |mid| && mid <= log && Trail(mid, n, create, before) && Trail(log, |mid|, create, ok)
    ensures Trail(log, n, create, before && ok)
  {
    if !before {
      var i :| n <= i < |mid| && Reason(mid[i], create);
      assert log[i] == mid[i];
    }
    if !create {
      forall i | n <= i < |log|
        ensures !log[i].InitializeCalled? && !log[i].UploadCalled?
      {
        if i < |mid| { assert log[i] == mid[i]; }
      }
    }
  }

  /** The same for calls that never make anything, nor look for the database. */
  predicate Bare(log: Log, n: nat, ok: bool) {
    Trail(log, n, true, ok) && NothingMade(log, n)
  }

  lemma BareJoin(mid: Log, log: Log, n: nat, before: bool, ok: bool)
    requires n <= |mid| && mid <= log && Bare(mid, n, before) && Bare(log, |mid|, ok)
    ensures Bare(log, n, before && ok)
  {
    TrailJoin(mid, log, n, true, before, ok);
    TrailJoin(mid, log, n, false, true, true);
  }

  lemma BareTrail(log: Log, n: nat, create: bool, ok: bool)
    requires Bare(log, n, ok)
    ensures Trail(log, n, create, ok)
  {
    if !ok {
      var i :| n <= i < |log| && Reason(log[i], true);
      assert Reason(log[i], create);
    }
  }

  // ---------------------------------------------------------------- contexts still to be given up

  function PendingAfter(pending: set<nat>, e: Event): set<nat> {
    if e.Registered? then pending + {e.context}
    else if e.ContextFreed? || e.ContextLeaked? then pending - {e.context}
    else pending
  }

  /** Contexts that were registered and neither freed nor leaked since. */
  function Pending(log: Log): set<nat> {
    if log == [] then {} else PendingAfter(Pending(log[..|log| - 1]), Last(log))
  }

  lemma PendingSnoc(log: Log, e: Event)
    ensures Pending(log + [e]) == PendingAfter(Pending(log), e)
  {
    assert (log + [e])[..|log|] == log;
  }

  /** A registered context that is not pending was freed or leaked, and only registered ones are pending. */
  lemma {:induction false} PendingMeans(log: Log, context: nat)
    ensures context in Pending(log) ==> exists h :: Registered(h, context) in log
    ensures forall h :: Registered(h, context) in log && context !in Pending(log) ==>
              ContextFreed(context) in log || ContextLeaked(context) in log
  {
    if log != [] {
      var init, e := log[..|log| - 1], Last(log);
      PendingMeans(init, context);
      assert log == init + [e];
      if context in Pending(log) {
        if context in Pending(init) {
          var h :| Registered(h, context) in init;
          assert Registered(h, context) in log;
        } else {
          assert Registered(e.handle, context) in log;
        }
      }
    }
  }

  // ---------------------------------------------------------------- resources held

  /** What has been acquired and not yet had its release attempted. */
  datatype Holdings = Holdings(directory: bool, vfs: bool, attached: bool, session: bool, sql: bool)

  const NOTHING := Holdings(false, false, false, false, false)

  /**
   A second release, a release of something not held, or one in the wrong order has no result:
   SQL handles go first, then attachments, then the VFS, then the directory.
   */
  function HoldStep(h: Holdings, e: Event): Option<Holdings> {
    match e
    case DirectoryCreated => if h.directory then None else Some(h.(directory := true))
    case DirectoryRemoved => if h.directory && !h.vfs then Some(h.(directory := false)) else None
    case VfsCreated(_) => if h.vfs then None else Some(h.(vfs := true))
    case DestroyCalled(None, _) => Some(h)
    case DestroyCalled(Some(_), _) =>
      if h.vfs && !h.attached && !h.session && !h.sql then Some(h.(vfs := false)) else None
    case AttachCalled(_, ok) =>
      if !ok then Some(h) else if h.attached || h.session then None else Some(h.(attached := true))
    case DetachCalled(_, _) => if h.attached && !h.sql then Some(h.(attached := false)) else None
    case SessionAttachCalled(_, ok) =>
      if !ok then Some(h) else if h.attached || h.session then None else Some(h.(session := true))
    case SessionReleased(_) => if h.session && !h.sql then Some(h.(session := false)) else None
    case SqlOpened(_) => if h.sql then None else Some(h.(sql := true))
    case SqlReleased => if h.sql then Some(h.(sql := false)) else None
    case _ => Some(h)
  }

  function Held(log: Log): Option<Holdings> {
    if log == [] then Some(NOTHING)
    else
      var before := Held(log[..|log| - 1]);
      if before.None? then None else HoldStep(before.value, Last(log))
  }

  function After(held: Option<Holdings>, e: Event): Option<Holdings> {
    if held.None? then None else HoldStep(held.value, e)
  }

  lemma HeldSnoc(log: Log, e: Event)
    ensures Held(log + [e]) == After(Held(log), e)
  {
    assert (log + [e])[..|log|] == log;
  }

  // ---------------------------------------------------------------- what holding means, by counting

  datatype Resource = Directory | Vfs | Attachment | Session | Sql

  predicate Acquires(e: Event, r: Resource) {
    match r
    case Directory => e.DirectoryCreated?
    case Vfs => e.VfsCreated?
    case Attachment => e.AttachCalled? && e.ok
    case Session => e.SessionAttachCalled? && e.ok
    case Sql => e.SqlOpened?
  }

  predicate Releases(e: Event, r: Resource) {
    match r
    case Directory => e.DirectoryRemoved?
    case Vfs => e.DestroyCalled? && e.target.Some?
    case Attachment => e.DetachCalled?
    case Session => e.SessionReleased?
    case Sql => e.SqlReleased?
  }

  function Acquired(log: Log, r: Resource): nat {
    if log == [] then 0 else Acquired(log[..|log| - 1], r) + if Acquires(Last(log), r) then 1 else 0
  }

  function Released(log: Log, r: Resource): nat {
    if log == [] then 0 else Released(log[..|log| - 1], r) + if Releases(Last(log), r) then 1 else 0
  }

  predicate Has(h: Holdings, r: Resource) {
    match r
    case Directory => h.directory
    case Vfs => h.vfs
    case Attachment => h.attached
    case Session => h.session
    case Sql => h.sql
  }

  /** Everything acquired is held or has had exactly one release attempt. */
  lemma {:induction false} HeldCounts(log: Log, r: Resource)
    requires Held(log).Some?
    ensures Acquired(log, r) == Released(log, r) + if Has(Held(log).value, r) then 1 else 0
  {
    if log != [] { HeldCounts(log[..|log| - 1], r); }
  }

  lemma {:induction false} HeldPrefix(log: Log, n: nat)
    requires Held(log).Some? && n <= |log|
    ensures Held(log[..n]).Some?
    ensures n < |log| ==> HoldStep(Held(log[..n]).value, log[n]).Some?
  {
    var init := if log == [] then [] else log[..|log| - 1];
    if n < |init| {
      HeldPrefix(init, n);
      assert init[..n] == log[..n];
    } else if n == |init| {
      assert log[..n] == init;
    } else {
      assert log[..n] == log;
    }
  }

  /** A directory goes only after the teardown of its VFS was attempted. */
  lemma RemovedAfterTeardown(log: Log, i: nat)
    requires Held(log).Some? && i < |log| && log[i].DirectoryRemoved?
    ensures Acquired(log[..i], Vfs) == Released(log[..i], Vfs)
  {
    HeldPrefix(log, i);
    HeldCounts(log[..i], Vfs);
  }

  /** The VFS goes only after every database handle and attachment on it was let go. */
  lemma DestroyedAfterClients(log: Log, i: nat, r: Resource)
    requires Held(log).Some? && i < |log| && r in {Attachment, Session, Sql}
    requires log[i].DestroyCalled? && log[i].target.Some?
    ensures Acquired(log[..i], r) == Released(log[..i], r)
  {
    HeldPrefix(log, i);
    HeldCounts(log[..i], r);
  }
}
