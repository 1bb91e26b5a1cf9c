/** Opening a connection from a cloud URI, and whole lives of such connections. */
module VfsOpen {
  import opened Common
  import opened VfsLog
  import opened VfsLifecycle

  /** Events that neither end a VFS nor touch a callback context. */
  predicate Quiet(e: Event) {
    !(e.VfsCreated? || e.Registered? || e.DestroyCalled? || e.ContextFreed? || e.ContextLeaked?)
  }

  /** A usable VFS: valid and not destroyed. */
  ghost predicate Usable(vfs: BlockCacheVfs, native: Native)
    reads vfs, native
  {
    native.Valid() && vfs.Valid(native) && vfs.fs.Some?
  }

  /** One call that leaves the VFS alive. */
  method Call(native: Native, vfs: BlockCacheVfs, e: Event)
    requires Usable(vfs, native) && Quiet(e) && (Passed(e).Some? ==> Passed(e) == vfs.fs)
    modifies native
    ensures Usable(vfs, native) && old(native.log) <= native.log && native.held == After(old(native.held), e)
    ensures native.log == old(native.log) + [e]
    ensures native.pending == old(native.pending)
  {
    native.Record(e);
  }

  const VFS := Holdings(true, true, false, false, false)

  /** A failure that has no event of its own. */
  method Refuse(native: Native, vfs: BlockCacheVfs, ghost start: nat, ghost create: bool)
    requires Usable(vfs, native) && start <= |native.log| && Trail(native.log, start, create, true)
    modifies native
    ensures Usable(vfs, native) && old(native.log) <= native.log && native.held == old(native.held)
    ensures native.pending == old(native.pending) && Trail(native.log, start, create, false)
  {
    Call(native, vfs, Refused);
    assert Last(native.log) == Refused && Reason(native.log[|native.log| - 1], create);
  }

  /** A call whose failure, if any, is a reason, and which makes nothing. */
  method Note(native: Native, vfs: BlockCacheVfs, e: Event, ghost start: nat, ghost create: bool)
    requires Usable(vfs, native) && Quiet(e) && (Passed(e).Some? ==> Passed(e) == vfs.fs)
    requires start <= |native.log| && Trail(native.log, start, create, true)
    requires create || !(e.InitializeCalled? || e.UploadCalled?)
    modifies native
    ensures Usable(vfs, native) && native.log == old(native.log) + [e] && native.held == After(old(native.held), e)
    ensures native.pending == old(native.pending) && old(native.log) <= native.log
    ensures Trail(native.log, start, create, !Reason(e, create)) && Trail(native.log, start, create, true)
  {
    Call(native, vfs, e);
    assert Last(native.log) == e && native.log[|native.log| - 1] == e;
  }

  /** Opening a database file on the VFS; registering its virtual table can still fail. */
  method OpenSql(native: Native, vfs: BlockCacheVfs, ghost start: nat, ghost create: bool) returns (ok: bool)
    requires Usable(vfs, native) && native.held.Some? && !native.held.value.sql
    requires start <= |native.log| && Trail(native.log, start, create, true)
    modifies native
    ensures Usable(vfs, native) && old(native.log) <= native.log
    ensures native.pending == old(native.pending) && Trail(native.log, start, create, ok)
    ensures native.held == if ok then Some(old(native.held).value.(sql := true)) else old(native.held)
    ensures ok ==> native.log == old(native.log) + [SqlOpened(vfs.fs.value)]
  {
    ok := *;
    if ok {
      Note(native, vfs, SqlOpened(vfs.fs.value), start, create);
      ok := *;
      if ok { return; }
      Note(native, vfs, SqlReleased, start, create);
    }
    Refuse(native, vfs, start, create);
  }

  /** Closing it; when the close fails the handle is dropped instead. */
  method CloseSql(native: Native, vfs: BlockCacheVfs, ghost start: nat, ghost create: bool) returns (ok: bool)
    requires Usable(vfs, native) && native.held.Some? && native.held.value.sql
    requires start <= |native.log| && Trail(native.log, start, create, true)
    modifies native
    ensures Usable(vfs, native) && old(native.log) <= native.log
    ensures native.pending == old(native.pending) && Trail(native.log, start, create, ok)
    ensures native.held == Some(old(native.held).value.(sql := false))
  {
    Note(native, vfs, SqlReleased, start, create);
    ok := *;
    if !ok { Refuse(native, vfs, start, create); }
  }

  /** Opens the control handle, asks whether the database is there, and closes it again. */
  method Seek(native: Native, vfs: BlockCacheVfs, ghost start: nat, ghost create: bool)
    returns (ok: bool, found: bool)
    requires Usable(vfs, native) && native.held.Some? && !native.held.value.sql
    requires start <= |native.log| && Trail(native.log, start, create, true)
    modifies native
    ensures Usable(vfs, native) && old(native.log) <= native.log && native.held == old(native.held)
    ensures native.pending == old(native.pending)
    ensures Trail(native.log, start, create, ok && (found || create))
    ensures ok ==> Since(native.log, |old(native.log)|, DatabaseSought(found))
  {
    found := false;
    ok := OpenSql(native, vfs, start, create);
    if !ok { return; }
    ok, found := Query(native, vfs, start, create);
    ghost var asked := native.log;
    var closed := CloseSql(native, vfs, |native.log|, create);
    TrailJoin(asked, native.log, start, create, ok && (found || create), closed);
    if ok { StillSince(asked, native.log, |old(native.log)|, DatabaseSought(found)); }
    ok := ok && closed;
  }

  /** Asks for the database; the question itself may fail. */
  method Query(native: Native, vfs: BlockCacheVfs, ghost start: nat, ghost create: bool) returns (ok: bool, found: bool)
    requires Usable(vfs, native) && start <= |native.log| && Trail(native.log, start, create, true)
    modifies native
    ensures Usable(vfs, native) && old(native.log) <= native.log && native.held == old(native.held)
    ensures native.pending == old(native.pending)
    ensures Trail(native.log, start, create, ok && (found || create))
    ensures ok ==> native.log == old(native.log) + [DatabaseSought(found)]
    ensures ok ==> forall n: nat :: n <= |old(native.log)| ==> Since(native.log, n, DatabaseSought(found))
  {
    ok, found := *, *;
    if ok {
      Note(native, vfs, DatabaseSought(found), start, create);
      assert native.log[|old(native.log)|] == DatabaseSought(found);
    } else {
      Refuse(native, vfs, start, create);
    }
  }

  /** Attach; if the container is missing and may be created, create it and attach again. */
  method AttachCreating(native: Native, vfs: BlockCacheVfs, create: bool) returns (ok: bool)
    requires Usable(vfs, native) && native.held == Some(VFS)
    modifies native
    ensures Usable(vfs, native) && old(native.log) <= native.log
    ensures native.pending == old(native.pending)
    ensures native.held == Some(if ok then VFS.(attached := true) else VFS)
    ensures Trail(native.log, |old(native.log)|, create, ok)
    ensures ok ==> Last(native.log) == AttachCalled(vfs.fs.value, true)
  {
    ghost var start := |native.log|;
    ok := *;
    Note(native, vfs, AttachCalled(vfs.fs.value, ok), start, create);
    if ok { return; }
    var missing: bool := *;
    if !create || !missing { return; }
    Note(native, vfs, InitializeCalled(vfs.fs.value), start, create);
    ok := *;
    Note(native, vfs, AttachCalled(vfs.fs.value, ok), start, create);
  }

  /** Makes sure the database exists in the attached container. */
  method EnsureDatabase(native: Native, vfs: BlockCacheVfs, create: bool) returns (ok: bool)
    requires Usable(vfs, native) && native.held == Some(VFS.(attached := true))
    modifies native
    ensures Usable(vfs, native) && old(native.log) <= native.log && native.held == old(native.held)
    ensures native.pending == old(native.pending)
    ensures Trail(native.log, |old(native.log)|, create, ok)
    ensures ok ==> Provided(native.log, |old(native.log)|, vfs.fs.value)
  {
    var found: bool;
    ok, found := Seek(native, vfs, |native.log|, create);
    if !ok { return; }
    if found { return true; }
    if !create { return false; }
    ghost var sought := native.log;
    ok := MakeDatabase(native, vfs, |old(native.log)|);
    if ok { StillProvided(native.log, native.log, |old(native.log)|, |sought|, vfs.fs.value); }
  }

  /** Makes an empty database and uploads it. */
  method MakeDatabase(native: Native, vfs: BlockCacheVfs, ghost start: nat) returns (ok: bool)
    requires Usable(vfs, native) && native.held == Some(VFS.(attached := true))
    requires start <= |native.log| && Trail(native.log, start, true, true)
    modifies native
    ensures Usable(vfs, native) && old(native.log) <= native.log && native.held == old(native.held)
    ensures native.pending == old(native.pending) && Trail(native.log, start, true, ok)
    ensures ok ==> Since(native.log, |old(native.log)|, UploadCalled(vfs.fs.value))
  {
    ok := OpenSql(native, vfs, start, true);
    if !ok { return; }
    var initialized: bool := *;
    ok := CloseSql(native, vfs, start, true);
    if !ok { return; }
    if initialized {
      Note(native, vfs, UploadCalled(vfs.fs.value), start, true);
      assert Last(native.log) == UploadCalled(vfs.fs.value);
      ok := *;
      if ok { return; }
    }
    Refuse(native, vfs, start, true);
    ok := false;
  }

  /** A session first attaches plainly to create the database, and always detaches again. */
  method Bootstrap(native: Native, vfs: BlockCacheVfs, create: bool) returns (ok: bool)
    requires Usable(vfs, native) && native.held == Some(VFS)
    modifies native
    ensures Usable(vfs, native) && old(native.log) <= native.log && native.held == old(native.held)
    ensures native.pending == old(native.pending)
    ensures Trail(native.log, |old(native.log)|, create, ok)
    ensures ok ==> Provided(native.log, |old(native.log)|, vfs.fs.value)
  {
    ok := AttachCreating(native, vfs, create);
    if !ok { return; }
    ghost var attached := native.log;
    var ready := EnsureDatabase(native, vfs, create);
    ghost var ensured := native.log;
    TrailJoin(attached, ensured, |old(native.log)|, create, true, ready);
    var detached := DetachAgain(native, vfs, create);
    TrailJoin(ensured, native.log, |old(native.log)|, create, ready, detached);
    if ready { StillProvided(ensured, native.log, |old(native.log)|, |attached|, vfs.fs.value); }
    ok := ready && detached;
  }

  method DetachAgain(native: Native, vfs: BlockCacheVfs, create: bool) returns (ok: bool)
    requires Usable(vfs, native) && native.held == Some(VFS.(attached := true))
    modifies native
    ensures Usable(vfs, native) && old(native.log) <= native.log && native.held == Some(VFS)
    ensures native.pending == old(native.pending) && Trail(native.log, |old(native.log)|, create, ok)
  {
    ok := *;
    Note(native, vfs, DetachCalled(vfs.fs.value, ok), |native.log|, create);
  }

  /** The database was found, or was uploaded. */
  predicate Provided(log: Log, n: nat, fs: nat) {
    Since(log, n, DatabaseSought(true)) || Since(log, n, UploadCalled(fs))
  }

  lemma StillProvided(mid: Log, log: Log, n: nat, since: nat, fs: nat)
    requires mid <= log && n <= since && Provided(mid, since, fs)
    ensures Provided(log, n, fs)
  {
    var e := if Since(mid, since, DatabaseSought(true)) then DatabaseSought(true) else UploadCalled(fs);
    StillSince(mid, log, since, e);
    Earlier(log, n, since, e);
  }

  lemma Earlier(log: Log, n: nat, since: nat, e: Event)
    requires n <= since && Since(log, since, e)
    ensures Since(log, n, e)
  {
  }

  /** Lets go of whatever is attached, whether or not native code agrees. */
  method LetGo(native: Native, vfs: BlockCacheVfs, attached: bool, session: bool)
    requires Usable(vfs, native) && !(attached && session)
    requires native.held == Some(VFS.(attached := attached, session := session))
    requires vfs.owners == if session then 2 else 1
    modifies native, vfs
    ensures Usable(vfs, native) && old(native.log) <= native.log && native.held == Some(VFS) && vfs.owners == 1
    ensures vfs.fs == old(vfs.fs) && vfs.auth == old(vfs.auth) && native.pending == old(native.pending)
    ensures NothingMade(native.log, |old(native.log)|)
  {
    if session {
      Call(native, vfs, SessionReleased(vfs.fs.value));
      vfs.Release(native);
    }
    if attached {
      var detached: bool := *;
      Call(native, vfs, DetachCalled(vfs.fs.value, detached));
    }
  }

  /** What a failed open still does once the VFS exists: each holding is let go, in order. */
  method Abandon(native: Native, vfs: BlockCacheVfs, attached: bool, session: bool)
    requires Usable(vfs, native) && !(attached && session)
    requires native.held == Some(VFS.(attached := attached, session := session))
    requires vfs.owners == if session then 2 else 1
    modifies native, vfs
    ensures native.Valid() && old(native.log) <= native.log && native.held == Some(NOTHING)
    ensures Settled(native.log, old(vfs.auth).value, old(vfs.fs).value)
    ensures native.pending == old(native.pending) - Context(old(vfs.auth))
    ensures NothingMade(native.log, |old(native.log)|)
  {
    LetGo(native, vfs, attached, session);
    vfs.Release(native);
    native.Record(DirectoryRemoved);
  }

  lemma FreedStays(before: Log, after: Log, context: nat, h: nat)
    requires before <= after && Freed(before, context, h)
    ensures Freed(after, context, h)
  {
    assert forall e :: e in before ==> e in after;
  }

  /** An open connection with its cloud resources. */
  class CloudConnection {
    var sqlOpen: bool
    var cbs: ConnectionVfs?

    ghost predicate Valid(native: Native)
      reads this, native, cbs, if cbs == null then null else cbs.vfs
    {
      native.Valid() && (cbs != null ==> cbs.Valid(native))
    }

    constructor (cbs: ConnectionVfs)
      ensures this.cbs == cbs && sqlOpen
    {
      this.cbs, sqlOpen := cbs, true;
    }

    /** SQLite's own close: it may fail, and then the handle stays open. */
    method CloseSqlite(native: Native) returns (ok: bool)
      requires Valid(native)
      modifies this, native
      ensures Valid(native) && cbs == old(cbs) && native.pending == old(native.pending)
      ensures ok ==> !sqlOpen && native.log == old(native.log) + if old(sqlOpen) then [SqlReleased] else []
      ensures !ok ==> sqlOpen && old(sqlOpen) && native.log == old(native.log) + [SqlCloseFailed]
    {
      if !sqlOpen { return true; }
      ok := *;
      native.Record(if ok then SqlReleased else SqlCloseFailed);
      if cbs != null {
        AccountKept(old(native.log), native.log, cbs.since, cbs.handle, cbs.began, cbs.attached, cbs.vfs.fs);
      }
      sqlOpen := !ok;
    }

    /**
     Close SQLite first; only then the cloud resources. A failure leaves both for another try, with
     the directory in place, and is one of SQLite or one of the cloud resources. However often it
     was tried, success means the directory was removed after the destroy and the detach succeeded.
     */
    method Close(native: Native) returns (r: Outcome)
      requires Valid(native)
      modifies this, native, cbs, if cbs == null then null else cbs.vfs
      ensures Valid(native) && old(native.log) <= native.log
      ensures sqlOpen ==> r.Err? && old(sqlOpen) && native.log == old(native.log) + [SqlCloseFailed]
      ensures old(sqlOpen) && !sqlOpen ==> |native.log| > |old(native.log)| &&
                                           native.log[|old(native.log)|] == SqlReleased
      ensures r.Ok? ==> !sqlOpen && cbs == null
      ensures r.Err? ==> cbs == old(cbs) && NothingGone(native.log, |old(native.log)|)
      ensures r.Err? ==> !Since(native.log, |old(native.log)|, DropBegan)
      ensures r.Err? && cbs != null ==> Shares(cbs) == old(Shares(cbs)) && cbs.vfs.fs == old(cbs.vfs.fs) &&
                                        cbs.vfs.auth == old(cbs.vfs.auth)
      ensures r.Ok? && old(cbs) != null ==> old(cbs).vfs.owners == 0 && old(Shares(cbs)) == 1
      ensures r.Ok? && old(cbs) != null && old(cbs.vfs.fs).Some? ==>
                Settled(native.log, old(cbs.vfs.auth).value, old(cbs.vfs.fs).value)
      ensures r.Ok? && old(cbs) != null ==> OrderlyClosed(native.log, old(cbs))
      ensures old(cbs) != null ==>
                RemovalsOk(native.log, |old(native.log)|, old(cbs).since, old(cbs).handle, old(cbs).began)
      ensures native.pending == if r.Err? || old(cbs) == null then old(native.pending)
                                else old(native.pending) - Context(old(cbs.vfs.auth))
    {
      var ok := CloseSqlite(native);
      if !ok { return Err; }
      if cbs == null { return Ok; }
      ghost var released := native.log;
      r := CloseCloud(native, cbs);
      RemovalsJoin(released, native.log, |old(native.log)|, cbs.since, cbs.handle, cbs.began);
      if r.Ok? { cbs := null; } else { SinceJoin(released, native.log, |old(native.log)|, DropBegan); }
    }

    /** The directory was removed at a time when destroy and detach had succeeded. */
    ghost static predicate OrderlyClosed(log: Log, cbs: ConnectionVfs) {
      exists i :: 0 <= i < |log| && log[i] == DirectoryRemoved && Dead(log[..i], cbs.handle) &&
                  (cbs.began ==> Since(log[..i], cbs.since, DetachCalled(cbs.handle, true)))
    }

    /** Closes the cloud resources and, if that worked, drops them, which closes once more. */
    static method CloseCloud(native: Native, cbs: ConnectionVfs) returns (r: Outcome)
      requires native.Valid() && cbs.Valid(native)
      modifies native, cbs, cbs.vfs
      ensures native.Valid() && old(native.log) <= native.log
      ensures r.Err? ==> cbs.Valid(native) && Shares(cbs) == old(Shares(cbs)) && cbs.vfs.fs == old(cbs.vfs.fs) &&
                         cbs.vfs.auth == old(cbs.vfs.auth)
      ensures r.Err? ==> NothingGone(native.log, |old(native.log)|) && !Since(native.log, |old(native.log)|, DropBegan)
      ensures r.Ok? ==> cbs.vfs.owners == 0 && old(Shares(cbs)) == 1
      ensures r.Ok? && old(cbs.vfs.fs).Some? ==> Freed(native.log, old(cbs.vfs.auth).value, old(cbs.vfs.fs).value)
      ensures r.Ok? ==> OrderlyClosed(native.log, cbs)
      ensures RemovalsOk(native.log, |old(native.log)|, cbs.since, cbs.handle, cbs.began)
      ensures native.pending == if r.Err? then old(native.pending) else old(native.pending) - Context(old(cbs.vfs.auth))
    {
      r := cbs.Close(native);
      if r.Err? { return; }
      ghost var closed := native.log;
      cbs.Drop(native);
      if old(cbs.vfs.fs).Some? { FreedStays(closed, native.log, old(cbs.vfs.auth).value, old(cbs.vfs.fs).value); }
      ClosedInOrder(closed, native.log, cbs);
      RemovalsJoin(closed, native.log, |old(native.log)|, cbs.since, cbs.handle, cbs.began);
    }

    static lemma ClosedInOrder(closed: Log, log: Log, cbs: ConnectionVfs)
      requires closed != [] && closed <= log && Last(closed) == DirectoryRemoved && Dead(closed, cbs.handle)
      requires cbs.began ==> Since(closed, cbs.since, DetachCalled(cbs.handle, true))
      ensures OrderlyClosed(log, cbs)
    {
      var n := |closed| - 1;
      assert log[n] == closed[n] && log[..n] == closed[..n] && closed == closed[..n] + [DirectoryRemoved];
      if cbs.began {
        var i :| cbs.since <= i < |closed| && closed[i] == DetachCalled(cbs.handle, true);
        assert log[..n][i] == closed[i];
      }
    }

    static ghost function Shares(cbs: ConnectionVfs): int
      reads cbs, cbs.vfs
    {
      cbs.vfs.owners - if cbs.session then 1 else 0
    }

    /** Dropping: SQLite's handle goes first, then the cloud resources, whatever fails. */
    method Drop(native: Native)
      requires Valid(native)
      modifies this, native, cbs, if cbs == null then null else cbs.vfs
      ensures native.Valid() && old(native.log) <= native.log && cbs == null && !sqlOpen
      ensures old(cbs) != null ==> old(cbs).vfs.owners == old(cbs.vfs.owners) - if old(cbs.session) then 2 else 1
      ensures old(cbs) != null && old(cbs).vfs.owners > 0 ==>
                old(cbs).vfs.Valid(native) && old(cbs).vfs.fs == old(cbs.vfs.fs) &&
                old(cbs).vfs.auth == old(cbs.vfs.auth)
      ensures old(cbs) != null && old(cbs).vfs.owners == 0 && old(cbs.vfs.fs).Some? ==>
                Settled(native.log, old(cbs.vfs.auth).value, old(cbs.vfs.fs).value)
      ensures old(cbs) != null ==>
                RemovalsOk(native.log, |old(native.log)|, old(cbs).since, old(cbs).handle, old(cbs).began)
      ensures native.pending == if old(cbs) == null || old(cbs).vfs.owners > 0 then old(native.pending)
                                else old(native.pending) - Context(old(cbs.vfs.auth))
    {
      DropSqlite(native);
      if cbs != null {
        ghost var released := native.log;
        cbs.Drop(native);
        RemovalsJoin(released, native.log, |old(native.log)|, cbs.since, cbs.handle, cbs.began);
        cbs := null;
      }
    }

    method DropSqlite(native: Native)
      requires Valid(native)
      modifies this, native
      ensures Valid(native) && cbs == old(cbs) && native.pending == old(native.pending) && !sqlOpen
      ensures native.log == old(native.log) + if old(sqlOpen) then [SqlReleased] else []
    {
      if sqlOpen {
        native.Record(SqlReleased);
        if cbs != null {
          AccountKept(old(native.log), native.log, cbs.since, cbs.handle, cbs.began, cbs.attached, cbs.vfs.fs);
        }
        sqlOpen := false;
      }
    }
  }

  /** Another attachment on the VFS. */
  method MakeShare(native: Native, vfs: BlockCacheVfs) returns (ok: bool)
    requires Usable(vfs, native)
    modifies native, vfs
    ensures Usable(vfs, native) && vfs.fs == old(vfs.fs) && vfs.auth == old(vfs.auth)
    ensures native.log == old(native.log) + [SessionAttachCalled(vfs.fs.value, ok)] &&
            native.pending == old(native.pending)
    ensures vfs.owners == old(vfs.owners) + if ok then 1 else 0
    ensures native.held == After(old(native.held), SessionAttachCalled(vfs.fs.value, ok))
  {
    ok := *;
    Call(native, vfs, SessionAttachCalled(vfs.fs.value, ok));
    if ok { vfs.owners := vfs.owners + 1; }
  }

  /** Attaches plainly, or as a session after its database was made. */
  method AttachFor(native: Native, vfs: BlockCacheVfs, hasSession: bool, create: bool) returns (ok: bool)
    requires Usable(vfs, native) && native.held == Some(VFS) && vfs.owners == 1
    modifies native, vfs
    ensures Usable(vfs, native) && old(native.log) <= native.log
    ensures vfs.fs == old(vfs.fs) && vfs.auth == old(vfs.auth) && native.pending == old(native.pending)
    ensures native.held == Some(if ok then VFS.(attached := !hasSession, session := hasSession) else VFS)
    ensures vfs.owners == if ok && hasSession then 2 else 1
    ensures Trail(native.log, |old(native.log)|, create, ok)
  {
    if hasSession {
      ok := Bootstrap(native, vfs, create);
      if ok {
        ghost var ready := native.log;
        ok := MakeShare(native, vfs);
        assert native.log[|ready|] == SessionAttachCalled(vfs.fs.value, ok);
        TrailJoin(ready, native.log, |old(native.log)|, create, true, ok);
      }
    } else {
      ok := AttachCreating(native, vfs, create);
    }
  }

  /** The part of the open after the VFS exists: attach, look, open the database. */
  method OpenOn(native: Native, vfs: BlockCacheVfs, hasSession: bool, create: bool) returns (r: CloudConnection?)
    requires Usable(vfs, native) && native.held == Some(VFS) && vfs.owners == 1
    modifies native, vfs
    ensures native.Valid() && old(native.log) <= native.log
    ensures r == null ==> native.held == Some(NOTHING) && native.pending == old(native.pending) - Context(old(vfs.auth))
    ensures r != null ==> vfs.fs == old(vfs.fs) && vfs.auth == old(vfs.auth) && native.pending == old(native.pending)
    ensures r != null ==> fresh(r) && r.Valid(native) && r.sqlOpen && r.cbs != null && fresh(r.cbs) && r.cbs.vfs == vfs
    ensures r != null ==> r.cbs.session == hasSession && r.cbs.attached == !hasSession &&
                          vfs.owners == if hasSession then 2 else 1
    ensures r != null ==> r.cbs.began == !hasSession && r.cbs.since == |native.log|
    ensures Trail(native.log, |old(native.log)|, create, r != null)
    ensures r != null && !create ==> Since(native.log, |old(native.log)|, DatabaseSought(true))
    ensures r != null ==> native.held == Some(VFS.(attached := !hasSession, session := hasSession, sql := true))
  {
    var ok := AttachFor(native, vfs, hasSession, create);
    ghost var tried := native.log;
    if !ok {
      Abandon(native, vfs, false, false);
      TrailJoin(tried, native.log, |old(native.log)|, create, false, true);
      return null;
    }
    ok := LookAndOpen(native, vfs, create);
    ghost var looked := native.log;
    TrailJoin(tried, looked, |old(native.log)|, create, true, ok);
    if !ok {
      Abandon(native, vfs, !hasSession, hasSession);
      TrailJoin(looked, native.log, |old(native.log)|, create, false, true);
      return null;
    }
    if !create { Earlier(native.log, |old(native.log)|, |tried|, DatabaseSought(true)); }
    var cbs := new ConnectionVfs(native, vfs, !hasSession, hasSession);
    r := new CloudConnection(cbs);
  }

  /** The control handle: does the database exist, or may it be created? Then the database itself. */
  method LookAndOpen(native: Native, vfs: BlockCacheVfs, create: bool) returns (ok: bool)
    requires Usable(vfs, native) && native.held.Some? && !native.held.value.sql
    modifies native
    ensures Usable(vfs, native) && old(native.log) <= native.log && native.pending == old(native.pending)
    ensures native.held == if ok then Some(old(native.held).value.(sql := true)) else old(native.held)
    ensures Trail(native.log, |old(native.log)|, create, ok)
    ensures ok && !create ==> Since(native.log, |old(native.log)|, DatabaseSought(true))
  {
    var found: bool;
    ok, found := Seek(native, vfs, |native.log|, create);
    if !ok || !(found || create) { return false; }
    ghost var sought := native.log;
    ok := OpenSql(native, vfs, |old(native.log)|, create);
    StillSince(sought, native.log, |old(native.log)|, DatabaseSought(found));
  }

  /**
   The whole open. `checked` stands for the checks on the URI, the session and the flags, which
   come before anything is acquired. On failure nothing is held any more, and something was refused;
   on success exactly what the connection owns is. Without permission to create, nothing is created,
   and success means that the database was there.
   */
  method Open(native: Native, checked: bool, options: BuildOptions, hasSession: bool, create: bool)
    returns (r: CloudConnection?)
    requires native.Valid() && native.held == Some(NOTHING)
    modifies native
    ensures native.Valid() && old(native.log) <= native.log
    ensures r == null ==> native.held == Some(NOTHING) && native.pending == old(native.pending)
    ensures r != null ==> fresh(r) && r.Valid(native) && r.cbs != null && fresh(r.cbs) && fresh(r.cbs.vfs)
    ensures r != null ==> native.held == Some(Holdings(true, true, r.cbs.attached, r.cbs.session, r.sqlOpen))
    ensures r != null ==> r.sqlOpen && r.cbs.session == hasSession && r.cbs.attached == !hasSession
    ensures r != null ==> r.cbs.began == !hasSession && r.cbs.since == |native.log|
    ensures r != null ==> r.cbs.vfs.fs.Some? && r.cbs.vfs.owners == if hasSession then 2 else 1
    ensures r != null ==> var c := r.cbs.vfs.auth.value;
                          c !in old(native.pending) && native.pending == old(native.pending) + {c}
    ensures if !checked then r == null && native.log == old(native.log)
            else Trail(native.log, |old(native.log)|, create, r != null)
    ensures r != null && !create ==> Since(native.log, |old(native.log)|, DatabaseSought(true))
  {
    if !checked { return null; }
    var made := MakeDirectory(native);
    if !made {
      BareTrail(native.log, |old(native.log)|, create, false);
      return null;
    }
    ghost var before := native.log;
    var vfs := BlockCacheVfs.Build(native, options);
    ghost var built := native.log;
    BareJoin(before, built, |old(native.log)|, true, vfs != null);
    if vfs == null {
      native.Record(DirectoryRemoved);
      BareJoin(built, native.log, |old(native.log)|, false, true);
      BareTrail(native.log, |old(native.log)|, create, false);
      return null;
    }
    BareTrail(built, |old(native.log)|, create, true);
    r := OpenOn(native, vfs, hasSession, create);
    TrailJoin(built, native.log, |old(native.log)|, create, true, r != null);
    if r != null && !create { Earlier(native.log, |old(native.log)|, |built|, DatabaseSought(true)); }
  }

  /** The cache directory; it is removed again if the rest of the preparation fails. */
  method MakeDirectory(native: Native) returns (ok: bool)
    requires native.Valid() && native.held == Some(NOTHING)
    modifies native
    ensures native.Valid() && old(native.log) <= native.log && native.pending == old(native.pending)
    ensures native.held == Some(if ok then NOTHING.(directory := true) else NOTHING)
    ensures Bare(native.log, |old(native.log)|, ok)
  {
    ghost var start := |native.log|;
    ok := *;
    if ok {
      NoteBare(native, DirectoryCreated, start);
      ok := *;
      if ok { return; }
      NoteBare(native, DirectoryRemoved, start);
    }
    NoteBare(native, Refused, start);
  }

  method NoteBare(native: Native, e: Event, ghost start: nat)
    requires native.Valid() && (e.DirectoryCreated? || e.DirectoryRemoved? || e.Refused?)
    requires start <= |native.log| && Bare(native.log, start, true)
    modifies native
    ensures native.Valid() && old(native.log) <= native.log && native.pending == old(native.pending)
    ensures native.held == After(old(native.held), e) && Bare(native.log, start, !e.Refused?)
  {
    native.Record(e);
    assert native.log[|old(native.log)|] == e;
  }

  // ---------------------------------------------------------------- whole lives

  /** What can happen to an open connection. Shares are further owners of its VFS. */
  datatype Happening = TryClose | Share | Unshare | DropConnection

  /** A share is a session attachment of its own: released natively, then given up. */
  method GiveUpShare(native: Native, vfs: BlockCacheVfs)
    requires Usable(vfs, native) && vfs.owners > 0
    modifies native, vfs
    ensures native.Valid() && vfs.owners == old(vfs.owners) - 1
    ensures old(native.log) <= native.log && NoneRemoved(native.log, |old(native.log)|)
    ensures !Since(native.log, |old(native.log)|, DropBegan)
    ensures vfs.owners > 0 ==> Usable(vfs, native) && vfs.fs == old(vfs.fs) && vfs.auth == old(vfs.auth)
    ensures vfs.owners == 0 ==> Settled(native.log, old(vfs.auth).value, old(vfs.fs).value)
    ensures native.pending == if vfs.owners > 0 then old(native.pending)
                              else old(native.pending) - Context(old(vfs.auth))
  {
    Call(native, vfs, SessionReleased(vfs.fs.value));
    vfs.Release(native);
  }

  /** What stays the same over the life of a connection: its VFS and context, where in the log it
      began and whether attached, and the other contexts. */
  datatype Life = Life(handle: nat, context: nat, since: nat, began: bool, others: set<nat>)

  /** The owners are accounted for, and the VFS is there as long as one of them is. */
  ghost predicate Alive(native: Native, c: CloudConnection, vfs: BlockCacheVfs, shares: nat, life: Life)
    reads native, c, vfs, c.cbs, if c.cbs == null then null else c.cbs.vfs
  {
    && c.Valid(native)
    && (c.cbs != null ==> Owns(c.cbs, vfs, shares, life) && !Since(native.log, life.since, DropBegan))
    && (c.cbs == null ==> vfs.owners == shares)
    && (vfs.owners > 0 ==> vfs.Valid(native) && vfs.fs == Some(life.handle) && vfs.auth == Some(life.context))
    && (vfs.owners == 0 ==> Settled(native.log, life.context, life.handle))
    && native.pending == (if vfs.owners > 0 then life.others + {life.context} else life.others)
    && life.since <= |native.log| && RemovalsOk(native.log, life.since, life.since, life.handle, life.began)
  }

  ghost predicate Owns(cbs: ConnectionVfs, vfs: BlockCacheVfs, shares: nat, life: Life)
    reads cbs, cbs.vfs
  {
    && cbs.vfs == vfs && CloudConnection.Shares(cbs) == shares + 1
    && cbs.handle == life.handle && cbs.since == life.since && cbs.began == life.began
  }

  method HappenTryClose(native: Native, c: CloudConnection, vfs: BlockCacheVfs, shares: nat, ghost life: Life)
    requires Alive(native, c, vfs, shares, life) && life.context !in life.others && c.cbs != null
    modifies native, c, vfs, c.cbs
    ensures Alive(native, c, vfs, shares, life) && (c.cbs == old(c.cbs) || c.cbs == null)
    ensures old(native.log) <= native.log
  {
    var r := c.Close(native);
    if r.Err? { SinceJoin(old(native.log), native.log, life.since, DropBegan); }
    RemovalsJoin(old(native.log), native.log, life.since, life.since, life.handle, life.began);
  }

  method HappenDrop(native: Native, c: CloudConnection, vfs: BlockCacheVfs, shares: nat, ghost life: Life)
    requires Alive(native, c, vfs, shares, life) && life.context !in life.others && c.cbs != null
    modifies native, c, vfs, c.cbs
    ensures Alive(native, c, vfs, shares, life) && c.cbs == null
    ensures old(native.log) <= native.log
  {
    c.Drop(native);
    RemovalsJoin(old(native.log), native.log, life.since, life.since, life.handle, life.began);
  }

  method HappenShare(native: Native, c: CloudConnection, vfs: BlockCacheVfs, shares: nat, ghost life: Life)
    returns (left: nat)
    requires Alive(native, c, vfs, shares, life) && life.context !in life.others
    modifies native, c, vfs, c.cbs
    ensures Alive(native, c, vfs, left, life) && c.cbs == old(c.cbs)
    ensures old(native.log) <= native.log
  {
    left := shares;
    if vfs.owners == 0 { return; }
    var ok := MakeShare(native, vfs);
    if ok { left := shares + 1; }
    RemovalsJoin(old(native.log), native.log, life.since, life.since, life.handle, life.began);
    if c.cbs != null {
      SinceJoin(old(native.log), native.log, life.since, DropBegan);
      AccountKept(old(native.log), native.log, c.cbs.since, c.cbs.handle, c.cbs.began, c.cbs.attached, vfs.fs);
    }
  }

  method HappenUnshare(native: Native, c: CloudConnection, vfs: BlockCacheVfs, shares: nat, ghost life: Life)
    requires Alive(native, c, vfs, shares, life) && life.context !in life.others && shares > 0
    modifies native, c, vfs, c.cbs
    ensures Alive(native, c, vfs, shares - 1, life) && c.cbs == old(c.cbs)
    ensures old(native.log) <= native.log
  {
    GiveUpShare(native, vfs);
    RemovalsJoin(old(native.log), native.log, life.since, life.since, life.handle, life.began);
    if c.cbs != null {
      SinceJoin(old(native.log), native.log, life.since, DropBegan);
      AccountKept(old(native.log), native.log, c.cbs.since, c.cbs.handle, c.cbs.began, c.cbs.attached, vfs.fs);
    }
  }

  /** One happening. A connection that closed or was dropped is gone and sees no further ones. */
  method Happen(native: Native, c: CloudConnection, vfs: BlockCacheVfs, happening: Happening, shares: nat,
                ghost life: Life)
    returns (left: nat)
    requires Alive(native, c, vfs, shares, life) && life.context !in life.others
    modifies native, c, vfs, c.cbs
    ensures Alive(native, c, vfs, left, life) && (c.cbs == old(c.cbs) || c.cbs == null)
    ensures old(native.log) <= native.log
    ensures happening.DropConnection? ==> c.cbs == null && left == shares
    ensures happening.Unshare? && shares > 0 ==> left == shares - 1
  {
    left := shares;
    match happening {
      case TryClose =>
        if c.cbs != null { HappenTryClose(native, c, vfs, shares, life); }
      case DropConnection =>
        if c.cbs != null { HappenDrop(native, c, vfs, shares, life); }
      case Share =>
        left := HappenShare(native, c, vfs, shares, life);
      case Unshare =>
        if shares > 0 {
          HappenUnshare(native, c, vfs, shares, life);
          left := shares - 1;
        }
    }
  }

  /**
   Every life of a connection: any closes, failed and repeated, any sharing, dropped in any
   order. No context is freed while native code may call it, and none is forgotten. The directory
   is never removed before a destroy has succeeded, nor, until the connection is dropped, before
   the detach has.
   */
  method Lifetime(native: Native, c: CloudConnection, happenings: seq<Happening>)
    requires c.Valid(native) && c.cbs != null && c.cbs.vfs.fs.Some? && CloudConnection.Shares(c.cbs) == 1
    requires c.cbs.vfs.auth.value in native.pending && c.cbs.since == |native.log|
    modifies native, c, c.cbs, c.cbs.vfs
    ensures native.Valid() && old(native.log) <= native.log
    ensures Settled(native.log, old(c.cbs.vfs.auth).value, old(c.cbs.vfs.fs).value)
    ensures native.pending == old(native.pending) - {old(c.cbs.vfs.auth).value}
    ensures forall context :: ContextFreed(context) in native.log ==> !MayCall(native.log, context)
    ensures var n := |old(native.log)|; RemovalsOk(native.log, n, n, old(c.cbs.vfs.fs).value, old(c.cbs.attached))
  {
    var vfs, shares, i := c.cbs.vfs, 0, 0;
    ghost var context := vfs.auth.value;
    ghost var life := Life(vfs.fs.value, context, c.cbs.since, c.cbs.began, native.pending - {context});
    while i < |happenings|
      invariant 0 <= i <= |happenings| && (c.cbs == old(c.cbs) || c.cbs == null)
      invariant Alive(native, c, vfs, shares, life) && old(native.log) <= native.log
    {
      shares := Happen(native, c, vfs, happenings[i], shares, life);
      i := i + 1;
    }
    shares := Happen(native, c, vfs, DropConnection, shares, life);
    while shares > 0
      invariant c.cbs == null && Alive(native, c, vfs, shares, life) && old(native.log) <= native.log
    {
      shares := Happen(native, c, vfs, Unshare, shares, life);
    }
    forall k | ContextFreed(k) in native.log
      ensures !MayCall(native.log, k)
    {
      FreedIsOutOfReach(native.log, k);
    }
  }

  /**
   From the URI to the last drop: whatever fails on the way, every callback context that was ever
   registered ends up freed out of native reach, or leaked. If the open succeeded, at `start`, then
   exactly what the connection owns was held there, and from there on the directory is removed
   only as `Lifetime` says.
   */
  method OpenAndLive(native: Native, checked: bool, options: BuildOptions, hasSession: bool, create: bool,
                     happenings: seq<Happening>)
    returns (live: bool, ghost start: nat, ghost h: nat)
    requires native.Valid() && native.held == Some(NOTHING) && native.pending == {}
    modifies native
    ensures native.Valid() && native.pending == {}
    ensures forall h, context :: Registered(h, context) in native.log ==>
              (ContextFreed(context) in native.log && !MayCall(native.log, context)) ||
              ContextLeaked(context) in native.log
    ensures !live ==> native.held == Some(NOTHING)
    ensures live ==> start <= |native.log| && Live(native.log[..start], h)
    ensures live ==> Held(native.log[..start]) == Some(Holdings(true, true, !hasSession, hasSession, true))
    ensures live ==> RemovalsOk(native.log, start, start, h, !hasSession)
  {
    var c := Open(native, checked, options, hasSession, create);
    live, start, h := c != null, |native.log|, 0;
    if c != null {
      h := c.cbs.vfs.fs.value;
      ghost var before := native.log;
      Lifetime(native, c, happenings);
      assert native.log[..start] == before;
    }
    forall h, context | Registered(h, context) in native.log
      ensures (ContextFreed(context) in native.log && !MayCall(native.log, context)) ||
              ContextLeaked(context) in native.log
    {
      PendingMeans(native.log, context);
      if ContextFreed(context) in native.log { FreedIsOutOfReach(native.log, context); }
    }
  }
}
