/**
 The owners of one cloud VFS: building it, opening a connection on it from a URI, closing, closing
 again, dropping. Native calls succeed or fail as they like; the log records them.
 */
module VfsLifecycle {
  import opened Common
  import opened VfsLog

  /** Handles and contexts in an event are below the next unused number. */
  predicate Below(e: Event, n: nat) {
    && (e.VfsCreated? || e.Registered? ==> e.handle < n)
    && (e.Registered? || e.ContextFreed? || e.ContextLeaked? ==> e.context < n)
  }

  predicate AllBelow(log: Log, n: nat) {
    forall i :: 0 <= i < |log| ==> Below(log[i], n)
  }

  /** The foreign side. */
  class Native {
    var log: Log
    var next: nat
    ghost var held: Option<Holdings>
    ghost var pending: set<nat>

    ghost predicate Valid()
      reads this
    {
      Safe(log) && AllBelow(log, next) && held == Held(log) && pending == Pending(log)
    }

    constructor ()
      ensures Valid() && log == [] && held == Some(NOTHING) && pending == {}
    {
      log, next, held, pending := [], 0, Some(NOTHING), {};
    }

    method Record(e: Event)
      requires Valid() && SafeNext(log, e) && Below(e, next)
      modifies this
      ensures Valid() && log == old(log) + [e] && next == old(next)
      ensures held == After(old(held), e) && pending == PendingAfter(old(pending), e)
    {
      SafeSnoc(log, e);
      HeldSnoc(log, e);
      PendingSnoc(log, e);
      log, held, pending := log + [e], After(held, e), PendingAfter(pending, e);
    }

    method NewContext() returns (context: nat)
      requires Valid()
      modifies this
      ensures Valid() && log == old(log) && held == old(held) && pending == old(pending) && next > old(next)
      ensures Unused(log, context) && context < next && context !in pending
    {
      PendingMeans(log, next);
      context := next;
      next := next + 1;
    }

    /** Creation can fail, and can claim success without a handle. */
    method Create() returns (handle: Option<nat>)
      requires Valid()
      modifies this
      ensures Valid() && next >= old(next) && pending == old(pending)
      ensures handle.None? ==> log == old(log) + [Refused] && held == old(held)
      ensures handle.Some? ==> log == old(log) + [VfsCreated(handle.value)] && Live(log, handle.value)
      ensures handle.Some? ==> held == After(old(held), VfsCreated(handle.value))
    {
      if * {
        var h := next;
        UnusedHandle(h);
        next := next + 1;
        Record(VfsCreated(h));
        handle := Some(h);
      } else {
        Record(Refused);
        handle := None;
      }
    }

    lemma UnusedHandle(h: nat)
      requires Valid() && h == next
      ensures !Dead(log, h)
    {
      if Dead(log, h) {
        var i :| 0 <= i < |log| && log[i] == DestroyCalled(Some(h), true);
        SafePrefix(log, i);
      }
    }

    /** Destroying nothing succeeds. */
    method Destroy(target: Option<nat>) returns (ok: bool)
      requires Valid() && (target.Some? ==> Live(log, target.value))
      modifies this
      ensures Valid() && log == old(log) + [DestroyCalled(target, ok)] && next == old(next)
      ensures target.None? ==> ok
      ensures held == After(old(held), DestroyCalled(target, ok)) && pending == old(pending)
    {
      ok := *;
      ok := ok || target.None?;
      Record(DestroyCalled(target, ok));
    }

    method Detach(h: nat) returns (ok: bool)
      requires Valid() && Live(log, h)
      modifies this
      ensures Valid() && log == old(log) + [DetachCalled(h, ok)] && next == old(next)
      ensures held == After(old(held), DetachCalled(h, ok)) && pending == old(pending)
    {
      ok := *;
      Record(DetachCalled(h, ok));
    }
  }

  ghost predicate Unused(log: Log, context: nat) {
    && ContextFreed(context) !in log && ContextLeaked(context) !in log
    && forall h :: Registered(h, context) !in log
  }

  /** The context is alive and no VFS but this one knows it. */
  ghost predicate OnlyFor(log: Log, context: nat, h: nat) {
    && ContextFreed(context) !in log && ContextLeaked(context) !in log
    && forall k :: Registered(k, context) in log ==> k == h
  }

  /** A context is either freed, once its VFS is gone for good, or given up and left to native code. */
  ghost predicate Settled(log: Log, context: nat, h: nat) {
    if Dead(log, h) then ContextFreed(context) in log else ContextLeaked(context) in log
  }

  predicate Freed(log: Log, context: nat, h: nat) {
    Dead(log, h) && ContextFreed(context) in log
  }

  function Context(auth: Option<nat>): set<nat> {
    if auth.Some? then {auth.value} else {}
  }

  /** Which optional callbacks the builder registers, and how many settings it applies. */
  datatype BuildOptions = BuildOptions(refresh: bool, progress: bool, failure: bool, settings: nat)

  function One(wanted: bool): nat {
    if wanted then 1 else 0
  }

  /** The authentication callback always, the others as wanted. */
  function Callbacks(options: BuildOptions): nat {
    1 + One(options.refresh) + One(options.progress) + One(options.failure)
  }

  function Repeat(e: Event, n: nat): Log {
    seq(n, i => e)
  }

  lemma RepeatMore(log: Log, e: Event, n: nat)
    ensures log + Repeat(e, n) + [e] == log + Repeat(e, n + 1)
  {
  }

  /** The VFS handle with its callback context, shared by `owners`. */
  class BlockCacheVfs {
    var fs: Option<nat>
    var auth: Option<nat>
    var owners: nat

    ghost predicate Valid(native: Native)
      reads this, native
    {
      && fs.Some? == auth.Some?
      && (fs.Some? ==> Live(native.log, fs.value) && OnlyFor(native.log, auth.value, fs.value) &&
                       auth.value < native.next)
    }

    constructor (h: nat, context: nat)
      ensures fs == Some(h) && auth == Some(context) && owners == 1
    {
      fs, auth, owners := Some(h), Some(context), 1;
    }

    /** One destroy attempt; the context is freed only if it worked, and otherwise leaked. */
    static method DestroyOrLeak(native: Native, h: nat, context: nat) returns (ok: bool)
      requires native.Valid() && Live(native.log, h) && OnlyFor(native.log, context, h) && context < native.next
      modifies native
      ensures native.Valid() && native.log == old(native.log) + DestroySteps(h, context, ok)
      ensures old(native.log) <= native.log && Bare(native.log, |old(native.log)|, true)
      ensures Settled(native.log, context, h) && (ok <==> Dead(native.log, h))
      ensures native.held == After(old(native.held), DestroyCalled(Some(h), true))
      ensures native.pending == old(native.pending) - {context}
    {
      ok := native.Destroy(Some(h));
      if ok {
        native.Record(ContextFreed(context));
      } else {
        native.Record(ContextLeaked(context));
      }
    }

    /** One registration or setting call. */
    static method Register(native: Native, h: nat, context: nat, callback: bool) returns (ok: bool)
      requires native.Valid() && Live(native.log, h) && OnlyFor(native.log, context, h) && context < native.next
      requires h < native.next
      modifies native
      ensures native.Valid() && old(native.log) <= native.log && native.next == old(native.next)
      ensures Live(native.log, h) && OnlyFor(native.log, context, h)
      ensures native.held == old(native.held)
      ensures native.pending == old(native.pending) + if callback then {context} else {}
      ensures Bare(native.log, |old(native.log)|, ok)
      ensures ok ==> native.log == old(native.log) + [if callback then Registered(h, context) else Configured(h)]
    {
      native.Record(if callback then Registered(h, context) else Configured(h));
      ok := *;
      if !ok {
        native.Record(Refused);
        assert native.log[|old(native.log)| + 1] == Refused;
      }
    }

    /** One more callback, if wanted and no call has failed; `n` have been registered since `past`. */
    static method RegisterNext(native: Native, h: nat, context: nat, wanted: bool, before: bool, ghost past: Log,
                               ghost n: nat)
      returns (ok: bool)
      requires native.Valid() && Live(native.log, h) && OnlyFor(native.log, context, h) && context < native.next
      requires h < native.next && context in native.pending
      requires past <= native.log && Bare(native.log, |past|, before)
      requires before ==> native.log == past + Repeat(Registered(h, context), n)
      modifies native
      ensures native.Valid() && past <= native.log && native.next == old(native.next)
      ensures Live(native.log, h) && OnlyFor(native.log, context, h)
      ensures native.held == old(native.held) && native.pending == old(native.pending)
      ensures Bare(native.log, |past|, ok)
      ensures ok ==> before && native.log == past + Repeat(Registered(h, context), n + One(wanted))
    {
      ok := before;
      if before && wanted {
        ok := Register(native, h, context, true);
        BareJoin(old(native.log), native.log, |past|, true, ok);
        RepeatMore(past, Registered(h, context), n);
      }
    }

    /** Registers the callbacks, up to the first failure. */
    static method RegisterAll(native: Native, h: nat, context: nat, options: BuildOptions) returns (ok: bool)
      requires native.Valid() && Live(native.log, h) && OnlyFor(native.log, context, h) && context < native.next
      requires h < native.next
      modifies native
      ensures native.Valid() && old(native.log) <= native.log && native.next == old(native.next)
      ensures Live(native.log, h) && OnlyFor(native.log, context, h)
      ensures native.held == old(native.held) && native.pending == old(native.pending) + {context}
      ensures Bare(native.log, |old(native.log)|, ok)
      ensures ok ==> native.log == old(native.log) + Repeat(Registered(h, context), Callbacks(options))
    {
      ghost var past := native.log;
      ok := Register(native, h, context, true);
      assert ok ==> native.log == past + Repeat(Registered(h, context), 1);
      ok := RegisterNext(native, h, context, options.refresh, ok, past, 1);
      ok := RegisterNext(native, h, context, options.progress, ok, past, 1 + One(options.refresh));
      ghost var n := 1 + One(options.refresh) + One(options.progress);
      ok := RegisterNext(native, h, context, options.failure, ok, past, n);
    }

    /** Applies the settings, up to the first failure. */
    static method Apply(native: Native, h: nat, context: nat, settings: nat) returns (ok: bool)
      requires native.Valid() && Live(native.log, h) && OnlyFor(native.log, context, h) && context < native.next
      requires h < native.next
      modifies native
      ensures native.Valid() && old(native.log) <= native.log && native.next == old(native.next)
      ensures Live(native.log, h) && OnlyFor(native.log, context, h)
      ensures native.held == old(native.held) && native.pending == old(native.pending)
      ensures Bare(native.log, |old(native.log)|, ok)
      ensures ok ==> native.log == old(native.log) + Repeat(Configured(h), settings)
    {
      var i := 0;
      ok := true;
      while ok && i < settings
        invariant 0 <= i <= settings && (ok ==> native.log == old(native.log) + Repeat(Configured(h), i))
        invariant native.Valid() && old(native.log) <= native.log && native.next == old(native.next)
        invariant Live(native.log, h) && OnlyFor(native.log, context, h)
        invariant native.held == old(native.held) && native.pending == old(native.pending)
        invariant Bare(native.log, |old(native.log)|, ok)
      {
        ghost var mid := native.log;
        ok := Register(native, h, context, false);
        BareJoin(mid, native.log, |old(native.log)|, true, ok);
        RepeatMore(old(native.log), Configured(h), i);
        i := i + 1;
      }
    }

    /** Registers the callbacks and applies the settings, up to the first failure. */
    static method Configure(native: Native, h: nat, context: nat, options: BuildOptions) returns (ok: bool)
      requires native.Valid() && Live(native.log, h) && OnlyFor(native.log, context, h) && context < native.next
      requires h < native.next
      modifies native
      ensures native.Valid() && old(native.log) <= native.log && native.next == old(native.next)
      ensures Live(native.log, h) && OnlyFor(native.log, context, h)
      ensures native.held == old(native.held) && native.pending == old(native.pending) + {context}
      ensures Bare(native.log, |old(native.log)|, ok)
      ensures ok ==> native.log == old(native.log) + Repeat(Registered(h, context), Callbacks(options)) +
                                   Repeat(Configured(h), options.settings)
    {
      ok := RegisterAll(native, h, context, options);
      if !ok { return; }
      ghost var mid := native.log;
      ok := Apply(native, h, context, options.settings);
      BareJoin(mid, native.log, |old(native.log)|, true, ok);
    }

    /** Every error exit tears down what was built. */
    static method Build(native: Native, options: BuildOptions) returns (r: BlockCacheVfs?)
      requires native.Valid() && native.held.Some?
      requires var h := native.held.value; !h.vfs && !h.attached && !h.session && !h.sql
      modifies native
      ensures native.Valid() && old(native.log) <= native.log
      ensures r == null ==> native.held == old(native.held) && native.pending == old(native.pending)
      ensures r != null ==> fresh(r) && r.Valid(native) && r.fs.Some? && r.owners == 1
      ensures r != null ==> native.held == Some(old(native.held).value.(vfs := true))
      ensures Bare(native.log, |old(native.log)|, r != null)
      ensures r != null ==> native.log == old(native.log) + [VfsCreated(r.fs.value)] +
                              Repeat(Registered(r.fs.value, r.auth.value), Callbacks(options)) +
                              Repeat(Configured(r.fs.value), options.settings)
      ensures r != null ==> r.auth.value !in old(native.pending) &&
                            native.pending == old(native.pending) + {r.auth.value}
    {
      var handle, context := Begin(native);
      if handle.None? { return null; }
      var h := handle.value;
      ghost var created := native.log;
      var ok := ConfigureOrLeak(native, h, context, options);
      BareJoin(created, native.log, |old(native.log)|, true, ok);
      if !ok { return null; }
      r := new BlockCacheVfs(h, context);
    }

    /** Configures the VFS, or gives it up. */
    static method ConfigureOrLeak(native: Native, h: nat, context: nat, options: BuildOptions) returns (ok: bool)
      requires native.Valid() && Live(native.log, h) && OnlyFor(native.log, context, h) && context < native.next
      requires h < native.next && context !in native.pending
      modifies native
      ensures native.Valid() && old(native.log) <= native.log
      ensures Bare(native.log, |old(native.log)|, ok)
      ensures !ok ==> native.held == After(old(native.held), DestroyCalled(Some(h), true))
      ensures !ok ==> native.pending == old(native.pending)
      ensures ok ==> Live(native.log, h) && OnlyFor(native.log, context, h) && context < native.next
      ensures ok ==> native.held == old(native.held) && native.pending == old(native.pending) + {context}
      ensures ok ==> native.log == old(native.log) + Repeat(Registered(h, context), Callbacks(options)) +
                                   Repeat(Configured(h), options.settings)
    {
      ok := Configure(native, h, context, options);
      if ok { return; }
      ghost var configured := native.log;
      var _ := DestroyOrLeak(native, h, context);
      BareJoin(configured, native.log, |old(native.log)|, false, true);
    }

    /** A new VFS and a context for its callbacks. */
    static method Begin(native: Native) returns (handle: Option<nat>, context: nat)
      requires native.Valid() && native.held.Some?
      requires var h := native.held.value; !h.vfs && !h.attached && !h.session && !h.sql
      modifies native
      ensures native.Valid() && old(native.log) <= native.log && native.pending == old(native.pending)
      ensures handle.None? ==> native.held == old(native.held)
      ensures Bare(native.log, |old(native.log)|, handle.Some?)
      ensures handle.Some? ==>
                && native.log == old(native.log) + [VfsCreated(handle.value)] && Live(native.log, handle.value)
                && handle.value < native.next && context < native.next && Unused(native.log, context)
                && context !in native.pending && native.held == Some(old(native.held).value.(vfs := true))
                && After(native.held, DestroyCalled(handle, true)) == old(native.held)
    {
      handle := native.Create();
      context := 0;
      if handle.None? {
        assert Last(native.log) == Refused;
        return;
      }
      assert Below(Last(native.log), native.next);
      context := native.NewContext();
    }

    /** Dropping the last owner: destroy, and free the context only if that worked. */
    method Drop(native: Native)
      requires native.Valid() && Valid(native)
      modifies this, native
      ensures native.Valid() && old(native.log) <= native.log && owners == old(owners)
      ensures old(fs).None? ==> native.log == old(native.log) && native.held == old(native.held)
      ensures old(fs).Some? ==> native.log == old(native.log) + DestroySteps(old(fs).value, old(auth).value, fs.None?)
      ensures old(fs).Some? ==> Settled(native.log, old(auth).value, old(fs).value)
      ensures native.pending == old(native.pending) - Context(old(auth))
      ensures old(fs).Some? ==> native.held == After(old(native.held), DestroyCalled(old(fs), true))
    {
      if fs.None? { return; }
      var ok := DestroyOrLeak(native, fs.value, auth.value);
      if ok { fs := None; }
      auth := None;
    }

    /** Giving up one shared owner. */
    method Release(native: Native)
      requires native.Valid() && Valid(native) && owners > 0
      modifies this, native
      ensures native.Valid() && old(native.log) <= native.log && owners == old(owners) - 1
      ensures owners > 0 ==> native.log == old(native.log) && native.held == old(native.held) && fs == old(fs) &&
                             auth == old(auth) && Valid(native)
      ensures owners == 0 && old(fs).None? ==> native.log == old(native.log) && native.held == old(native.held)
      ensures owners == 0 && old(fs).Some? ==>
                native.log == old(native.log) + DestroySteps(old(fs).value, old(auth).value, fs.None?)
      ensures owners == 0 && old(fs).Some? ==> Settled(native.log, old(auth).value, old(fs).value)
      ensures native.pending == if owners > 0 then old(native.pending) else old(native.pending) - Context(old(auth))
      ensures owners == 0 && old(fs).Some? ==> native.held == After(old(native.held), DestroyCalled(old(fs), true))
    {
      owners := owners - 1;
      if owners == 0 { Drop(native); }
    }
  }

  /**
   The cloud resources a connection owns. `session` is an attachment that shares the VFS. The ghost
   constants are its handle, whether it began attached, and where in the log it began.
   */
  class ConnectionVfs {
    const vfs: BlockCacheVfs
    var attached: bool
    var session: bool
    ghost const handle: nat
    ghost const began: bool
    ghost const since: nat

    ghost predicate Valid(native: Native)
      reads this, vfs, native
    {
      && vfs.Valid(native)
      && vfs.owners >= (if session then 2 else 1)
      && (attached || session ==> vfs.fs.Some?)
      && Account(native.log, since, handle, began, attached, vfs.fs)
    }

    constructor (native: Native, vfs: BlockCacheVfs, attached: bool, session: bool)
      requires vfs.fs.Some?
      ensures this.vfs == vfs && this.attached == attached && this.session == session
      ensures handle == vfs.fs.value && began == attached && since == |native.log|
    {
      this.vfs, this.attached, this.session := vfs, attached, session;
      handle, began, since := vfs.fs.value, attached, |native.log|;
    }

    /** Dropping the session attachment: release it natively, then give up its share. */
    method ReleaseSession(native: Native)
      requires native.Valid() && Valid(native)
      modifies this, vfs, native
      ensures native.Valid() && Valid(native) && !session && attached == old(attached)
      ensures vfs.fs == old(vfs.fs) && vfs.auth == old(vfs.auth)
      ensures vfs.owners == old(vfs.owners) - if old(session) then 1 else 0
      ensures native.log == old(native.log) + if old(session) then [SessionReleased(old(vfs.fs).value)] else []
      ensures native.pending == old(native.pending)
    {
      if session {
        native.Record(SessionReleased(vfs.fs.value));
        session := false;
        vfs.Release(native);
      }
      AccountKept(old(native.log), native.log, since, handle, began, attached, vfs.fs);
    }

    /** The VFS was destroyed: forget it and free its context. */
    method Forget(native: Native)
      requires native.Valid() && (vfs.fs.Some? == vfs.auth.Some?)
      requires vfs.fs.Some? ==> Dead(native.log, vfs.fs.value) && OnlyFor(native.log, vfs.auth.value, vfs.fs.value) &&
                                vfs.auth.value < native.next
      modifies vfs, native
      ensures native.Valid() && vfs.Valid(native) && vfs.fs.None? && vfs.owners == old(vfs.owners)
      ensures native.log == old(native.log) + if old(vfs.auth).Some? then [ContextFreed(old(vfs.auth).value)] else []
      ensures native.pending == old(native.pending) - Context(old(vfs.auth))
    {
      if vfs.auth.Some? { native.Record(ContextFreed(vfs.auth.value)); }
      vfs.fs, vfs.auth := None, None;
    }

    /** Detaches if attached; the flag is cleared only by a detach that succeeded. */
    method DetachOwn(native: Native) returns (r: Outcome)
      requires native.Valid() && Valid(native)
      modifies this, native
      ensures native.Valid() && Valid(native) && session == old(session) && native.pending == old(native.pending)
      ensures r.Ok? ==> !attached && native.log == old(native.log) + DetachSteps(old(attached), vfs.fs)
      ensures r.Err? ==> attached && old(attached) &&
                         native.log == old(native.log) + [DetachCalled(vfs.fs.value, false)]
    {
      if !attached { return Ok; }
      var detached := native.Detach(vfs.fs.value);
      AccountKept(old(native.log), native.log, since, handle, began, attached, vfs.fs);
      if !detached { return Err; }
      attached := false;
      assert native.log[|old(native.log)|] == DetachCalled(handle, true);
      return Ok;
    }

    /** Everything after the session was released, up to the directory. */
    method Teardown(native: Native) returns (r: Outcome)
      requires native.Valid() && Valid(native) && !session
      modifies this, vfs, native
      ensures native.Valid() && Valid(native) && !session && vfs.owners == old(vfs.owners)
      ensures r.Ok? ==> vfs.fs.None? && !attached && old(vfs.owners) == 1
      ensures r.Ok? ==> native.log == old(native.log) + TeardownSteps(old(attached), old(vfs.fs), old(vfs.auth))
      ensures r.Err? ==> vfs.fs == old(vfs.fs) && vfs.auth == old(vfs.auth) && (attached ==> old(attached))
      ensures r.Err? ==> vfs.fs.Some? || vfs.owners > 1
      ensures r.Err? ==> native.log == old(native.log) + RefusedSteps(old(attached), attached, vfs.owners, vfs.fs)
      ensures native.pending == if r.Err? then old(native.pending) else old(native.pending) - Context(old(vfs.auth))
    {
      r := DetachOwn(native);
      if r.Err? { return; }
      if vfs.owners != 1 { return Err; }
      ghost var detached := native.log;
      r := DestroyOwned(native);
      TeardownJoins(old(native.log), old(attached), old(vfs.fs), old(vfs.auth));
      AccountKept(detached, native.log, since, handle, began, attached, old(vfs.fs));
    }

    /** Destroys the VFS of a sole owner, and frees its context if that worked. */
    method DestroyOwned(native: Native) returns (r: Outcome)
      requires native.Valid() && vfs.Valid(native)
      modifies vfs, native
      ensures native.Valid() && vfs.Valid(native) && vfs.owners == old(vfs.owners)
      ensures r.Ok? ==> vfs.fs.None? && native.log == old(native.log) + DestroyedSteps(old(vfs.fs), old(vfs.auth))
      ensures r.Err? ==> vfs.fs == old(vfs.fs) && vfs.auth == old(vfs.auth)
      ensures r.Err? ==> vfs.fs.Some? && native.log == old(native.log) + [DestroyCalled(vfs.fs, false)]
      ensures native.pending == if r.Err? then old(native.pending) else old(native.pending) - Context(old(vfs.auth))
    {
      var destroyed := native.Destroy(vfs.fs);
      if !destroyed { return Err; }
      Forget(native);
      return Ok;
    }

    /** A close up to the directory. */
    method Unwind(native: Native) returns (r: Outcome)
      requires native.Valid() && Valid(native)
      modifies this, vfs, native
      ensures native.Valid() && Valid(native) && !session
      ensures vfs.owners == old(vfs.owners) - if old(session) then 1 else 0
      ensures r.Ok? ==> vfs.fs.None? && !attached && vfs.owners == 1
      ensures r.Ok? ==> native.log == old(native.log) + SessionSteps(old(session), old(vfs.fs)) +
                                      TeardownSteps(old(attached), old(vfs.fs), old(vfs.auth))
      ensures r.Err? ==> vfs.fs == old(vfs.fs) && vfs.auth == old(vfs.auth) && (attached ==> old(attached))
      ensures r.Err? ==> vfs.fs.Some? || vfs.owners > 1
      ensures r.Err? ==> native.log == old(native.log) + SessionSteps(old(session), old(vfs.fs)) +
                                       RefusedSteps(old(attached), attached, vfs.owners, vfs.fs)
      ensures native.pending == if r.Err? then old(native.pending) else old(native.pending) - Context(old(vfs.auth))
    {
      ReleaseSession(native);
      r := Teardown(native);
    }

    /**
     Release the session, detach, destroy, free the context, remove the directory; stop at the
     first failure so that it can be tried again, with nothing freed and the directory in place.
     However often it was tried, success means the VFS is destroyed and what was attached to it
     at the beginning was detached.
     */
    method Close(native: Native) returns (r: Outcome)
      requires native.Valid() && Valid(native)
      modifies this, vfs, native
      ensures native.Valid() && Valid(native) && !session
      ensures vfs.owners == old(vfs.owners) - if old(session) then 1 else 0
      ensures r.Ok? ==> vfs.fs.None? && !attached && vfs.owners == 1 && Tried(native.log, vfs.fs)
      ensures old(native.log) <= native.log
      ensures r.Ok? ==> native.log == old(native.log) + SessionSteps(old(session), old(vfs.fs)) +
                                      TeardownSteps(old(attached), old(vfs.fs), old(vfs.auth)) + [DirectoryRemoved]
      ensures r.Ok? ==> Dead(native.log, handle) && (began ==> Since(native.log, since, DetachCalled(handle, true)))
      ensures r.Ok? && old(vfs.fs).Some? ==> Freed(native.log, old(vfs.auth).value, old(vfs.fs).value)
      ensures r.Err? ==> vfs.fs == old(vfs.fs) && vfs.auth == old(vfs.auth) && (attached ==> old(attached))
      ensures r.Err? ==> vfs.fs.Some? || vfs.owners > 1
      ensures r.Err? ==> native.log == old(native.log) + SessionSteps(old(session), old(vfs.fs)) +
                                       RefusedSteps(old(attached), attached, vfs.owners, vfs.fs)
      ensures r.Err? ==> NothingGone(native.log, |old(native.log)|) && !Since(native.log, |old(native.log)|, DropBegan)
      ensures RemovalsOk(native.log, |old(native.log)|, since, handle, began)
      ensures native.pending == if r.Err? then old(native.pending) else old(native.pending) - Context(old(vfs.auth))
    {
      r := Unwind(native);
      if r.Err? {
        RefusedKeeps(old(native.log), old(session), old(attached), attached, vfs.owners, vfs.fs, since, handle, began);
      } else {
        TeardownFrees(old(native.log), old(session), old(attached), old(vfs.fs), old(vfs.auth));
        RemoveDirectory(native, old(native.log));
      }
    }

    /** The last act of a close that succeeded. */
    method RemoveDirectory(native: Native, ghost past: Log)
      requires native.Valid() && Valid(native) && vfs.fs.None? && !attached
      requires past <= native.log && NoneRemoved(native.log, |past|)
      modifies native
      ensures native.Valid() && Valid(native) && native.log == old(native.log) + [DirectoryRemoved]
      ensures RemovalsOk(native.log, |past|, since, handle, began) && native.pending == old(native.pending)
    {
      OneRemoval(past, native.log, since, handle, began);
      native.Record(DirectoryRemoved);
      AccountKept(old(native.log), native.log, since, handle, began, attached, vfs.fs);
    }

    /** The fallback of a drop, which does not wait for a detach: the directory goes only after a
        destroy that succeeded. */
    method DestroyAnyway(native: Native)
      requires native.Valid() && vfs.Valid(native) && vfs.fs == Some(handle) && Since(native.log, since, DropBegan)
      modifies vfs, native
      ensures native.Valid() && vfs.Valid(native) && vfs.owners == old(vfs.owners)
      ensures vfs.fs.Some? ==> vfs.fs == old(vfs.fs) && vfs.auth == old(vfs.auth)
      ensures native.log == old(native.log) + if vfs.fs.None? then FallbackSteps(handle, old(vfs.auth).value)
                                              else [DestroyCalled(old(vfs.fs), false)]
      ensures RemovalsOk(native.log, |old(native.log)|, since, handle, began) && Tried(native.log, vfs.fs)
      ensures vfs.fs.None? ==> Freed(native.log, old(vfs.auth).value, handle)
      ensures native.pending == if vfs.fs.Some? then old(native.pending)
                                else old(native.pending) - Context(old(vfs.auth))
    {
      var r := DestroyOwned(native);
      if r.Ok? {
        FallbackRemoval(old(native.log), since, handle, began, old(vfs.auth).value);
        native.Record(DirectoryRemoved);
      } else {
        FallbackFailed(old(native.log), since, handle, began);
      }
    }

    /** The close of a drop, which has been marked in the log. */
    method CloseAgain(native: Native) returns (r: Outcome)
      requires native.Valid() && Valid(native) && Since(native.log, since, DropBegan)
      modifies this, vfs, native
      ensures native.Valid() && vfs.Valid(native) && old(native.log) <= native.log
      ensures vfs.owners == old(vfs.owners) - (if old(session) then 1 else 0) && vfs.owners > 0
      ensures r.Ok? ==> vfs.fs.None? && vfs.owners == 1 && Tried(native.log, vfs.fs)
      ensures r.Ok? && old(vfs.fs).Some? ==> Freed(native.log, old(vfs.auth).value, old(vfs.fs).value)
      ensures r.Err? ==> vfs.fs == old(vfs.fs) && vfs.auth == old(vfs.auth) && (vfs.fs.Some? || vfs.owners > 1)
      ensures r.Err? ==> NothingGone(native.log, |old(native.log)|) && (vfs.fs.Some? ==> vfs.fs.value == handle)
      ensures RemovalsOk(native.log, |old(native.log)|, since, handle, began) && Since(native.log, since, DropBegan)
      ensures native.pending == if r.Err? then old(native.pending) else old(native.pending) - Context(old(vfs.auth))
    {
      r := Close(native);
      StillSince(old(native.log), native.log, since, DropBegan);
    }

    /** Closes and, if that fails and nobody shares the VFS, destroys it anyway. */
    method CloseOrDestroy(native: Native)
      requires native.Valid() && Valid(native) && Since(native.log, since, DropBegan)
      modifies this, vfs, native
      ensures native.Valid() && vfs.Valid(native) && old(native.log) <= native.log
      ensures vfs.owners == old(vfs.owners) - (if old(session) then 1 else 0) && vfs.owners > 0
      ensures vfs.fs.Some? ==> vfs.fs == old(vfs.fs) && vfs.auth == old(vfs.auth) && vfs.fs.value == handle
      ensures vfs.fs.None? && old(vfs.fs).Some? ==> Freed(native.log, old(vfs.auth).value, old(vfs.fs).value)
      ensures vfs.owners > 1 ==> vfs.fs == old(vfs.fs) && vfs.auth == old(vfs.auth)
      ensures vfs.owners > 1 ==> NothingGone(native.log, |old(native.log)|)
      ensures vfs.owners == 1 ==> Tried(native.log, vfs.fs)
      ensures RemovalsOk(native.log, |old(native.log)|, since, handle, began)
      ensures native.pending == old(native.pending) - if vfs.fs.None? then Context(old(vfs.auth)) else {}
    {
      var r := CloseAgain(native);
      if r.Err? && vfs.owners == 1 && vfs.fs.Some? {
        ghost var tried := native.log;
        DestroyAnyway(native);
        RemovalsJoin(tried, native.log, |old(native.log)|, since, handle, began);
      }
    }

    /** Gives up the share of a connection whose close, and fallback, have been tried. */
    method GiveUp(native: Native)
      requires native.Valid() && vfs.Valid(native) && vfs.owners > 0 && (vfs.fs.Some? ==> vfs.fs.value == handle)
      requires vfs.owners == 1 ==> Tried(native.log, vfs.fs)
      modifies vfs, native
      ensures native.Valid() && old(native.log) <= native.log && vfs.owners == old(vfs.owners) - 1
      ensures vfs.owners > 0 ==> native.log == old(native.log) && vfs.fs == old(vfs.fs) && vfs.auth == old(vfs.auth)
      ensures if vfs.owners > 0 then vfs.Valid(native) else DropEnding(native.log, handle)
      ensures vfs.owners == 0 && old(vfs.fs).Some? ==> Settled(native.log, old(vfs.auth).value, old(vfs.fs).value)
      ensures vfs.owners == 0 && old(vfs.fs).None? ==> native.log == old(native.log)
      ensures NoneRemoved(native.log, |old(native.log)|)
      ensures native.pending == if vfs.owners > 0 then old(native.pending)
                                else old(native.pending) - Context(old(vfs.auth))
    {
      vfs.Release(native);
    }

    /**
     Close once more; if that fails, destroy without detaching. Then give up the share, which
     destroys a last time if nobody else shares the VFS. The directory goes only after a destroy
     that succeeded; it stays if the close and the fallback both failed, or others share the VFS.
     */
    method Drop(native: Native)
      requires native.Valid() && Valid(native)
      modifies this, vfs, native
      ensures native.Valid() && old(native.log) <= native.log
      ensures vfs.owners == old(vfs.owners) - if old(session) then 2 else 1
      ensures vfs.owners > 0 ==> vfs.Valid(native) && vfs.fs == old(vfs.fs) && vfs.auth == old(vfs.auth)
      ensures vfs.owners == 0 && old(vfs.fs).Some? ==> Settled(native.log, old(vfs.auth).value, old(vfs.fs).value)
      ensures RemovalsOk(native.log, |old(native.log)|, since, handle, began)
      ensures if vfs.owners > 0 then NothingGone(native.log, |old(native.log)|) else DropEnding(native.log, handle)
      ensures native.pending == if vfs.owners > 0 then old(native.pending)
                                else old(native.pending) - Context(old(vfs.auth))
    {
      MarkDrop(native);
      ghost var marked := native.log;
      CloseOrDestroy(native);
      ghost var tried := native.log;
      GiveUp(native);
      RemovalsJoin(tried, native.log, |marked|, since, handle, began);
      RemovalsJoin(marked, native.log, |old(native.log)|, since, handle, began);
    }

    method MarkDrop(native: Native)
      requires native.Valid() && Valid(native)
      modifies native
      ensures native.Valid() && Valid(native) && Since(native.log, since, DropBegan)
      ensures native.log == old(native.log) + [DropBegan] && native.pending == old(native.pending)
    {
      native.Record(DropBegan);
      AccountKept(old(native.log), native.log, since, handle, began, attached, vfs.fs);
      assert native.log[|old(native.log)|] == DropBegan;
    }
  }

  /** The handle and the flag tell what has happened: a destroy or a detach that succeeded. */
  predicate Account(log: Log, since: nat, h: nat, began: bool, attached: bool, fs: Option<nat>) {
    && since <= |log|
    && (if fs.Some? then fs.value == h else Dead(log, h))
    && (attached ==> began)
    && (began && !attached ==> Since(log, since, DetachCalled(h, true)))
  }

  lemma AccountKept(past: Log, log: Log, since: nat, h: nat, began: bool, attached: bool, fs: Option<nat>)
    requires past <= log && Account(past, since, h, began, attached, fs)
    ensures Account(log, since, h, began, attached, fs)
  {
    assert forall e :: e in past ==> e in log;
    if began && !attached { StillSince(past, log, since, DetachCalled(h, true)); }
  }

  lemma FallbackFailed(past: Log, since: nat, h: nat, began: bool)
    ensures var log := past + [DestroyCalled(Some(h), false)];
            RemovalsOk(log, |past|, since, h, began) && Tried(log, Some(h))
  {
  }

  lemma FallbackRemoval(past: Log, since: nat, h: nat, began: bool, context: nat)
    requires Since(past, since, DropBegan)
    ensures var log := past + FallbackSteps(h, context);
            && log == past + DestroyedSteps(Some(h), Some(context)) + [DirectoryRemoved]
            && RemovalsOk(log, |past|, since, h, began) && Freed(log, context, h) && Tried(log, None)
  {
    var log := past + [DestroyCalled(Some(h), true), ContextFreed(context)];
    StillSince(past, log, since, DropBegan);
    assert log[|past|] == DestroyCalled(Some(h), true);
    OneRemoval(past, log, since, h, began);
    assert past + FallbackSteps(h, context) == log + [DirectoryRemoved];
  }

  /** No directory was removed and no context freed from position `n` on. */
  predicate NothingGone(log: Log, n: nat) {
    forall i :: n <= i < |log| ==> !log[i].DirectoryRemoved? && !log[i].ContextFreed?
  }

  /** A sole owner's close and fallback ended with the removal, or with a destroy that failed. */
  predicate Tried(log: Log, fs: Option<nat>) {
    log != [] && Last(log) == if fs.None? then DirectoryRemoved else DestroyCalled(fs, false)
  }

  /** The last owner's drop ends with the removal, or with two more destroys, the first of which failed. */
  predicate DropEnding(log: Log, h: nat) {
    || (log != [] && Last(log) == DirectoryRemoved)
    || (|log| > 2 && log[|log| - 3] == DestroyCalled(Some(h), false) &&
        log[|log| - 2].DestroyCalled? && log[|log| - 2].target == Some(h))
  }

  /** A destroy and what it makes of the context. */
  function DestroySteps(h: nat, context: nat, ok: bool): Log {
    [DestroyCalled(Some(h), ok), if ok then ContextFreed(context) else ContextLeaked(context)]
  }

  function FallbackSteps(h: nat, context: nat): Log {
    [DestroyCalled(Some(h), true), ContextFreed(context), DirectoryRemoved]
  }

  /** How a close fails: at the detach, because the VFS is shared, or at the destroy. */
  function RefusedSteps(wasAttached: bool, attached: bool, owners: nat, fs: Option<nat>): Log
    requires wasAttached || attached ==> fs.Some?
  {
    if attached then [DetachCalled(fs.value, false)]
    else DetachSteps(wasAttached, fs) + if owners != 1 then [] else [DestroyCalled(fs, false)]
  }

  function DestroyedSteps(fs: Option<nat>, auth: Option<nat>): Log {
    [DestroyCalled(fs, true)] + if auth.Some? then [ContextFreed(auth.value)] else []
  }

  function SessionSteps(session: bool, fs: Option<nat>): Log
    requires session ==> fs.Some?
  {
    if session then [SessionReleased(fs.value)] else []
  }

  function DetachSteps(attached: bool, fs: Option<nat>): Log
    requires attached ==> fs.Some?
  {
    if attached then [DetachCalled(fs.value, true)] else []
  }

  /** The only calls that lead to a successful close, in order. */
  function TeardownSteps(attached: bool, fs: Option<nat>, auth: Option<nat>): Log
    requires attached ==> fs.Some?
  {
    DetachSteps(attached, fs) + DestroyedSteps(fs, auth)
  }

  lemma TeardownJoins(log: Log, attached: bool, fs: Option<nat>, auth: Option<nat>)
    requires attached ==> fs.Some?
    ensures log + DetachSteps(attached, fs) + DestroyedSteps(fs, auth) == log + TeardownSteps(attached, fs, auth)
    ensures DestroyCalled(fs, true) in log + TeardownSteps(attached, fs, auth)
  {
    assert (log + TeardownSteps(attached, fs, auth))[|log| + |DetachSteps(attached, fs)|] == DestroyCalled(fs, true);
  }

  lemma TeardownFrees(log: Log, session: bool, attached: bool, fs: Option<nat>, auth: Option<nat>)
    requires session || attached ==> fs.Some?
    ensures var after := log + SessionSteps(session, fs) + TeardownSteps(attached, fs, auth);
            && log <= after && NoneRemoved(after, |log|)
            && (fs.Some? && auth.Some? ==> Freed(after + [DirectoryRemoved], auth.value, fs.value))
  {
    TeardownJoins(log + SessionSteps(session, fs), attached, fs, auth);
  }

  lemma RefusedKeeps(log: Log, session: bool, wasAttached: bool, attached: bool, owners: nat, fs: Option<nat>,
                     since: nat, h: nat, began: bool)
    requires session || wasAttached || attached ==> fs.Some?
    ensures var after := log + SessionSteps(session, fs) + RefusedSteps(wasAttached, attached, owners, fs);
            && log <= after && NothingGone(after, |log|) && !Since(after, |log|, DropBegan)
            && RemovalsOk(after, |log|, since, h, began)
  {
  }

  /** Detaching, destroying and freeing let go of everything but the directory. */
  lemma TeardownLeavesDirectory(log: Log, attached: bool, fs: Option<nat>, auth: Option<nat>)
    requires Held(log) == Some(Holdings(true, true, attached, false, false)) && fs.Some?
    ensures Held(log + TeardownSteps(attached, fs, auth)) == Some(NOTHING.(directory := true))
  {
    var detach := DetachSteps(attached, fs);
    var free := if auth.Some? then [ContextFreed(auth.value)] else [];
    var detached := log + detach;
    if attached { HeldSnoc(log, detach[0]); } else { assert detached == log; }
    HeldSnoc(detached, DestroyCalled(fs, true));
    var destroyed := detached + [DestroyCalled(fs, true)];
    if auth.Some? { HeldSnoc(destroyed, free[0]); } else { assert destroyed + free == destroyed; }
    assert log + TeardownSteps(attached, fs, auth) == destroyed + free;
  }

  lemma RemovedHoldsNothing(log: Log)
    requires Held(log) == Some(NOTHING.(directory := true))
    ensures Held(log + [DirectoryRemoved] + [DropBegan] + [DestroyCalled(None, true)]) == Some(NOTHING)
  {
    HeldSnoc(log, DirectoryRemoved);
    HeldSnoc(log + [DirectoryRemoved], DropBegan);
    HeldSnoc(log + [DirectoryRemoved] + [DropBegan], DestroyCalled(None, true));
  }

  /** An open connection that closes at the first try, SQLite first, holds nothing afterwards, and
      destroying its null handle again changes nothing. */
  lemma FirstCloseHoldsNothing(log: Log, attached: bool, session: bool, fs: Option<nat>, auth: Option<nat>)
    requires Held(log) == Some(Holdings(true, true, attached, session, true)) && fs.Some?
    ensures Held(log + [SqlReleased] + SessionSteps(session, fs) + TeardownSteps(attached, fs, auth) +
                 [DirectoryRemoved] + [DropBegan] + [DestroyCalled(None, true)]) == Some(NOTHING)
  {
    HeldSnoc(log, SqlReleased);
    var closed := log + [SqlReleased];
    var released := closed + SessionSteps(session, fs);
    if session { HeldSnoc(closed, SessionReleased(fs.value)); } else { assert released == closed; }
    TeardownLeavesDirectory(released, attached, fs, auth);
    var torn := released + TeardownSteps(attached, fs, auth);
    RemovedHoldsNothing(torn);
  }
}
