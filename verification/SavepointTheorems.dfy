/** What nested savepoint guards and a transaction guard leave behind. */
module SavepointTheorems {
  import opened Common
  import opened Strings
  import opened SqlText
  import opened Savepoints

  predicate NoMatch(entries: seq<Entry>, name: string) {
    forall j :: 0 <= j < |entries| ==> !SameName(entries[j].name, name)
  }

  lemma FindOwn(pre: seq<Entry>, e: Entry, leaked: seq<Entry>, name: string)
    requires SameName(e.name, name)
    ensures var f := Find(pre + [e] + leaked, name);
            f.Some? && f.value >= |pre| && (f.value == |pre| <==> NoMatch(leaked, name))
  {
    var stack := pre + [e] + leaked;
    assert stack[|pre|] == e;
    forall j | 0 <= j < |leaked|
      ensures stack[|pre| + 1 + j] == leaked[j]
    {
    }
    var f := Find(stack, name);
    if f.Some? && f.value > |pre| {
      assert stack[f.value] == leaked[f.value - |pre| - 1];
    }
  }

  /** A name under which a savepoint can be opened and released. */
  predicate Usable(name: string, reserved: set<string>) {
    Recover(Release(name), reserved).Some?
  }

  /** A name under which a savepoint can be opened, though perhaps not released. */
  predicate Opens(name: string, reserved: set<string>) {
    Recover(Savepoint(name), reserved).Some?
  }

  /** Ending a guard whose own savepoint is the most recent of its name: the stack is exactly
      the one from before the guard; the contents stay when the guard commits and the commit is
      allowed, and are otherwise the snapshot it took. */
  lemma GuardEnds(db: Db, g: Guard, how: Ending, reserved: set<string>, pre: seq<Entry>, e: Entry, leaked: seq<Entry>)
    requires DbOk(db) && db.stack == pre + [e] + leaked && e.name == Effective(g.name) && NoMatch(leaked, e.name)
    requires Usable(g.name, reserved) && !g.committed && !g.behavior.Ignore?
    ensures var commits := how.CallCommit? || g.behavior.Commit?;
            var allowed := pre != [] || db.begun || db.data.violations == 0;
            && EndGuard(db, g, how, reserved).0 ==
                 db.(stack := pre, data := if commits && allowed then db.data else e.saved)
            && EndGuard(db, g, how, reserved).1 == if how.CallCommit? && !allowed then Err else Ok
  {
    FindOwn(pre, e, leaked, e.name);
    assert db.stack[|pre|] == e && db.stack[..|pre|] == pre && db.stack[..|pre| + 1] == pre + [e];
    var undone := db.(data := e.saved, stack := pre + [e]);
    assert UndoGuard(db, g, reserved).db == undone;
    assert pre + [e] + [] == pre + [e];
    FindOwn(pre, e, [], e.name);
    assert undone.stack[..|pre|] == pre;
  }

  /** An explicit rollback of such a guard restores its snapshot and leaves it open. */
  lemma UndoRestores(db: Db, g: Guard, reserved: set<string>, pre: seq<Entry>, e: Entry, leaked: seq<Entry>)
    requires db.stack == pre + [e] + leaked && e.name == Effective(g.name) && NoMatch(leaked, e.name)
    requires Usable(g.name, reserved)
    ensures UndoGuard(db, g, reserved) == GuardResult(db.(data := e.saved, stack := pre + [e]), g, Ok)
  {
    FindOwn(pre, e, leaked, e.name);
    assert db.stack[|pre|] == e && db.stack[..|pre| + 1] == pre + [e];
  }

  /** With Ignore, such a guard ends only by a commit, and only one that is allowed. */
  lemma IgnoredGuardEnds(db: Db, g: Guard, how: Ending, reserved: set<string>, pre: seq<Entry>, e: Entry,
                         leaked: seq<Entry>)
    requires db.stack == pre + [e] + leaked && e.name == Effective(g.name) && NoMatch(leaked, e.name)
    requires Usable(g.name, reserved) && !g.committed && g.behavior.Ignore?
    ensures var allowed := pre != [] || db.begun || db.data.violations == 0;
            EndGuard(db, g, how, reserved) ==
              if !how.CallCommit? then (db, Ok) else if allowed then (db.(stack := pre), Ok) else (db, Err)
  {
    FindOwn(pre, e, leaked, e.name);
    assert db.stack[|pre|] == e && db.stack[..|pre|] == pre;
  }

  /** Exactly when a guard that is not told to be ignored restores the stack: when its name can
      be released, and nothing left open above it carries the same name. The only names that can
      be opened but not released are the spellings of SAVEPOINT. */
  lemma GuardRestoresExactly(db: Db, g: Guard, how: Ending, reserved: set<string>, pre: seq<Entry>, e: Entry,
                             leaked: seq<Entry>)
    requires DbOk(db) && db.stack == pre + [e] + leaked
    requires Recover(Savepoint(g.name), reserved) == Some(Savepoint(e.name)) && !g.committed && !g.behavior.Ignore?
    ensures EndGuard(db, g, how, reserved).0.stack == pre <==>
              Lower(e.name) != "savepoint" && NoMatch(leaked, e.name)
  {
    assert |db.stack| == |pre| + 1 + |leaked|;
    if Lower(e.name) == "savepoint" {
      NamedSavepoint(e.name);
    } else if NoMatch(leaked, e.name) {
      GuardEnds(db, g, how, reserved, pre, e, leaked);
    } else {
      FindOwn(pre, e, leaked, e.name);
      var i := Find(db.stack, e.name).value;
      var undone := UndoGuard(db, g, reserved).db;
      assert undone.stack == db.stack[..i + 1] && SameName(undone.stack[i].name, e.name);
      assert Find(undone.stack, e.name) == Some(i);
    }
  }

  lemma NamedSavepoint(name: string)
    requires Lower(name) == "savepoint"
    ensures IsIdentifier(name)
  {
    assert |name| == |Lower(name)| == 9;
    forall i | 0 <= i < 9
      ensures IdStart(name[i])
    {
      assert Lower(name)[i] == "savepoint"[i];
      assert 'a' <= LowerChar(name[i]) <= 'z';
    }
  }

  // ---------------------------------------------------------------- any nesting

  /** A use of the connection: a statement that changes contents, one that rolls the whole
      transaction back by itself (INSERT OR ROLLBACK, RAISE(ROLLBACK)), a rollback of the
      innermost guard, or a nested guard with its own body and ending, followed by the rest. The
      borrow checker makes scopes nest like this. */
  datatype Program =
    | Done
    | Work(result: Contents, next: Program)
    | SelfRollback(next: Program)
    | RollbackHere(next: Program)
    | Scope(name: string, body: Program, behavior: DropBehavior, how: Ending, next: Program)

  /** In autocommit mode a statement that leaves violations is refused. */
  function DoWork(db: Db, result: Contents): Db {
    if Autocommit(db) && result.violations > 0 then db else db.(data := result)
  }

  function RunProgram(p: Program, db: Db, guard: Option<string>, reserved: set<string>): Db
    decreases p, 0
  {
    match p
    case Done => db
    case Work(result, next) => RunProgram(next, DoWork(db, result), guard, reserved)
    case SelfRollback(next) => RunProgram(next, RollbackAll(db).0, guard, reserved)
    case RollbackHere(next) =>
      var db' := if guard.None? then db else UndoGuard(db, Guard(guard.value, Rollback, false), reserved).db;
      RunProgram(next, db', guard, reserved)
    case Scope(name, body, behavior, how, next) =>
      RunProgram(next, RunScope(name, body, behavior, how, db, reserved), guard, reserved)
  }

  function RunScope(name: string, body: Program, behavior: DropBehavior, how: Ending, db: Db, reserved: set<string>): Db
    decreases body, 1
  {
    var (inner, r) := Perform(db, Savepoint(name), reserved);
    if r.Err? then inner
    else EndGuard(RunProgram(body, inner, Some(name), reserved), Guard(name, behavior, false), how, reserved).0
  }

  /** Some statement of the program does end a transaction by itself. */
  predicate Aborts(p: Program, db: Db, guard: Option<string>, reserved: set<string>)
    decreases p, 0
  {
    match p
    case Done => false
    case Work(result, next) => Aborts(next, DoWork(db, result), guard, reserved)
    case SelfRollback(next) => !Autocommit(db) || Aborts(next, db, guard, reserved)
    case RollbackHere(next) =>
      var db' := if guard.None? then db else UndoGuard(db, Guard(guard.value, Rollback, false), reserved).db;
      Aborts(next, db', guard, reserved)
    case Scope(name, body, behavior, how, next) =>
      AbortsScope(name, body, db, reserved) ||
      Aborts(next, RunScope(name, body, behavior, how, db, reserved), guard, reserved)
  }

  predicate AbortsScope(name: string, body: Program, db: Db, reserved: set<string>)
    decreases body, 1
  {
    var (inner, r) := Perform(db, Savepoint(name), reserved);
    r.Ok? && Aborts(body, inner, Some(name), reserved)
  }

  /** What a name is compared by. */
  function Key(name: string): string {
    Lower(Effective(name))
  }

  /** A guard of this name leaves its savepoint behind: it is dropped with Ignore, or its RELEASE
      cannot be read. */
  predicate Leaves(name: string, behavior: DropBehavior, reserved: set<string>) {
    Opens(name, reserved) && (behavior.Ignore? || !Usable(name, reserved))
  }

  /** The names, as compared, that guards may leave on the stack. */
  function Leaks(p: Program, reserved: set<string>): set<string> {
    match p
    case Done => {}
    case Work(_, next) => Leaks(next, reserved)
    case SelfRollback(next) => Leaks(next, reserved)
    case RollbackHere(next) => Leaks(next, reserved)
    case Scope(name, body, behavior, _, next) =>
      (if Leaves(name, behavior, reserved) then {Key(name)} + Leaks(body, reserved) else {}) + Leaks(next, reserved)
  }

  /** The names of all guards that leave their savepoint, wherever they are. */
  function Left(p: Program, reserved: set<string>): set<string> {
    match p
    case Done => {}
    case Work(_, next) => Left(next, reserved)
    case SelfRollback(next) => Left(next, reserved)
    case RollbackHere(next) => Left(next, reserved)
    case Scope(name, body, behavior, _, next) =>
      (if Leaves(name, behavior, reserved) then {Key(name)} else {}) + Left(body, reserved) + Left(next, reserved)
  }

  lemma {:induction false} LeaksAreLeft(p: Program, reserved: set<string>)
    ensures Leaks(p, reserved) <= Left(p, reserved)
  {
    match p
    case Done =>
    case Work(_, next) => LeaksAreLeft(next, reserved);
    case SelfRollback(next) => LeaksAreLeft(next, reserved);
    case RollbackHere(next) => LeaksAreLeft(next, reserved);
    case Scope(_, body, _, _, next) => LeaksAreLeft(body, reserved); LeaksAreLeft(next, reserved);
  }

  /** No guard that leaves its savepoint shares a name with a guard around it that can be released.
      Names that SQLite refuses are allowed: such a guard is never created. */
  predicate WellScoped(p: Program, reserved: set<string>)
    decreases p, 0
  {
    match p
    case Done => true
    case Work(_, next) => WellScoped(next, reserved)
    case SelfRollback(next) => WellScoped(next, reserved)
    case RollbackHere(next) => WellScoped(next, reserved)
    case Scope(name, body, behavior, _, next) => ScopeOk(name, body, reserved) && WellScoped(next, reserved)
  }

  predicate ScopeOk(name: string, body: Program, reserved: set<string>)
    decreases body, 1
  {
    Opens(name, reserved) ==> WellScoped(body, reserved) &&
                              (Usable(name, reserved) ==> Key(name) !in Leaks(body, reserved))
  }

  predicate NamesIn(entries: seq<Entry>, names: set<string>) {
    forall j :: 0 <= j < |entries| ==> Lower(entries[j].name) in names
  }

  /** `after` has the stack of `before` with only such entries on top, in the same transaction. */
  predicate Keeps(before: Db, after: Db, names: set<string>) {
    && DbOk(after) && after.begun == before.begun && (before.begun ==> after.start == before.start)
    && before.stack <= after.stack && NamesIn(after.stack[|before.stack|..], names)
  }

  /** Inside a guard that can be rolled back, its savepoint is the top of the stack the program started from. */
  predicate TopIs(db: Db, guard: Option<string>, reserved: set<string>) {
    guard.Some? && Usable(guard.value, reserved) ==> db.stack != [] && Last(db.stack).name == Effective(guard.value)
  }

  lemma RollbackKeeps(base: Db, db: Db, name: string, reserved: set<string>, names: set<string>)
    requires Keeps(base, db, names) && TopIs(base, Some(name), reserved)
    ensures Keeps(base, UndoGuard(db, Guard(name, Rollback, false), reserved).db, names)
  {
    if Usable(name, reserved) {
      var pre, e, leaked := base.stack[..|base.stack| - 1], Last(base.stack), db.stack[|base.stack|..];
      assert db.stack == pre + [e] + leaked;
      FindOwn(pre, e, leaked, e.name);
    }
  }

  /** A guard whose commands cannot be read never changes anything when it ends. */
  lemma UnreadableEnds(db: Db, g: Guard, how: Ending, reserved: set<string>)
    requires !Usable(g.name, reserved)
    ensures EndGuard(db, g, how, reserved).0 == db
  {
  }

  /** What is kept above an open savepoint is kept above the stack below it, with that savepoint. */
  lemma KeepsBelow(db: Db, db2: Db, name: string, names: set<string>)
    requires DbOk(db) && Keeps(Open(db, Effective(name)), db2, names)
    ensures Keeps(db, db2, {Key(name)} + names)
  {
    var base := Open(db, Effective(name));
    assert db.stack <= base.stack;
    forall j | 0 <= j < |db2.stack| - |db.stack|
      ensures Lower(db2.stack[|db.stack|..][j].name) in {Key(name)} + names
    {
      if j == 0 {
        assert db2.stack[|db.stack|] == base.stack[|db.stack|];
      } else {
        assert db2.stack[|db.stack|..][j] == db2.stack[|base.stack|..][j - 1];
      }
    }
  }

  /** What a guard around a body leaves: the body's contents if it is to commit and may. */
  function GuardContents(before: Db, inner: Db, behavior: DropBehavior, how: Ending): Contents {
    var allowed := before.stack != [] || before.begun || inner.data.violations == 0;
    if (how.CallCommit? || behavior.Commit?) && allowed then inner.data else before.data
  }

  lemma EndKeeps(db: Db, db2: Db, name: string, behavior: DropBehavior, how: Ending, reserved: set<string>,
                 names: set<string>)
    requires DbOk(db) && Keeps(Open(db, Effective(name)), db2, names)
    requires Opens(name, reserved) && (Usable(name, reserved) ==> Key(name) !in names)
    ensures var (after, _) := EndGuard(db2, Guard(name, behavior, false), how, reserved);
            && Keeps(db, after, if Leaves(name, behavior, reserved) then {Key(name)} + names else {})
            && (!Leaves(name, behavior, reserved) ==> after.stack == db.stack && after.begun == db.begun &&
                                                      after.data == GuardContents(db, db2, behavior, how))
  {
    KeepsBelow(db, db2, name, names);
    if !Usable(name, reserved) {
      UnreadableEnds(db2, Guard(name, behavior, false), how, reserved);
    } else {
      UsableEndKeeps(db, db2, name, behavior, how, reserved, names);
    }
  }

  lemma UsableEndKeeps(db: Db, db2: Db, name: string, behavior: DropBehavior, how: Ending, reserved: set<string>,
                       names: set<string>)
    requires DbOk(db) && Keeps(Open(db, Effective(name)), db2, names)
    requires Usable(name, reserved) && Key(name) !in names
    ensures var (after, _) := EndGuard(db2, Guard(name, behavior, false), how, reserved);
            && Keeps(db, after, if behavior.Ignore? then {Key(name)} + names else {})
            && (!behavior.Ignore? ==> after.stack == db.stack && after.begun == db.begun &&
                                      after.data == GuardContents(db, db2, behavior, how))
  {
    KeepsBelow(db, db2, name, names);
    var e, leaked := Entry(Effective(name), db.data), db2.stack[|db.stack| + 1..];
    var g := Guard(name, behavior, false);
    assert db2.stack == db.stack + [e] + leaked;
    forall j | 0 <= j < |leaked|
      ensures !SameName(leaked[j].name, e.name)
    {
      assert Lower(leaked[j].name) in names;
    }
    if behavior.Ignore? {
      FindOwn(db.stack, e, leaked, e.name);
    } else {
      GuardEnds(db2, g, how, reserved, db.stack, e, leaked);
    }
  }

  /** The transaction that was open is gone; only savepoints that later guards left behind remain. */
  predicate Lost(db: Db, names: set<string>) {
    DbOk(db) && !db.begun && NamesIn(db.stack, names)
  }

  lemma PerformKeepsLost(db: Db, c: Command, reserved: set<string>, names: set<string>)
    requires Lost(db, names) && !c.Savepoint?
    ensures Lost(Perform(db, c, reserved).0, names)
  {
  }

  lemma UndoAndReleaseKeepsLost(db: Db, g: Guard, reserved: set<string>, names: set<string>)
    requires Lost(db, names)
    ensures Lost(UndoAndRelease(db, g, reserved).db, names)
  {
    PerformKeepsLost(db, RollbackTo(g.name), reserved, names);
    PerformKeepsLost(UndoGuard(db, g, reserved).db, Release(g.name), reserved, names);
  }

  lemma FinishKeepsLost(db: Db, g: Guard, reserved: set<string>, names: set<string>)
    requires Lost(db, names)
    ensures Lost(FinishGuard(db, g, reserved).db, names)
  {
    PerformKeepsLost(db, Release(g.name), reserved, names);
    UndoAndReleaseKeepsLost(db, g, reserved, names);
    UndoAndReleaseKeepsLost(ReleaseGuard(db, g, reserved).db, g, reserved, names);
  }

  lemma EndKeepsLost(db: Db, g: Guard, how: Ending, reserved: set<string>, names: set<string>)
    requires Lost(db, names)
    ensures Lost(EndGuard(db, g, how, reserved).0, names)
  {
    PerformKeepsLost(db, Release(g.name), reserved, names);
    FinishKeepsLost(db, g, reserved, names);
    var released, finished := ReleaseGuard(db, g, reserved), FinishGuard(db, g, reserved);
    FinishKeepsLost(released.db, released.guard, reserved, names);
    FinishKeepsLost(finished.db, finished.guard, reserved, names);
  }

  /** A guard whose savepoint is gone changes nothing, and reports an error when ended by a call. */
  lemma LostGuardEnds(db: Db, g: Guard, how: Ending, reserved: set<string>)
    requires Find(db.stack, Effective(g.name)).None? && !g.committed
    ensures EndGuard(db, g, how, reserved) ==
            (db, if how.JustDrop? || (how.CallFinish? && g.behavior.Ignore?) then Ok else Err)
    ensures UndoGuard(db, g, reserved) == GuardResult(db, g, Err)
  {
  }

  lemma Wider(db: Db, m: set<string>, n: set<string>)
    requires Lost(db, m) && m <= n
    ensures Lost(db, n)
  {
  }

  /** Any program, started in a well-formed connection: if no statement of it rolls back by itself,
      it leaves the stack it found with only savepoints that guards left behind on top; if one does, nothing
      of the transaction it found is left. */
  lemma {:induction false} ProgramKeeps(p: Program, base: Db, db: Db, guard: Option<string>, reserved: set<string>,
                                        names: set<string>)
    requires WellScoped(p, reserved) && Keeps(base, db, names) && TopIs(base, guard, reserved)
    ensures var after := RunProgram(p, db, guard, reserved);
            if Aborts(p, db, guard, reserved) then Lost(after, Left(p, reserved))
            else Keeps(base, after, names + Leaks(p, reserved))
    decreases p, 0
  {
    match p
    case Done =>
    case Work(result, next) =>
      ProgramKeeps(next, base, DoWork(db, result), guard, reserved, names);
    case SelfRollback(next) =>
      if Autocommit(db) {
        ProgramKeeps(next, base, db, guard, reserved, names);
      } else {
        LostRun(next, RollbackAll(db).0, guard, reserved, {});
        assert {} + Left(next, reserved) == Left(p, reserved);
      }
    case RollbackHere(next) =>
      if guard.Some? { RollbackKeeps(base, db, guard.value, reserved, names); }
      var db' := if guard.None? then db else UndoGuard(db, Guard(guard.value, Rollback, false), reserved).db;
      ProgramKeeps(next, base, db', guard, reserved, names);
    case Scope(name, body, behavior, how, next) =>
      var db' := RunScope(name, body, behavior, how, db, reserved);
      ScopeKeeps(name, body, behavior, how, db, reserved);
      if AbortsScope(name, body, db, reserved) {
        LostRun(next, db', guard, reserved, Left(body, reserved));
        Wider(RunProgram(next, db', guard, reserved), Left(body, reserved) + Left(next, reserved), Left(p, reserved));
      } else {
        var more := if Leaves(name, behavior, reserved) then {Key(name)} + Leaks(body, reserved) else {};
        KeepsTrans(base, db, db', names, more);
        ProgramKeeps(next, base, db', guard, reserved, names + more);
        assert names + more + Leaks(next, reserved) == names + Leaks(p, reserved);
        if Aborts(next, db', guard, reserved) {
          Wider(RunProgram(next, db', guard, reserved), Left(next, reserved), Left(p, reserved));
        }
      }
  }

  /** Once lost, a transaction stays lost. */
  lemma {:induction false} LostRun(p: Program, db: Db, guard: Option<string>, reserved: set<string>, names: set<string>)
    requires WellScoped(p, reserved) && Lost(db, names)
    ensures Lost(RunProgram(p, db, guard, reserved), names + Left(p, reserved))
    decreases p, 0
  {
    match p
    case Done =>
    case Work(result, next) => LostRun(next, DoWork(db, result), guard, reserved, names);
    case SelfRollback(next) => LostRun(next, RollbackAll(db).0, guard, reserved, names);
    case RollbackHere(next) =>
      if guard.Some? { PerformKeepsLost(db, RollbackTo(guard.value), reserved, names); }
      var db' := if guard.None? then db else UndoGuard(db, Guard(guard.value, Rollback, false), reserved).db;
      LostRun(next, db', guard, reserved, names);
    case Scope(name, body, behavior, how, next) =>
      var db' := RunScope(name, body, behavior, how, db, reserved);
      var own := (if Leaves(name, behavior, reserved) then {Key(name)} else {}) + Left(body, reserved);
      var more := if Leaves(name, behavior, reserved) then {Key(name)} + Leaks(body, reserved) else {};
      ScopeKeeps(name, body, behavior, how, db, reserved);
      LeaksAreLeft(body, reserved);
      if AbortsScope(name, body, db, reserved) {
        Wider(db', Left(body, reserved), names + own);
      } else {
        KeptIsLost(db, db', names, more);
        Wider(db', names + more, names + own);
      }
      LostRun(next, db', guard, reserved, names + own);
      assert names + own + Left(next, reserved) == names + Left(p, reserved);
  }

  lemma KeptIsLost(a: Db, b: Db, m: set<string>, n: set<string>)
    requires Lost(a, m) && Keeps(a, b, n)
    ensures Lost(b, m + n)
  {
    forall j | 0 <= j < |b.stack|
      ensures Lower(b.stack[j].name) in m + n
    {
      if j < |a.stack| {
        assert b.stack[j] == a.stack[j];
      } else {
        assert b.stack[j] == b.stack[|a.stack|..][j - |a.stack|];
      }
    }
  }

  lemma KeepsTrans(a: Db, b: Db, c: Db, m: set<string>, n: set<string>)
    requires Keeps(a, b, m) && Keeps(b, c, n)
    ensures Keeps(a, c, m + n)
  {
    forall j | 0 <= j < |c.stack| - |a.stack|
      ensures Lower(c.stack[|a.stack|..][j].name) in m + n
    {
      var k := |a.stack| + j;
      if k < |b.stack| {
        assert c.stack[k] == b.stack[k] && b.stack[k] == b.stack[|a.stack|..][j];
      } else {
        assert c.stack[k] == c.stack[|b.stack|..][k - |b.stack|];
      }
    }
  }

  lemma OpenedScope(name: string, body: Program, behavior: DropBehavior, how: Ending, db: Db, reserved: set<string>)
    requires Opens(name, reserved)
    ensures RunScope(name, body, behavior, how, db, reserved) ==
            EndGuard(RunProgram(body, Open(db, Effective(name)), Some(name), reserved),
                     Guard(name, behavior, false), how, reserved).0
    ensures AbortsScope(name, body, db, reserved) <==> Aborts(body, Open(db, Effective(name)), Some(name), reserved)
  {
  }

  lemma OpenTops(db: Db, name: string, reserved: set<string>)
    requires DbOk(db)
    ensures var base := Open(db, Effective(name)); Keeps(base, base, {}) && TopIs(base, Some(name), reserved)
  {
  }

  /** One guard around any well-scoped body. A guard whose SAVEPOINT is refused changes nothing.
      Otherwise, if no statement of the body rolls back by itself, then, unless the guard leaves
      its savepoint behind, the stack is exactly as before and the contents are those at its end
      if it is to commit and may, and otherwise those at its creation. If one does, the whole
      transaction around the guard is gone. */
  lemma {:induction false} ScopeKeeps(name: string, body: Program, behavior: DropBehavior, how: Ending, db: Db,
                                      reserved: set<string>)
    requires DbOk(db) && ScopeOk(name, body, reserved)
    ensures var inner := RunProgram(body, Open(db, Effective(name)), Some(name), reserved);
            var after := RunScope(name, body, behavior, how, db, reserved);
            if !Opens(name, reserved) then after == db && !AbortsScope(name, body, db, reserved)
            else if AbortsScope(name, body, db, reserved) then Lost(after, Left(body, reserved))
            else
              && Keeps(db, after, if Leaves(name, behavior, reserved) then {Key(name)} + Leaks(body, reserved) else {})
              && (!Leaves(name, behavior, reserved) ==> after.stack == db.stack && after.begun == db.begun &&
                                                        after.data == GuardContents(db, inner, behavior, how))
    decreases body, 1
  {
    if Opens(name, reserved) {
      var base := Open(db, Effective(name));
      OpenedScope(name, body, behavior, how, db, reserved);
      OpenTops(db, name, reserved);
      ProgramKeeps(body, base, base, Some(name), reserved, {});
      assert {} + Leaks(body, reserved) == Leaks(body, reserved);
      var inner := RunProgram(body, base, Some(name), reserved);
      if AbortsScope(name, body, db, reserved) {
        EndKeepsLost(inner, Guard(name, behavior, false), how, reserved, Left(body, reserved));
      } else {
        EndKeeps(db, inner, name, behavior, how, reserved, Leaks(body, reserved));
      }
    }
  }

  /** The condition is needed: a guard whose body leaves an equally named savepoint open removes
      that one instead and stays open itself, for every contents and every name. */
  lemma IgnoredTwinBreaksTheGuard(name: string, how: Ending, behavior: DropBehavior, db: Db, reserved: set<string>)
    requires DbOk(db) && Usable(name, reserved) && !behavior.Ignore?
    ensures var twin := Scope(name, Done, Ignore, JustDrop, Done);
            RunScope(name, twin, behavior, how, db, reserved).stack == db.stack + [Entry(Effective(name), db.data)]
  {
    var one := Open(db, Effective(name));
    var two := Open(one, Effective(name));
    var e := Entry(Effective(name), db.data);
    var g := Guard(name, behavior, false);
    assert RunScope(name, Done, Ignore, JustDrop, one, reserved) == two;
    assert RunProgram(Done, two, Some(name), reserved) == two;
    assert RunProgram(Scope(name, Done, Ignore, JustDrop, Done), one, Some(name), reserved) == two;
    assert two.stack == one.stack + [e] + [];
    FindOwn(one.stack, e, [], e.name);
    GuardEnds(two, g, how, reserved, one.stack, e, []);
  }

  // ---------------------------------------------------------------- the transaction guard

  /** No guard touches what BEGIN opened, and every guard keeps the connection well-formed. */
  predicate SameTransaction(before: Db, after: Db) {
    after.begun == before.begun && after.start == before.start && (DbOk(before) ==> DbOk(after))
  }

  lemma PerformSame(db: Db, c: Command, reserved: set<string>)
    ensures SameTransaction(db, Perform(db, c, reserved).0)
  {
  }

  lemma UndoAndReleaseSame(db: Db, g: Guard, reserved: set<string>)
    ensures SameTransaction(db, UndoAndRelease(db, g, reserved).db)
  {
    PerformSame(db, RollbackTo(g.name), reserved);
    PerformSame(UndoGuard(db, g, reserved).db, Release(g.name), reserved);
  }

  lemma FinishSame(db: Db, g: Guard, reserved: set<string>)
    ensures SameTransaction(db, FinishGuard(db, g, reserved).db)
  {
    PerformSame(db, Release(g.name), reserved);
    UndoAndReleaseSame(db, g, reserved);
    UndoAndReleaseSame(ReleaseGuard(db, g, reserved).db, g, reserved);
  }

  lemma EndSame(db: Db, g: Guard, how: Ending, reserved: set<string>)
    ensures SameTransaction(db, EndGuard(db, g, how, reserved).0)
  {
    PerformSame(db, Release(g.name), reserved);
    FinishSame(db, g, reserved);
    var released, finished := ReleaseGuard(db, g, reserved), FinishGuard(db, g, reserved);
    FinishSame(released.db, released.guard, reserved);
    FinishSame(finished.db, finished.guard, reserved);
  }

  /** A transaction that BEGIN opened is still open after any program, whatever its guards are
      named and however they are dropped, exactly when no statement rolled back by itself. */
  lemma {:induction false} StillBegunIff(p: Program, db: Db, guard: Option<string>, reserved: set<string>)
    ensures var after := RunProgram(p, db, guard, reserved);
            && (after.begun <==> db.begun && !Aborts(p, db, guard, reserved))
            && after.start == db.start && (DbOk(db) ==> DbOk(after))
  {
    match p
    case Done =>
    case Work(result, next) => StillBegunIff(next, DoWork(db, result), guard, reserved);
    case SelfRollback(next) => StillBegunIff(next, RollbackAll(db).0, guard, reserved);
    case RollbackHere(next) =>
      if guard.Some? { PerformSame(db, RollbackTo(guard.value), reserved); }
      var db' := if guard.None? then db else UndoGuard(db, Guard(guard.value, Rollback, false), reserved).db;
      StillBegunIff(next, db', guard, reserved);
    case Scope(name, body, behavior, how, next) =>
      var (inner, r) := Perform(db, Savepoint(name), reserved);
      PerformSame(db, Savepoint(name), reserved);
      if r.Ok? {
        StillBegunIff(body, inner, Some(name), reserved);
        EndSame(RunProgram(body, inner, Some(name), reserved), Guard(name, behavior, false), how, reserved);
      }
      StillBegunIff(next, RunScope(name, body, behavior, how, db, reserved), guard, reserved);
  }

  /** What rolling back now would return to. */
  function TransactionStart(db: Db): Contents {
    if db.begun then db.start else if db.stack != [] then db.stack[0].saved else db.data
  }

  /** What the guard's destructor leaves, by drop behaviour, if it finds a transaction open. */
  function ContentsLeft(last: Db, behavior: DropBehavior): Contents {
    if behavior.Rollback? || (behavior.Commit? && last.data.violations > 0) then TransactionStart(last) else last.data
  }

  /**
   A transaction guard around any program, even one that leaks savepoints or rolls back by itself:
   ended with Commit or Rollback behaviour, the connection is back in autocommit with no savepoint
   left. An explicit commit succeeds exactly when a transaction is still open and no violations are
   outstanding, an explicit rollback exactly when one is still open. Dropped or finished, the guard
   keeps the contents at the end if it is to commit and may, and otherwise those at the start; with
   Ignore it changes nothing. If no statement rolled back by itself, a transaction is open and its
   start is the BEGIN; if none is open, the guard changes nothing.
   */
  lemma TransactionEnds(p: Program, db: Db, behavior: DropBehavior, how: TransactionEnding, reserved: set<string>)
    requires DbOk(db) && Autocommit(db)
    ensures var (begun, r) := Begin(db);
            var last := RunProgram(p, begun, None, reserved);
            var (after, result) := EndTransaction(last, behavior, how);
            && r.Ok? && DbOk(after) && (!behavior.Ignore? ==> Autocommit(after))
            && (how.TryCommit? ==> (result.Ok? <==> !Autocommit(last) && last.data.violations == 0))
            && (how.TryCommit? && result.Ok? ==> Autocommit(after) && after.data == last.data)
            && (how.TryRollback? ==> (result.Ok? <==> !Autocommit(last)))
            && (how.TryRollback? ==> Autocommit(after) && after.data == TransactionStart(last))
            && (how.TryFinish? || how.OnlyDrop? ==> result.Ok?)
            && (how.TryFinish? || how.OnlyDrop? || (how.TryCommit? && result.Err?) ==>
                  if Autocommit(last) || behavior.Ignore? then after == last
                  else after.data == ContentsLeft(last, behavior))
            && (last.begun <==> !Aborts(p, begun, None, reserved))
            && (last.begun ==> !Autocommit(last) && TransactionStart(last) == db.data)
  {
    StillBegunIff(p, Begin(db).0, None, reserved);
  }

  /** The clauses about commit and rollback do need the open transaction: one statement that rolls
      back by itself makes both fail with no violations outstanding. */
  lemma SelfRollbackFailsCommit(db: Db, behavior: DropBehavior, reserved: set<string>)
    requires DbOk(db) && Autocommit(db)
    ensures var last := RunProgram(SelfRollback(Done), Begin(db).0, None, reserved);
            && last.data == db.data && last.data.violations == 0
            && EndTransaction(last, behavior, TryCommit).1 == Err
            && EndTransaction(last, behavior, TryRollback).1 == Err
  {
    assert RunProgram(Done, RollbackAll(Begin(db).0).0, None, reserved) == RollbackAll(Begin(db).0).0;
  }
}
