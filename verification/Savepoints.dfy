/**
 SQLite's transaction stack and the RAII guards of src/transaction.rs that drive it with SQL text.
 A connection holds its contents, whether BEGIN opened a transaction, and a stack of named
 snapshots. `violations` counts outstanding deferred constraint violations: a commit is refused
 while there are any.
 */
module Savepoints {
  import opened Common
  import opened Strings
  import opened SqlText

  datatype Contents = Contents(image: int, violations: nat)
  datatype Entry = Entry(name: string, saved: Contents)
  datatype Db = Db(data: Contents, begun: bool, start: Contents, stack: seq<Entry>)

  predicate Autocommit(db: Db) {
    !db.begun && db.stack == []
  }

  /** Whatever a transaction would return to is a committed state, without violations. */
  predicate DbOk(db: Db) {
    && (Autocommit(db) ==> db.data.violations == 0)
    && (db.begun ==> db.start.violations == 0)
    && (!db.begun && db.stack != [] ==> db.stack[0].saved.violations == 0)
  }

  predicate SameName(a: string, b: string) {
    Lower(a) == Lower(b)
  }

  /** The position of the most recent savepoint with this name. */
  function Find(stack: seq<Entry>, name: string): (r: Option<nat>)
    ensures r.Some? ==> r.value < |stack| && SameName(stack[r.value].name, name)
    ensures r.Some? ==> forall j :: r.value < j < |stack| ==> !SameName(stack[j].name, name)
    ensures r.None? ==> forall j :: 0 <= j < |stack| ==> !SameName(stack[j].name, name)
  {
    if stack == [] then None
    else if SameName(Last(stack).name, name) then Some(|stack| - 1)
    else Find(stack[..|stack| - 1], name)
  }

  function Open(db: Db, name: string): Db {
    db.(stack := db.stack + [Entry(name, db.data)])
  }

  function Close(db: Db, name: string): (Db, Outcome) {
    match Find(db.stack, name)
    case None => (db, Err)
    case Some(i) =>
      if i == 0 && !db.begun && db.data.violations > 0 then (db, Err)
      else (db.(stack := db.stack[..i]), Ok)
  }

  function Restore(db: Db, name: string): (Db, Outcome) {
    match Find(db.stack, name)
    case None => (db, Err)
    case Some(i) => (db.(data := db.stack[i].saved, stack := db.stack[..i + 1]), Ok)
  }

  function Begin(db: Db): (Db, Outcome) {
    if Autocommit(db) then (db.(begun := true, start := db.data), Ok) else (db, Err)
  }

  function CommitAll(db: Db): (Db, Outcome) {
    if Autocommit(db) || db.data.violations > 0 then (db, Err)
    else (db.(begun := false, stack := []), Ok)
  }

  function RollbackAll(db: Db): (Db, Outcome) {
    if Autocommit(db) then (db, Err)
    else (Db(if db.begun then db.start else db.stack[0].saved, false, db.start, []), Ok)
  }

  function Apply(db: Db, c: Command): (Db, Outcome) {
    match c
    case Savepoint(name) => (Open(db, name), Ok)
    case Release(name) => Close(db, name)
    case RollbackTo(name) => Restore(db, name)
  }

  /** What a connection does with the text of a transaction command. */
  function Execute(db: Db, sql: string, reserved: set<string>): (Db, Outcome) {
    match Read(sql, reserved)
    case Some(c) => Apply(db, c)
    case None =>
      if sql == "BEGIN DEFERRED" || sql == "BEGIN IMMEDIATE" || sql == "BEGIN EXCLUSIVE" then Begin(db)
      else if sql == "COMMIT" then CommitAll(db)
      else if sql == "ROLLBACK" then RollbackAll(db)
      else (db, Err)
  }

  /** The effect of a command whose name the caller chose. */
  function Perform(db: Db, c: Command, reserved: set<string>): (Db, Outcome) {
    match Recover(c, reserved)
    case Some(c') => Apply(db, c')
    case None => (db, Err)
  }

  lemma ExecutePrinted(db: Db, c: Command, reserved: set<string>)
    ensures Execute(db, Print(c), reserved) == Perform(db, c, reserved)
  {
    PrintThenRead(c, reserved);
    PrintedIsNotPlain(c);
  }

  /** Printed commands are none of the plain ones: they start differently, or are longer. */
  lemma PrintedIsNotPlain(c: Command)
    ensures Print(c) != "COMMIT" && Print(c) != "ROLLBACK"
    ensures Print(c) != "BEGIN DEFERRED" && Print(c) != "BEGIN IMMEDIATE" && Print(c) != "BEGIN EXCLUSIVE"
  {
    var head := Head(c);
    assert Print(c)[0] == head[0] && Print(c)[1] == head[1] && |Print(c)| >= |head|;
  }

  datatype DropBehavior = Rollback | Commit | Ignore

  /** The state of a savepoint guard besides its connection. */
  datatype Guard = Guard(name: string, behavior: DropBehavior, committed: bool)

  datatype GuardResult = GuardResult(db: Db, guard: Guard, outcome: Outcome)

  function ReleaseGuard(db: Db, g: Guard, reserved: set<string>): GuardResult {
    var (db', r) := Perform(db, Release(g.name), reserved);
    GuardResult(db', if r.Ok? then g.(committed := true) else g, r)
  }

  function UndoGuard(db: Db, g: Guard, reserved: set<string>): GuardResult {
    var (db', r) := Perform(db, RollbackTo(g.name), reserved);
    GuardResult(db', g, r)
  }

  function UndoAndRelease(db: Db, g: Guard, reserved: set<string>): GuardResult {
    var undone := UndoGuard(db, g, reserved);
    if undone.outcome.Err? then undone else ReleaseGuard(undone.db, g, reserved)
  }

  function FinishGuard(db: Db, g: Guard, reserved: set<string>): GuardResult {
    if g.committed then GuardResult(db, g, Ok)
    else match g.behavior
      case Commit =>
        var released := ReleaseGuard(db, g, reserved);
        if released.outcome.Ok? then released else UndoAndRelease(released.db, g, reserved)
      case Rollback => UndoAndRelease(db, g, reserved)
      case Ignore => GuardResult(db, g, Ok)
  }

  /** The three ways a guard ends; each runs the destructor, so `finish` finishes twice. */
  datatype Ending = CallCommit | CallFinish | JustDrop

  function EndGuard(db: Db, g: Guard, how: Ending, reserved: set<string>): (Db, Outcome) {
    match how
    case JustDrop => (FinishGuard(db, g, reserved).db, Ok)
    case CallCommit =>
      var r := ReleaseGuard(db, g, reserved);
      (FinishGuard(r.db, r.guard, reserved).db, r.outcome)
    case CallFinish =>
      var r := FinishGuard(db, g, reserved);
      (FinishGuard(r.db, r.guard, reserved).db, r.outcome)
  }

  // ---------------------------------------------------------------- the imperative guards

  /** A connection; `keywords` are the words SQLite's keyword check knows. */
  class Connection {
    var db: Db
    const reserved: set<string>
    const keywords: set<string>

    predicate KnowsKeywords() {
      {"SAVEPOINT", "RELEASE", "ROLLBACK", "TO"} <= keywords
    }

    constructor (data: Contents, reserved: set<string>, keywords: set<string>)
      requires data.violations == 0
      ensures Autocommit(db) && DbOk(db) && db.data == data
      ensures this.reserved == reserved && this.keywords == keywords
    {
      db := Db(data, false, data, []);
      this.reserved, this.keywords := reserved, keywords;
    }

    method ExecuteBatch(sql: string) returns (r: Outcome)
      modifies this
      ensures (db, r) == Execute(old(db), sql, reserved)
    {
      var next := Execute(db, sql, reserved);
      db := next.0;
      r := next.1;
    }
  }

  class SavepointGuard {
    const conn: Connection
    const name: string
    var dropBehavior: DropBehavior
    var committed: bool

    ghost function State(): Guard
      reads this
    {
      Guard(name, dropBehavior, committed)
    }

    constructor (conn: Connection, name: string)
      ensures this.conn == conn && State() == Guard(name, Rollback, false)
    {
      this.conn, this.name := conn, name;
      dropBehavior, committed := Rollback, false;
    }

    /** Creates the savepoint; no guard exists when SQLite refuses the command. */
    static method WithName(conn: Connection, name: string) returns (r: Option<SavepointGuard>)
      requires conn.KnowsKeywords()
      modifies conn
      ensures conn.db == Perform(old(conn.db), Savepoint(name), conn.reserved).0
      ensures r.Some? <==> Perform(old(conn.db), Savepoint(name), conn.reserved).1.Ok?
      ensures r.Some? ==> fresh(r.value) && r.value.conn == conn && r.value.State() == Guard(name, Rollback, false)
    {
      var sql := Cmd("SAVEPOINT", false, name, conn.keywords);
      if sql.None? { return None; }
      ExecutePrinted(conn.db, Savepoint(name), conn.reserved);
      var done := conn.ExecuteBatch(sql.value);
      if done.Err? { return None; }
      var guard := new SavepointGuard(conn, name);
      r := Some(guard);
    }

    method Release() returns (r: Outcome)
      requires conn.KnowsKeywords()
      modifies this, conn
      ensures GuardResult(conn.db, State(), r) == ReleaseGuard(old(conn.db), old(State()), conn.reserved)
    {
      var sql := Cmd("RELEASE", false, name, conn.keywords);
      if sql.None? { return Err; }
      ExecutePrinted(conn.db, SqlText.Release(name), conn.reserved);
      r := conn.ExecuteBatch(sql.value);
      if r.Ok? { committed := true; }
    }

    method Undo() returns (r: Outcome)
      requires conn.KnowsKeywords()
      modifies conn
      ensures GuardResult(conn.db, State(), r) == UndoGuard(old(conn.db), old(State()), conn.reserved)
    {
      var sql := Cmd("ROLLBACK", true, name, conn.keywords);
      if sql.None? { return Err; }
      ExecutePrinted(conn.db, RollbackTo(name), conn.reserved);
      r := conn.ExecuteBatch(sql.value);
    }

    method FinishOnce() returns (r: Outcome)
      requires conn.KnowsKeywords()
      modifies this, conn
      ensures GuardResult(conn.db, State(), r) == FinishGuard(old(conn.db), old(State()), conn.reserved)
    {
      if committed { return Ok; }
      match dropBehavior {
        case Ignore => return Ok;
        case Commit =>
          r := Release();
          if r.Ok? { return; }
        case Rollback =>
      }
      r := Undo();
      if r.Ok? { r := Release(); }
    }

    method End(how: Ending) returns (r: Outcome)
      requires conn.KnowsKeywords()
      modifies this, conn
      ensures (conn.db, r) == EndGuard(old(conn.db), old(State()), how, conn.reserved)
    {
      r := Ok;
      match how {
        case CallCommit => r := Release();
        case CallFinish => r := FinishOnce();
        case JustDrop =>
      }
      var _ := FinishOnce();
    }
  }

  // ---------------------------------------------------------------- the transaction guard

  datatype TransactionEnding = TryCommit | TryRollback | TryFinish | OnlyDrop

  function FinishTransaction(db: Db, behavior: DropBehavior): (Db, Outcome) {
    if Autocommit(db) then (db, Ok)
    else match behavior
      case Commit => var (db', r) := CommitAll(db); if r.Ok? then (db', r) else RollbackAll(db')
      case Rollback => RollbackAll(db)
      case Ignore => (db, Ok)
  }

  function EndTransaction(db: Db, behavior: DropBehavior, how: TransactionEnding): (Db, Outcome) {
    var (db', r) :=
      match how
      case TryCommit => CommitAll(db)
      case TryRollback => RollbackAll(db)
      case TryFinish => FinishTransaction(db, behavior)
      case OnlyDrop => (db, Ok);
    (FinishTransaction(db', behavior).0, r)
  }

  datatype TransactionBehavior = Deferred | Immediate | Exclusive

  /** A transaction cannot be begun inside an open transaction or savepoint. */
  class TransactionGuard {
    const conn: Connection
    var dropBehavior: DropBehavior

    constructor (conn: Connection)
      ensures this.conn == conn && dropBehavior == Rollback
    {
      this.conn := conn;
      dropBehavior := Rollback;
    }

    static method NewUnchecked(conn: Connection, behavior: TransactionBehavior) returns (r: Option<TransactionGuard>)
      modifies conn
      ensures conn.db == Begin(old(conn.db)).0
      ensures r.Some? <==> Autocommit(old(conn.db))
      ensures r.Some? ==> fresh(r.value) && r.value.conn == conn && r.value.dropBehavior == Rollback
    {
      var query :=
        match behavior
        case Deferred => "BEGIN DEFERRED"
        case Immediate => "BEGIN IMMEDIATE"
        case Exclusive => "BEGIN EXCLUSIVE";
      ghost var mode := match behavior
        case Deferred => "DEFERRED"
        case Immediate => "IMMEDIATE"
        case Exclusive => "EXCLUSIVE";
      BeginCommand(conn.db, query, mode, conn.reserved);
      var done := conn.ExecuteBatch(query);
      if done.Err? { return None; }
      var guard := new TransactionGuard(conn);
      r := Some(guard);
    }

    method FinishOnce() returns (r: Outcome)
      modifies conn
      ensures (conn.db, r) == FinishTransaction(old(conn.db), dropBehavior)
    {
      if Autocommit(conn.db) { return Ok; }
      PlainCommands(conn.db, conn.reserved);
      match dropBehavior {
        case Commit =>
          r := conn.ExecuteBatch("COMMIT");
          if r.Err? {
            PlainCommands(conn.db, conn.reserved);
            r := conn.ExecuteBatch("ROLLBACK");
          }
        case Rollback => r := conn.ExecuteBatch("ROLLBACK");
        case Ignore => r := Ok;
      }
    }

    method End(how: TransactionEnding) returns (r: Outcome)
      modifies conn
      ensures (conn.db, r) == EndTransaction(old(conn.db), dropBehavior, how)
    {
      PlainCommands(conn.db, conn.reserved);
      r := Ok;
      match how {
        case TryCommit => r := conn.ExecuteBatch("COMMIT");
        case TryRollback => r := conn.ExecuteBatch("ROLLBACK");
        case TryFinish => r := FinishOnce();
        case OnlyDrop =>
      }
      var _ := FinishOnce();
    }
  }

  lemma PlainCommands(db: Db, reserved: set<string>)
    ensures Execute(db, "COMMIT", reserved) == CommitAll(db)
    ensures Execute(db, "ROLLBACK", reserved) == RollbackAll(db)
  {
    NotASavepointCommand("COMMIT", "", reserved);
    NotASavepointCommand("ROLLBACK", "", reserved);
  }

  lemma ModeWords(mode: string)
    requires mode == "DEFERRED" || mode == "IMMEDIATE" || mode == "EXCLUSIVE"
    ensures IsIdentifier(mode) && mode != "" && mode[0] != BOM
  {
  }

  lemma BeginCommand(db: Db, query: string, mode: string, reserved: set<string>)
    requires mode == "DEFERRED" || mode == "IMMEDIATE" || mode == "EXCLUSIVE"
    requires query == "BEGIN" + " " + mode
    requires query == "BEGIN DEFERRED" || query == "BEGIN IMMEDIATE" || query == "BEGIN EXCLUSIVE"
    ensures Execute(db, query, reserved) == Begin(db)
  {
    ModeWords(mode);
    NotASavepointCommand("BEGIN", mode, reserved);
  }

  lemma CommandWord(w: string)
    requires w == "COMMIT" || w == "ROLLBACK" || w == "BEGIN"
    ensures IsIdentifier(w)
  {
  }

  lemma NotASavepointCommand(w: string, x: string, reserved: set<string>)
    requires w == "COMMIT" || w == "ROLLBACK" || w == "BEGIN"
    requires x == "" || (w == "BEGIN" && IsIdentifier(x) && x[0] != BOM)
    ensures Read(if x == "" then w else w + " " + x, reserved) == None
  {
    CommandWord(w);
    assert Lower(w)[0] == LowerChar(w[0]) && Lower(w)[1] == LowerChar(w[1]);
    if x == "" {
      LexWord(w, "");
      assert w + "" == w;
      assert [Word(w)] + [] == [Word(w)];
    } else {
      LexWord(x, "");
      assert x + "" == x;
      assert [Word(x)] + [] == [Word(x)];
      LexAfterKeyword(w, x);
    }
  }
}
