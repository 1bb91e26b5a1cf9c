/**
 Running SQL text that holds several statements. The engine decides where a statement ends, and
 its answer may depend on the database, which earlier statements have changed.
 */
module Batch {
  import opened Common

  /** What compiling the front of a text gives. `end` is where the rest starts, if reported. */
  datatype Compiled<+T> = Failed | Compiled(stmt: Option<T>, end: Option<int>)

  datatype Engine<!S, !T> = Engine(compile: (S, string) -> Compiled<T>, step: (S, T) -> (S, bool))

  /** The reported end, or 0 when there is nothing left: the only positions used are inside the text. */
  function Tail(sql: string, end: Option<int>): (r: nat)
    ensures r == 0 || r < |sql|
  {
    if end.None? || end.value <= 0 || end.value >= |sql| then 0 else end.value
  }

  // ---------------------------------------------------------------- the reference

  /** A run: the pieces of text compiled, the statements stepped, the state they left, success. */
  datatype Run<S, T> = Run(pieces: seq<string>, stepped: seq<T>, state: S, ok: bool)

  function Then<S, T>(piece: string, stepped: seq<T>, rest: Run<S, T>): Run<S, T> {
    Run([piece] + rest.pieces, stepped + rest.stepped, rest.state, rest.ok)
  }

  /** Compile the front, step it if it is not empty, go on with the rest in the new state. */
  function RunAll<S, T>(e: Engine<S, T>, s: S, sql: string): Run<S, T>
    decreases |sql|
  {
    if sql == "" then Run([], [], s, true)
    else
      match e.compile(s, sql)
      case Failed => Run([], [], s, false)
      case Compiled(None, end) =>
        var t := Tail(sql, end);
        if t == 0 then Run([sql], [], s, true) else Then(sql[..t], [], RunAll(e, s, sql[t..]))
      case Compiled(Some(stmt), end) =>
        var t, after := Tail(sql, end), e.step(s, stmt);
        if !after.1 then Run([if t == 0 then sql else sql[..t]], [stmt], after.0, false)
        else if t == 0 then Run([sql], [stmt], after.0, true)
        else Then(sql[..t], [stmt], RunAll(e, after.0, sql[t..]))
  }

  function Flatten(pieces: seq<string>): string {
    if pieces == [] then "" else pieces[0] + Flatten(pieces[1..])
  }

  lemma FlattenCons(piece: string, rest: seq<string>)
    ensures Flatten([piece] + rest) == piece + Flatten(rest)
  {
    assert ([piece] + rest)[1..] == rest;
  }

  /** A successful run compiles the whole text, piece after piece; a failed one some front of it. */
  lemma {:induction false} NothingSkipped<S, T>(e: Engine<S, T>, s: S, sql: string)
    ensures Flatten(RunAll(e, s, sql).pieces) <= sql
    ensures RunAll(e, s, sql).ok ==> Flatten(RunAll(e, s, sql).pieces) == sql
    decreases |sql|
  {
    var c := if sql == "" then Failed else e.compile(s, sql);
    if c.Compiled? {
      var t := Tail(sql, c.end);
      var piece := if t == 0 then sql else sql[..t];
      var after := if c.stmt.None? then (s, true) else e.step(s, c.stmt.value);
      if after.1 && t != 0 {
        NothingSkipped(e, after.0, sql[t..]);
        FlattenCons(piece, RunAll(e, after.0, sql[t..]).pieces);
        assert sql == sql[..t] + sql[t..];
      } else {
        FlattenCons(piece, []);
        assert [piece] + [] == [piece];
      }
    }
  }

  // ---------------------------------------------------------------- what the engine says

  /** The reported end leaves something behind it. */
  predicate EndsInside(end: Option<int>, n: nat) {
    end.Some? && 0 < end.value < n
  }

  function After<S, T>(e: Engine<S, T>, s: S, stmt: Option<T>): S {
    if stmt.None? then s else e.step(s, stmt.value).0
  }

  function StateAfter<S, T>(e: Engine<S, T>, s: S, stmts: seq<Option<T>>): S {
    if stmts == [] then s else StateAfter(e, After(e, s, stmts[0]), stmts[1..])
  }

  function Statements<T>(stmts: seq<Option<T>>): seq<T> {
    if stmts == [] then []
    else (if stmts[0].None? then [] else [stmts[0].value]) + Statements(stmts[1..])
  }

  /** The front of a text, cut where the engine reports the ends: compiling the text from each piece on,
      in the state left by the statements before it, gives that piece's statement and the piece's
      length, and stepping the statement succeeds. */
  ghost predicate CutsAs<S, T>(e: Engine<S, T>, s: S, pieces: seq<string>, stmts: seq<Option<T>>, rest: string) {
    |pieces| == |stmts| && rest != "" &&
    (pieces != [] ==>
       && pieces[0] != "" && e.compile(s, Flatten(pieces) + rest) == Compiled(stmts[0], Some(|pieces[0]|))
       && (stmts[0].Some? ==> e.step(s, stmts[0].value).1)
       && CutsAs(e, After(e, s, stmts[0]), pieces[1..], stmts[1..], rest))
  }

  lemma FlattenRest(pieces: seq<string>, rest: string)
    requires pieces != []
    ensures var sql := Flatten(pieces) + rest;
            sql[..|pieces[0]|] == pieces[0] && sql[|pieces[0]|..] == Flatten(pieces[1..]) + rest
  {
    Associates(pieces[0], Flatten(pieces[1..]), rest);
    CutAfter(pieces[0], Flatten(pieces[1..]) + rest);
  }

  lemma CutAfter(a: string, b: string)
    ensures (a + b)[..|a|] == a && (a + b)[|a|..] == b
  {
  }

  /** The pieces the engine reports are run one after the other, none twice and none skipped. */
  lemma {:induction false} RunsFront<S, T>(e: Engine<S, T>, s: S, pieces: seq<string>, stmts: seq<Option<T>>,
                                            rest: string)
    requires CutsAs(e, s, pieces, stmts, rest)
    ensures var run, last := RunAll(e, s, Flatten(pieces) + rest), RunAll(e, StateAfter(e, s, stmts), rest);
            run == Run(pieces + last.pieces, Statements(stmts) + last.stepped, last.state, last.ok)
    decreases |pieces|
  {
    if pieces == [] {
      assert Flatten(pieces) + rest == rest;
      var last := RunAll(e, s, rest);
      assert [] + last.pieces == last.pieces && [] + last.stepped == last.stepped;
    } else {
      FlattenRest(pieces, rest);
      var next := After(e, s, stmts[0]);
      RunsFront(e, next, pieces[1..], stmts[1..], rest);
      var last := RunAll(e, StateAfter(e, next, stmts[1..]), rest);
      assert [pieces[0]] + (pieces[1..] + last.pieces) == pieces + last.pieces;
      var own := if stmts[0].None? then [] else [stmts[0].value];
      Associates(own, Statements(stmts[1..]), last.stepped);
    }
  }

  /**
   A batch does what the engine says, told from the engine alone. After a front cut at the reported
   ends, a piece that does not compile, or whose statement fails, ends the run there with an error;
   a piece with nothing reported behind it ends it with success. Exactly the statements before it,
   and its own, were stepped, in order.
   */
  lemma BatchFollowsEngine<S, T>(e: Engine<S, T>, s: S, pieces: seq<string>, stmts: seq<Option<T>>, rest: string)
    requires CutsAs(e, s, pieces, stmts, rest)
    ensures var run := RunAll(e, s, Flatten(pieces) + rest);
            var before, at := Statements(stmts), StateAfter(e, s, stmts);
            var c := e.compile(at, rest);
            if c.Failed? then !run.ok && run.stepped == before && run.state == at
            else if c.stmt.None? then !EndsInside(c.end, |rest|) ==> run.ok && run.stepped == before && run.state == at
            else
              var after := e.step(at, c.stmt.value);
              if !after.1 then !run.ok && run.stepped == before + [c.stmt.value] && run.state == after.0
              else !EndsInside(c.end, |rest|) ==>
                     run.ok && run.stepped == before + [c.stmt.value] && run.state == after.0
  {
    RunsFront(e, s, pieces, stmts, rest);
  }

  /** What is left to run from `rest` completes, from here, the whole run that began after `before`. */
  ghost predicate Completes<S, T>(e: Engine<S, T>, run: Run<S, T>, before: seq<T>, s: S, stepped: seq<T>,
                                  rest: string) {
    var r := RunAll(e, s, rest);
    run.state == r.state && run.ok == r.ok && before + run.stepped == stepped + r.stepped
  }

  // ---------------------------------------------------------------- running a batch in one call

  class Connection<S(0), T(0)> {
    const engine: Engine<S, T>
    var state: S
    /** Statements stepped so far. */
    ghost var stepped: seq<T>

    constructor (engine: Engine<S, T>, state: S)
      ensures this.engine == engine && this.state == state && stepped == []
    {
      this.engine, this.state, stepped := engine, state, [];
    }

    method Step(stmt: T) returns (ok: bool)
      modifies this
      ensures (state, ok) == engine.step(old(state), stmt) && stepped == old(stepped) + [stmt]
    {
      var (after, done) := engine.step(state, stmt);
      state, stepped, ok := after, stepped + [stmt], done;
    }

    method ExecuteBatch(text: string) returns (ok: bool)
      modifies this
      ensures var run := RunAll(engine, old(state), text);
              state == run.state && ok == run.ok && stepped == old(stepped) + run.stepped
    {
      var sql := text;
      ghost var run := RunAll(engine, state, text);
      while sql != ""
        invariant Completes(engine, run, old(stepped), state, stepped, sql)
        decreases |sql|
      {
        var c := engine.compile(state, sql);
        if c.Failed? { return false; }
        if c.stmt.Some? {
          var done := Step(c.stmt.value);
          if !done { return false; }
        }
        var tail := Tail(sql, c.end);
        if tail == 0 { return true; }
        sql := sql[tail..];
      }
      return true;
    }
  }

  // ---------------------------------------------------------------- one statement at a time

  /** What the iterator yields: an error, the end, or a statement. */
  datatype Item<+T> = Error | End | Statement(stmt: T)

  /** Compiled from `tail` on: the item and the new position. Empty pieces are passed over. */
  function NextItem<S, T>(e: Engine<S, T>, s: S, sql: string, tail: nat): (r: (Item<T>, nat))
    requires tail <= |sql|
    ensures r.1 <= |sql| && (r.0.Statement? ==> r.1 > tail)
    decreases |sql| - tail
  {
    if tail == |sql| then (End, tail)
    else
      match e.compile(s, sql[tail..])
      case Failed => (Error, tail)
      case Compiled(stmt, end) =>
        var t := Tail(sql[tail..], end);
        var next := if t == 0 then |sql| else tail + t;
        if stmt.Some? then (Statement(stmt.value), next) else NextItem(e, s, sql, next)
  }

  class BatchCursor<S(0), T(0)> {
    const conn: Connection<S, T>
    const sql: string
    var tail: nat

    ghost predicate Valid()
      reads this
    {
      tail <= |sql|
    }

    constructor (conn: Connection<S, T>, sql: string)
      ensures Valid() && this.conn == conn && this.sql == sql && tail == 0
    {
      this.conn, this.sql, tail := conn, sql, 0;
    }

    /** Changes nothing but the position. */
    method Next() returns (r: Item<T>)
      requires Valid()
      modifies this
      ensures Valid() && (r, tail) == NextItem(conn.engine, conn.state, sql, old(tail))
    {
      while tail < |sql|
        invariant Valid()
        invariant NextItem(conn.engine, conn.state, sql, old(tail)) == NextItem(conn.engine, conn.state, sql, tail)
        decreases |sql| - tail
      {
        var c := conn.engine.compile(conn.state, sql[tail..]);
        if c.Failed? { return Error; }
        var t := Tail(sql[tail..], c.end);
        tail := if t == 0 then |sql| else tail + t;
        if c.stmt.Some? { return Statement(c.stmt.value); }
      }
      return End;
    }
  }

  /** Passing over empty pieces is what a run does before its first statement. */
  lemma {:induction false} RunFromNext<S, T>(e: Engine<S, T>, s: S, sql: string, tail: nat)
    requires tail <= |sql|
    ensures var (item, next) := NextItem(e, s, sql, tail);
            var run := RunAll(e, s, sql[tail..]);
            match item
            case Error => !run.ok && run.stepped == [] && run.state == s
            case End => run.ok && run.stepped == [] && run.state == s
            case Statement(stmt) =>
              var after, rest := e.step(s, stmt), RunAll(e, e.step(s, stmt).0, sql[next..]);
              if !after.1 then !run.ok && run.stepped == [stmt] && run.state == after.0
              else run.ok == rest.ok && run.stepped == [stmt] + rest.stepped && run.state == rest.state
    decreases |sql| - tail
  {
    var rest := sql[tail..];
    if rest != "" {
      var c := e.compile(s, rest);
      if c.Compiled? {
        var t := Tail(rest, c.end);
        var next := if t == 0 then |sql| else tail + t;
        assert t != 0 ==> rest[t..] == sql[next..];
        assert t == 0 ==> sql[next..] == "";
        if c.stmt.None? { RunFromNext(e, s, sql, next); }
      }
    }
  }

  /** Taking statements from the iterator and stepping each does what running the batch does. */
  method Drive<S(0), T(0)>(conn: Connection<S, T>, sql: string) returns (ok: bool)
    modifies conn
    ensures var run := RunAll(conn.engine, old(conn.state), sql);
            conn.state == run.state && ok == run.ok && conn.stepped == old(conn.stepped) + run.stepped
  {
    var batch := new BatchCursor(conn, sql);
    ghost var run := RunAll(conn.engine, conn.state, sql);
    assert sql[0..] == sql;
    while true
      invariant batch.Valid() && batch.conn == conn && batch.sql == sql
      invariant Completes(conn.engine, run, old(conn.stepped), conn.state, conn.stepped, sql[batch.tail..])
      decreases |sql| - batch.tail
    {
      RunFromNext(conn.engine, conn.state, sql, batch.tail);
      var item := batch.Next();
      match item {
        case Error => return false;
        case End => return true;
        case Statement(stmt) =>
          ghost var stepped := conn.stepped;
          var done := conn.Step(stmt);
          if !done { return false; }
          Associates(stepped, [stmt], RunAll(conn.engine, conn.state, sql[batch.tail..]).stepped);
      }
    }
  }

  // ---------------------------------------------------------------- preparing a single statement

  /** Compiles the text, then everything behind it, and refuses a second statement. */
  function PrepareOne<S, T>(e: Engine<S, T>, s: S, sql: string): Compiled<T>
    decreases |sql|
  {
    match e.compile(s, sql)
    case Failed => Failed
    case Compiled(stmt, end) =>
      var t := Tail(sql, end);
      if t == 0 then Compiled(stmt, end)
      else
        var rest := PrepareOne(e, s, sql[t..]);
        if rest.Failed? || rest.stmt.Some? then Failed else Compiled(stmt, end)
  }

  /** What the pieces of a text compile to, up to the first failure. */
  function Pieces<S, T>(e: Engine<S, T>, s: S, sql: string): seq<Compiled<T>>
    decreases |sql|
  {
    var c := e.compile(s, sql);
    if c.Failed? || Tail(sql, c.end) == 0 then [c] else [c] + Pieces(e, s, sql[Tail(sql, c.end)..])
  }

  /** Preparing succeeds iff every piece compiles and all but the first are empty; it yields the first. */
  lemma {:induction false} PrepareIff<S, T>(e: Engine<S, T>, s: S, sql: string)
    ensures var pieces := Pieces(e, s, sql);
            var r := PrepareOne(e, s, sql);
            && pieces != []
            && (r.Compiled? <==> pieces[0].Compiled? &&
                                    forall i :: 0 < i < |pieces| ==> pieces[i].Compiled? && pieces[i].stmt.None?)
            && (r.Compiled? ==> r.stmt == pieces[0].stmt)
    decreases |sql|
  {
    var c := e.compile(s, sql);
    if c.Compiled? && Tail(sql, c.end) != 0 {
      var rest := sql[Tail(sql, c.end)..];
      PrepareIff(e, s, rest);
      var tail, all := Pieces(e, s, rest), Pieces(e, s, sql);
      assert all == [c] + tail;
      if forall i :: 0 < i < |all| ==> all[i].Compiled? && all[i].stmt.None? {
        assert all[1] == tail[0];
        assert forall i :: 0 < i < |tail| ==> tail[i] == all[i + 1];
      }
    }
  }

  /** The front of a text, cut where the engine reports the ends when nothing is stepped. */
  ghost predicate CutsUnstepped<S, T>(e: Engine<S, T>, s: S, pieces: seq<string>, stmts: seq<Option<T>>,
                                      rest: string) {
    |pieces| == |stmts| &&
    (pieces != [] ==>
       && pieces[0] != "" && rest != ""
       && e.compile(s, Flatten(pieces) + rest) == Compiled(stmts[0], Some(|pieces[0]|))
       && CutsUnstepped(e, s, pieces[1..], stmts[1..], rest))
  }

  /** Preparing, told from the engine alone: it succeeds exactly when the last piece compiles and no
      piece behind the first is a statement, and it yields the first. */
  lemma {:induction false} PrepareFollowsEngine<S, T>(e: Engine<S, T>, s: S, pieces: seq<string>,
                                                       stmts: seq<Option<T>>, rest: string)
    requires CutsUnstepped(e, s, pieces, stmts, rest)
    requires var c := e.compile(s, rest); c.Compiled? ==> !EndsInside(c.end, |rest|)
    ensures var r, last := PrepareOne(e, s, Flatten(pieces) + rest), e.compile(s, rest);
            if pieces == [] then r == last
            else
              && (r.Compiled? <==> last.Compiled? && last.stmt.None? && forall i :: 0 < i < |stmts| ==> stmts[i].None?)
              && (r.Compiled? ==> r.stmt == stmts[0])
    decreases |pieces|
  {
    if pieces == [] {
      assert Flatten(pieces) + rest == rest;
    } else {
      FlattenRest(pieces, rest);
      PrepareFollowsEngine(e, s, pieces[1..], stmts[1..], rest);
      assert forall i :: 0 <= i < |stmts| - 1 ==> stmts[1..][i] == stmts[i + 1];
      if forall i :: 0 < i < |stmts| ==> stmts[i].None? {
        assert |stmts| > 1 ==> stmts[1].None?;
      }
    }
  }
}
