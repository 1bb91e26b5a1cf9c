/** Every use of a statement cache, from its creation to the close of its connection. */
module StatementCacheRuns {
  import opened Common
  import opened StatementCache

  datatype Use = Get(sql: string) | Alter(schema: int) | Bind(user: nat) | GiveBack(user: nat) | Discard(user: nat)
      | Resize(n: nat) | Flush

  function HandleOf(stmt: RawStatement): set<nat> {
    Handle(Some(stmt))
  }

  predicate Disjoint(users: seq<RawStatement>) {
    forall i, j :: 0 <= i < j < |users| ==> HandleOf(users[i]) !! HandleOf(users[j])
  }

  /** Between them, the users hold all handles that are out. */
  ghost predicate Cover(users: seq<RawStatement>, out: set<nat>) {
    forall h :: h in out ==> exists i :: 0 <= i < |users| && h in HandleOf(users[i])
  }

  ghost predicate Users(cache: StatementCache, users: seq<RawStatement>)
    reads cache, cache.sqlite
  {
    && cache.Valid()
    && (forall i :: 0 <= i < |users| ==> cache.InUse(users[i]))
    && Disjoint(users) && Cover(users, cache.out)
  }

  lemma UserLeaves(users: seq<RawStatement>, i: nat, out: set<nat>)
    requires i < |users| && Disjoint(users) && Cover(users, out)
    ensures Disjoint(RemoveAt(users, i)) && Cover(RemoveAt(users, i), out - HandleOf(users[i]))
    ensures forall j :: 0 <= j < |users| - 1 ==> HandleOf(RemoveAt(users, i)[j]) !! HandleOf(users[i])
  {
    var rest := RemoveAt(users, i);
    forall h | h in out - HandleOf(users[i])
      ensures exists j :: 0 <= j < |rest| && h in HandleOf(rest[j])
    {
      var j :| 0 <= j < |users| && h in HandleOf(users[j]);
      assert h in HandleOf(rest[if j < i then j else j - 1]);
    }
  }

  lemma UserArrives(users: seq<RawStatement>, stmt: RawStatement, before: set<nat>, after: set<nat>)
    requires Disjoint(users) && Cover(users, before) && after == before + HandleOf(stmt)
    requires forall i :: 0 <= i < |users| ==> HandleOf(users[i]) !! HandleOf(stmt)
    ensures Disjoint(users + [stmt]) && Cover(users + [stmt], after)
  {
    var all := users + [stmt];
    forall h | h in after
      ensures exists i :: 0 <= i < |all| && h in HandleOf(all[i])
    {
      if h in HandleOf(stmt) {
        assert all[|users|] == stmt;
      } else {
        var i :| 0 <= i < |users| && h in HandleOf(users[i]);
        assert h in HandleOf(all[i]);
      }
    }
  }

  method Ask(cache: StatementCache, sql: string, users: seq<RawStatement>) returns (now: seq<RawStatement>)
    requires Users(cache, users)
    modifies cache, cache.sqlite
    ensures Users(cache, now)
  {
    var ok, stmt := cache.Get(sql);
    now := users;
    if ok && stmt.handle.Some? {
      UserArrives(users, stmt, old(cache.out), cache.out);
      now := users + [stmt];
    }
  }

  method Leave(cache: StatementCache, i: nat, discard: bool, users: seq<RawStatement>) returns (now: seq<RawStatement>)
    requires Users(cache, users) && i < |users|
    modifies cache, cache.sqlite
    ensures Users(cache, now) && now == RemoveAt(users, i)
  {
    UserLeaves(users, i, cache.out);
    var stmt := new CachedStatement(cache, users[i]);
    if discard { stmt.Discard(); } else { stmt.Drop(); }
    now := RemoveAt(users, i);
  }

  method Step(cache: StatementCache, use: Use, users: seq<RawStatement>) returns (now: seq<RawStatement>)
    requires Users(cache, users)
    modifies cache, cache.sqlite
    ensures Users(cache, now)
  {
    now := users;
    match use {
      case Get(sql) => now := Ask(cache, sql, users);
      case GiveBack(k) => if k < |users| { now := Leave(cache, k, false, users); }
      case Discard(k) => if k < |users| { now := Leave(cache, k, true, users); }
      case Bind(k) => if k < |users| && users[k].handle.Some? { cache.sqlite.Bind(users[k].handle.value); }
      case Resize(n) => cache.SetCapacity(n);
      case Flush => cache.Flush();
      case Alter(schema) => cache.sqlite.schema := schema;
    }
  }

  /** Any uses in any order, then every statement dropped and the connection closed. */
  method Run(cache: StatementCache, uses: seq<Use>) returns (closed: bool)
    requires cache.Valid() && cache.out == {}
    modifies cache, cache.sqlite
    ensures cache.Valid()
    ensures forall h :: h in cache.sqlite.texts ==> h in cache.sqlite.finalized
    ensures cache.sqlite.closes != [] && Last(cache.sqlite.closes) == |cache.sqlite.finalized|
  {
    var users: seq<RawStatement> := [];
    var i := 0;
    while i < |uses|
      invariant 0 <= i <= |uses| && Users(cache, users)
    {
      users := Step(cache, uses[i], users);
      i := i + 1;
    }
    while users != []
      invariant Users(cache, users)
      decreases |users|
    {
      users := Leave(cache, 0, false, users);
    }
    assert cache.out == {};
    closed := cache.CloseSqlHandle();
  }
}
