/**
 The prepared statement cache: a least-recently-used map from trimmed SQL text to statement
 handles, with handles moving between the cache, its users and finalization.
 */
module StatementCache {
  import opened Common
  import Batch

  /** A statement handle with the key it is cached under; the handle is `None` for empty SQL. */
  datatype RawStatement = RawStatement(handle: Option<nat>, key: Option<string>)

  /** SQLite's side: which text each handle was prepared from, and what became of it. */
  class Sqlite {
    /** How the engine compiles, which depends on the schema. */
    const engine: Batch.Engine<int, int>
    var schema: int
    var texts: map<nat, string>
    var finalized: seq<nat>
    var bound: set<nat>
    /** For each close attempt, how many handles had been finalized by then. */
    var closes: seq<nat>

    ghost predicate Valid()
      reads this
    {
      && (forall i :: 0 <= i < |finalized| ==> finalized[i] in texts)
      && (forall i, j :: 0 <= i < j < |finalized| ==> finalized[i] != finalized[j])
    }

    constructor (engine: Batch.Engine<int, int>, schema: int)
      ensures Valid() && texts == map[] && finalized == [] && closes == []
      ensures this.engine == engine && this.schema == schema
    {
      this.engine, this.schema := engine, schema;
      texts, finalized, bound, closes := map[], [], {}, [];
    }

    /** Compiles the front of a text: fails, finds nothing to run, or yields a new handle. */
    method Prepare(text: string) returns (ok: bool, h: Option<nat>, tail: nat)
      requires Valid()
      modifies this`texts, this`bound
      ensures Valid()
      ensures h.None? ==> texts == old(texts) && bound == old(bound)
      ensures h.Some? ==> h.value !in old(texts) && texts == old(texts)[h.value := text] &&
                          bound == old(bound) - {h.value}
      ensures var c := engine.compile(schema, text);
              if c.Failed? then !ok && h.None? && tail == 0
              else ok && (h.Some? <==> c.stmt.Some?) && tail == Batch.Tail(text, c.end)
    {
      var c := engine.compile(schema, text);
      if c.Failed? { return false, None, 0; }
      ok, h, tail := true, None, Batch.Tail(text, c.end);
      if c.stmt.Some? {
        var n := Unused(texts);
        texts, bound, h := texts[n := text], bound - {n}, Some(n);
      }
    }

    /** Finalizing nothing does nothing; a handle is finalized only once. */
    method Finalize(h: Option<nat>)
      requires Valid() && (h.Some? ==> h.value in texts && h.value !in finalized)
      modifies this`finalized
      ensures Valid() && texts == old(texts) && bound == old(bound) && closes == old(closes) && schema == old(schema)
      ensures finalized == old(finalized) + if h.Some? then [h.value] else []
    {
      if h.Some? { finalized := finalized + [h.value]; }
    }

    method Bind(h: nat)
      modifies this`bound
      ensures bound == old(bound) + {h}
    {
      bound := bound + {h};
    }

    method ClearBindings(h: nat)
      modifies this`bound
      ensures bound == old(bound) - {h}
    {
      bound := bound - {h};
    }

    method Close() returns (ok: bool)
      modifies this`closes
      ensures closes == old(closes) + [|finalized|]
    {
      closes := closes + [|finalized|];
      ok := *;
    }
  }

  /** Some number that is not a handle yet. */
  method Unused(texts: map<nat, string>) returns (n: nat)
    ensures n !in texts
  {
    n := 0;
    ghost var left := texts.Keys;
    while n in texts
      invariant left <= texts.Keys && (forall k :: k in texts && k >= n ==> k in left)
      decreases left
    {
      left := left - {n};
      n := n + 1;
    }
  }

  // ---------------------------------------------------------------- the LRU map

  /** Oldest first. */
  type Entries = seq<(string, nat)>

  function Handles(e: Entries): seq<nat> {
    seq(|e|, i requires 0 <= i < |e| => e[i].1)
  }

  predicate DistinctKeys(e: Entries) {
    forall i, j :: 0 <= i < j < |e| ==> e[i].0 != e[j].0
  }

  predicate DistinctHandles(e: Entries) {
    forall i, j :: 0 <= i < j < |e| ==> e[i].1 != e[j].1
  }

  function Find(e: Entries, key: string): (r: Option<nat>)
    ensures r.Some? ==> r.value < |e| && e[r.value].0 == key
    ensures r.None? ==> forall i :: 0 <= i < |e| ==> e[i].0 != key
  {
    if e == [] then None
    else if Last(e).0 == key then Some(|e| - 1)
    else Find(e[..|e| - 1], key)
  }

  function RemoveAt<T>(e: seq<T>, i: nat): (r: seq<T>)
    requires i < |e|
    ensures |r| == |e| - 1
    ensures forall j :: 0 <= j < |r| ==> r[j] == e[if j < i then j else j + 1]
  {
    e[..i] + e[i + 1..]
  }

  /** The newest `n` entries. */
  function Newest(e: Entries, n: nat): Entries {
    if |e| <= n then e else e[|e| - n..]
  }

  /** `after` is `before` with this entry stored newest: one of the same key is gone, the others are in
      their order, and the oldest go that do not fit. */
  ghost predicate Stored(before: Entries, after: Entries, key: string, h: nat, capacity: nat) {
    if capacity == 0 then after == []
    else
      && after != [] && Last(after) == (key, h)
      && var rest := after[..|after| - 1];
         || ((forall i :: 0 <= i < |before| ==> before[i].0 != key) && rest == Newest(before, capacity - 1))
         || exists i :: 0 <= i < |before| && before[i].0 == key &&
                        rest == Newest(before[..i] + before[i + 1..], capacity - 1)
  }

  lemma StoredWithout(before: Entries, i: Option<nat>, key: string, h: nat, capacity: nat)
    requires |before| <= capacity && (i.Some? ==> i.value < |before| && before[i.value].0 == key)
    requires i.None? ==> forall j :: 0 <= j < |before| ==> before[j].0 != key
    ensures var all := (if i.Some? then RemoveAt(before, i.value) else before) + [(key, h)];
            Stored(before, if |all| > capacity then all[1..] else all, key, h, capacity)
  {
    var others := if i.Some? then RemoveAt(before, i.value) else before;
    var all := others + [(key, h)];
    if capacity > 0 {
      var after := if |all| > capacity then all[1..] else all;
      assert after[..|after| - 1] == Newest(others, capacity - 1);
    }
  }

  /** The handles dropped when an entry is stored: the replaced one, and the oldest if it does not fit. */
  function Dropped(before: Entries, key: string, h: nat, capacity: nat): seq<nat> {
    match Find(before, key)
    case Some(i) => [before[i].1]
    case None => if |before| < capacity then [] else if before == [] then [h] else [before[0].1]
  }

  lemma DroppedInTurn(before: Entries, key: string, h: nat, capacity: nat)
    requires DistinctKeys(before) && |before| <= capacity
    ensures var i := Find(before, key);
            var others := if i.Some? then RemoveAt(before, i.value) else before;
            var all := others + [(key, h)];
            && Find(others, key).None?
            && Dropped(before, key, h, capacity) ==
                 (if i.Some? then [before[i.value].1] else []) + if |all| > capacity then [all[0].1] else []
  {
    var i := Find(before, key);
    if i.Some? {
      var others := RemoveAt(before, i.value);
      assert forall j :: 0 <= j < |others| ==> others[j].0 != key;
    }
  }

  /** Known handles keep their texts. */
  predicate Kept(before: map<nat, string>, after: map<nat, string>) {
    forall h :: h in before ==> h in after && after[h] == before[h]
  }

  /** Known handles keep their bindings. */
  predicate SameBindings(texts: map<nat, string>, before: set<nat>, after: set<nat>) {
    forall h :: h in texts ==> (h in after <==> h in before)
  }

  /** Each entry once, under the text it was prepared from, with no bindings. */
  predicate Clean(e: Entries, texts: map<nat, string>, bound: set<nat>) {
    && DistinctKeys(e) && DistinctHandles(e)
    && forall i :: 0 <= i < |e| ==> e[i].1 in texts && texts[e[i].1] == e[i].0 && e[i].1 !in bound
  }

  lemma CleanTail(e: Entries, texts: map<nat, string>, bound: set<nat>)
    requires e != [] && Clean(e, texts, bound)
    ensures Clean(e[1..], texts, bound) && forall i :: 1 <= i < |e| ==> e[i].1 != e[0].1
  {
  }

  lemma CleanRemove(e: Entries, i: nat, texts: map<nat, string>, bound: set<nat>)
    requires i < |e| && Clean(e, texts, bound)
    ensures var r := RemoveAt(e, i);
            Clean(r, texts, bound) && forall j :: 0 <= j < |r| ==> r[j].1 != e[i].1
  {
  }

  lemma StillThere(e: Entries, i: nat, h: nat) returns (k: nat)
    requires i < |e| && h != e[i].1 && exists j :: 0 <= j < |e| && e[j].1 == h
    ensures k < |RemoveAt(e, i)| && RemoveAt(e, i)[k].1 == h
  {
    var j :| 0 <= j < |e| && e[j].1 == h;
    k := if j < i then j else j - 1;
  }

  lemma CleanPush(e: Entries, key: string, h: nat, texts: map<nat, string>, bound: set<nat>)
    requires Clean(e, texts, bound) && h in texts && texts[h] == key && h !in bound
    requires Find(e, key).None? && forall i :: 0 <= i < |e| ==> e[i].1 != h
    ensures Clean(e + [(key, h)], texts, bound)
  {
  }

  class StatementCache {
    const sqlite: Sqlite
    /** Removes surrounding white space. */
    const trim: string -> string
    var entries: Entries
    var capacity: nat
    /** Handles held by the cache's users. */
    ghost var out: set<nat>

    /** Where a handle is. */
    ghost predicate Cached(h: nat)
      reads this
    {
      exists i :: 0 <= i < |entries| && entries[i].1 == h
    }

    /** Every handle is cached, in use or finalized, and only one of these. */
    ghost predicate Partition()
      reads this, sqlite
    {
      && (forall h :: h in out ==> h in sqlite.texts && h !in sqlite.finalized)
      && (forall i :: 0 <= i < |entries| ==>
            entries[i].1 in sqlite.texts && entries[i].1 !in sqlite.finalized && entries[i].1 !in out)
      && (forall h :: h in sqlite.texts ==> h in out || h in sqlite.finalized || Cached(h))
    }

    /** Every entry sits under the text it was prepared from, with no bindings. */
    ghost predicate EntriesOk()
      reads this, sqlite
    {
      |entries| <= capacity && Clean(entries, sqlite.texts, sqlite.bound)
    }

    ghost predicate Valid()
      reads this, sqlite
    {
      sqlite.Valid() && Partition() && EntriesOk()
    }

    constructor (sqlite: Sqlite, trim: string -> string, capacity: nat)
      requires sqlite.Valid() && sqlite.texts == map[] && sqlite.finalized == []
      ensures Valid() && this.sqlite == sqlite && this.trim == trim && this.capacity == capacity &&
              entries == [] && out == {}
    {
      this.sqlite, this.trim, this.capacity, entries, out := sqlite, trim, capacity, [], {};
    }

    /** Drops the oldest entry. */
    method RemoveOldest()
      requires sqlite.Valid() && Partition() && entries != [] && Clean(entries, sqlite.texts, sqlite.bound)
      modifies this, sqlite
      ensures sqlite.Valid() && Partition() && Clean(entries, sqlite.texts, sqlite.bound)
      ensures entries == old(entries)[1..] && capacity == old(capacity) && out == old(out)
      ensures sqlite.finalized == old(sqlite.finalized) + [old(entries)[0].1]
      ensures sqlite.texts == old(sqlite.texts) && sqlite.bound == old(sqlite.bound) &&
              sqlite.closes == old(sqlite.closes)
    {
      CleanTail(entries, sqlite.texts, sqlite.bound);
      sqlite.Finalize(Some(entries[0].1));
      ghost var was := entries;
      entries := entries[1..];
      forall h | h in sqlite.texts && h !in out && h !in sqlite.finalized
        ensures Cached(h)
      {
        var i :| 0 <= i < |was| && was[i].1 == h;
        assert entries[i - 1].1 == h;
      }
    }

    /** Drops oldest entries until `n` are left. */
    method Shrink(n: nat)
      requires sqlite.Valid() && Partition() && Clean(entries, sqlite.texts, sqlite.bound)
      modifies this, sqlite
      ensures sqlite.Valid() && Partition() && Clean(entries, sqlite.texts, sqlite.bound)
      ensures capacity == old(capacity) && out == old(out)
      ensures entries == if |old(entries)| <= n then old(entries) else old(entries)[|old(entries)| - n..]
      ensures sqlite.finalized == old(sqlite.finalized) + Handles(old(entries))[..|old(entries)| - |entries|]
      ensures sqlite.texts == old(sqlite.texts) && sqlite.bound == old(sqlite.bound) &&
              sqlite.closes == old(sqlite.closes)
    {
      ghost var k := 0;
      while |entries| > n
        invariant k <= |old(entries)| && entries == old(entries)[k..]
        invariant k > 0 ==> |entries| >= n
        invariant sqlite.Valid() && Partition() && capacity == old(capacity) && out == old(out)
        invariant Clean(entries, sqlite.texts, sqlite.bound)
        invariant sqlite.finalized == old(sqlite.finalized) + Handles(old(entries))[..k]
        invariant sqlite.texts == old(sqlite.texts) && sqlite.bound == old(sqlite.bound) &&
                  sqlite.closes == old(sqlite.closes)
      {
        RemoveOldest();
        k := k + 1;
      }
    }

    /** Lowering the capacity finalizes the oldest entries that no longer fit. */
    method SetCapacity(n: nat)
      requires Valid()
      modifies this, sqlite
      ensures Valid() && capacity == n && out == old(out)
      ensures entries == if |old(entries)| <= n then old(entries) else old(entries)[|old(entries)| - n..]
      ensures sqlite.finalized == old(sqlite.finalized) + Handles(old(entries))[..|old(entries)| - |entries|]
      ensures sqlite.texts == old(sqlite.texts) && sqlite.closes == old(sqlite.closes)
    {
      Shrink(n);
      capacity := n;
    }

    method Flush()
      requires Valid()
      modifies this, sqlite
      ensures Valid() && entries == [] && capacity == old(capacity) && out == old(out)
      ensures sqlite.finalized == old(sqlite.finalized) + Handles(old(entries))
      ensures sqlite.texts == old(sqlite.texts) && sqlite.closes == old(sqlite.closes)
    {
      Shrink(0);
      assert Handles(old(entries))[..|old(entries)|] == Handles(old(entries));
    }

    /** Takes the entry at `i` out for use. */
    method Take(i: nat) returns (h: nat)
      requires Valid() && i < |entries|
      modifies this
      ensures Valid() && h == old(entries)[i].1 && entries == RemoveAt(old(entries), i)
      ensures capacity == old(capacity) && out == old(out) + {h}
    {
      CleanRemove(entries, i, sqlite.texts, sqlite.bound);
      h := entries[i].1;
      ghost var was := entries;
      entries, out := RemoveAt(entries, i), out + {h};
      forall k | k in sqlite.texts && k !in out && k !in sqlite.finalized
        ensures Cached(k)
      {
        var j := StillThere(was, i, k);
        assert entries[j].1 == k;
      }
    }

    /**
     Prepares a text of at most one statement: whatever follows the first one is prepared the same
     way and dropped, and must be empty. Agrees with the engine's own account of a single prepare.
     */
    method PrepareWithFlags(text: string) returns (ok: bool, h: Option<nat>)
      requires Valid()
      modifies this`out, sqlite`texts, sqlite`bound, sqlite`finalized
      ensures Valid()
      ensures out == old(out) + if h.Some? then {h.value} else {}
      ensures h.Some? ==> h.value !in old(sqlite.texts) && h.value in sqlite.texts
      ensures h.Some? ==> sqlite.texts[h.value] == text && h.value !in sqlite.bound
      ensures Kept(old(sqlite.texts), sqlite.texts)
      ensures SameBindings(old(sqlite.texts), old(sqlite.bound), sqlite.bound)
      ensures var c := Batch.PrepareOne(sqlite.engine, sqlite.schema, text);
              (ok <==> c.Compiled?) && (h.Some? <==> ok && c.stmt.Some?)
      decreases |text|, 0
    {
      var tail: nat;
      ok, h, tail := PrepareFirst(text);
      if !ok || tail == 0 { return; }
      var empty := TailIsEmpty(text[tail..]);
      if !empty {
        DropStmt(RawStatement(h, Some(text)));
        return false, None;
      }
    }

    /** Prepares the rest of a text and drops it again. */
    method TailIsEmpty(text: string) returns (empty: bool)
      requires Valid()
      modifies this`out, sqlite`texts, sqlite`bound, sqlite`finalized
      ensures Valid() && out == old(out) && Kept(old(sqlite.texts), sqlite.texts)
      ensures SameBindings(old(sqlite.texts), old(sqlite.bound), sqlite.bound)
      ensures var c := Batch.PrepareOne(sqlite.engine, sqlite.schema, text);
              empty <==> c.Compiled? && c.stmt.None?
      decreases |text|, 1
    {
      var ok, h := PrepareWithFlags(text);
      DropStmt(RawStatement(h, Some(text)));
      empty := ok && h.None?;
    }

    /** Prepares the front of a text and hands the handle out. */
    method PrepareFirst(text: string) returns (ok: bool, h: Option<nat>, tail: nat)
      requires Valid()
      modifies this`out, sqlite`texts, sqlite`bound
      ensures Valid() && out == old(out) + if h.Some? then {h.value} else {}
      ensures h.Some? ==> h.value !in old(sqlite.texts) && h.value in sqlite.texts
      ensures h.Some? ==> sqlite.texts[h.value] == text && h.value !in sqlite.bound
      ensures Kept(old(sqlite.texts), sqlite.texts) && SameBindings(old(sqlite.texts), old(sqlite.bound), sqlite.bound)
      ensures var c := sqlite.engine.compile(sqlite.schema, text);
              if c.Failed? then !ok && h.None? && tail == 0
              else ok && (h.Some? <==> c.stmt.Some?) && tail == Batch.Tail(text, c.end)
    {
      ok, h, tail := sqlite.Prepare(text);
      if h.Some? { out := out + {h.value}; }
    }

    /**
     A statement for `sql`: the cached handle of the same trimmed text if there is one, taken out
     of the cache, and otherwise a new one. Either way it was prepared from exactly that text and
     carries no bindings.
     */
    method Get(sql: string) returns (ok: bool, stmt: RawStatement)
      requires Valid()
      modifies this, sqlite
      ensures Valid() && capacity == old(capacity) && sqlite.closes == old(sqlite.closes)
      ensures ok && stmt.handle.Some? ==> stmt.handle.value !in old(out) && out == old(out) + {stmt.handle.value}
      ensures ok && stmt.handle.Some? ==> InUse(stmt) && stmt.key == Some(trim(sql)) &&
                                          stmt.handle.value !in sqlite.bound
      ensures !ok || stmt.handle.None? ==> out == old(out)
      ensures Kept(old(sqlite.texts), sqlite.texts)
      ensures match Find(old(entries), trim(sql))
              case Some(i) => ok && stmt.handle == Some(old(entries)[i].1) && entries == RemoveAt(old(entries), i) &&
                              sqlite.texts == old(sqlite.texts)
              case None => entries == old(entries) && AsPrepared(ok, stmt, trim(sql)) &&
                           (ok && stmt.handle.Some? ==> stmt.handle.value !in old(sqlite.texts))
    {
      var trimmed := trim(sql);
      var found := Find(entries, trimmed);
      if found.Some? {
        var h := Take(found.value);
        return true, RawStatement(Some(h), Some(trimmed));
      }
      var h: Option<nat>;
      ok, h := PrepareWithFlags(trimmed);
      stmt := RawStatement(h, Some(trimmed));
    }

    /** A miss gives what preparing the text without the cache gives. */
    predicate AsPrepared(ok: bool, stmt: RawStatement, text: string)
      reads sqlite`schema
    {
      var c := Batch.PrepareOne(sqlite.engine, sqlite.schema, text);
      (ok <==> c.Compiled?) && (stmt.handle.Some? <==> ok && c.stmt.Some?)
    }

    /** A statement that came from this cache and has not gone back. */
    ghost predicate InUse(stmt: RawStatement)
      reads this, sqlite
    {
      stmt.handle.Some? ==>
        && stmt.handle.value in out && stmt.handle.value in sqlite.texts
        && stmt.key == Some(sqlite.texts[stmt.handle.value])
    }

    /** Drops the entry that is about to be replaced. */
    method DropAt(i: nat)
      requires Valid() && i < |entries|
      modifies this, sqlite
      ensures Valid() && entries == RemoveAt(old(entries), i) && capacity == old(capacity) && out == old(out)
      ensures sqlite.finalized == old(sqlite.finalized) + [old(entries)[i].1]
      ensures sqlite.texts == old(sqlite.texts) && sqlite.bound == old(sqlite.bound) &&
              sqlite.closes == old(sqlite.closes)
    {
      var h := Take(i);
      sqlite.Finalize(Some(h));
      out := out - {h};
    }

    /** A new newest entry. */
    method Push(key: string, h: nat)
      requires sqlite.Valid() && Partition() && EntriesOk() && Find(entries, key).None?
      requires h in out && sqlite.texts[h] == key && h !in sqlite.bound
      modifies this
      ensures Partition() && entries == old(entries) + [(key, h)] && capacity == old(capacity) && out == old(out) - {h}
      ensures Clean(entries, sqlite.texts, sqlite.bound)
    {
      CleanPush(entries, key, h, sqlite.texts, sqlite.bound);
      ghost var was := entries;
      entries, out := entries + [(key, h)], out - {h};
      forall k | k in sqlite.texts && k !in out && k !in sqlite.finalized
        ensures Cached(k)
      {
        if k == h {
          assert entries[|was|].1 == k;
        } else {
          var j :| 0 <= j < |was| && was[j].1 == k;
          assert entries[j].1 == k;
        }
      }
    }

    /** Pushes an entry of a new key, within the capacity. */
    method PushBounded(key: string, h: nat)
      requires Valid() && Find(entries, key).None?
      requires h in out && sqlite.texts[h] == key && h !in sqlite.bound
      modifies this, sqlite
      ensures Valid() && capacity == old(capacity) && out == old(out) - {h}
      ensures var all := old(entries) + [(key, h)];
              && entries == (if |all| > capacity then all[1..] else all)
              && sqlite.finalized == old(sqlite.finalized) + if |all| > capacity then [all[0].1] else []
      ensures sqlite.texts == old(sqlite.texts) && sqlite.bound == old(sqlite.bound) &&
              sqlite.closes == old(sqlite.closes)
    {
      Push(key, h);
      if |entries| > capacity { RemoveOldest(); }
    }

    /** The map's insert: an entry of the same key is replaced, and its handle dropped. */
    method Insert(key: string, h: nat)
      requires Valid() && h in out && sqlite.texts[h] == key && h !in sqlite.bound
      modifies this, sqlite
      ensures Valid() && capacity == old(capacity) && out == old(out) - {h}
      ensures Stored(old(entries), entries, key, h, capacity)
      ensures sqlite.finalized == old(sqlite.finalized) + Dropped(old(entries), key, h, capacity)
      ensures sqlite.texts == old(sqlite.texts) && sqlite.bound == old(sqlite.bound) &&
              sqlite.closes == old(sqlite.closes)
    {
      var found := Find(entries, key);
      DroppedInTurn(entries, key, h, capacity);
      if found.Some? { DropAt(found.value); }
      PushBounded(key, h);
      StoredWithout(old(entries), found, key, h, capacity);
    }

    /**
     Puts a statement back: bindings cleared, newest, in place of another handle of the same text.
     A statement of empty SQL is dropped.
     */
    method CacheStmt(stmt: RawStatement)
      requires Valid() && InUse(stmt)
      modifies this, sqlite
      ensures Valid() && capacity == old(capacity) && sqlite.texts == old(sqlite.texts) &&
              sqlite.closes == old(sqlite.closes)
      ensures stmt.handle.None? ==> entries == old(entries) && out == old(out) &&
                                    sqlite.finalized == old(sqlite.finalized)
      ensures stmt.handle.Some? ==> out == old(out) - {stmt.handle.value}
      ensures stmt.handle.Some? ==> Stored(old(entries), entries, stmt.key.value, stmt.handle.value, capacity)
      ensures stmt.handle.Some? ==>
                sqlite.finalized ==
                  old(sqlite.finalized) + Dropped(old(entries), stmt.key.value, stmt.handle.value, capacity)
      ensures stmt.handle.Some? ==> sqlite.bound == old(sqlite.bound) - {stmt.handle.value}
    {
      if stmt.handle.None? { return; }
      sqlite.ClearBindings(stmt.handle.value);
      Insert(stmt.key.value, stmt.handle.value);
    }

    /** Dropping a statement that does not go back finalizes it. */
    method DropStmt(stmt: RawStatement)
      requires Valid() && InUse(stmt)
      modifies this`out, sqlite`finalized
      ensures Valid()
      ensures out == old(out) - (if stmt.handle.Some? then {stmt.handle.value} else {})
      ensures sqlite.finalized == old(sqlite.finalized) + if stmt.handle.Some? then [stmt.handle.value] else []
    {
      sqlite.Finalize(stmt.handle);
      if stmt.handle.Some? {
        assert Last(sqlite.finalized) == stmt.handle.value;
        out := out - {stmt.handle.value};
      }
    }

    /** Closing the connection: every cached handle is finalized before the attempt. */
    method CloseSqlHandle() returns (ok: bool)
      requires Valid()
      modifies this, sqlite
      ensures Valid() && entries == [] && out == old(out)
      ensures sqlite.finalized == old(sqlite.finalized) + Handles(old(entries))
      ensures sqlite.closes == old(sqlite.closes) + [|sqlite.finalized|]
    {
      Flush();
      ok := sqlite.Close();
    }
  }

  /** A user's statement; it goes back to the cache unless discarded. */
  class CachedStatement {
    const cache: StatementCache
    var stmt: Option<RawStatement>

    constructor (cache: StatementCache, stmt: RawStatement)
      ensures this.cache == cache && this.stmt == Some(stmt)
    {
      this.cache, this.stmt := cache, Some(stmt);
    }

    method Drop()
      requires cache.Valid() && (stmt.Some? ==> cache.InUse(stmt.value))
      modifies this, cache, cache.sqlite
      ensures cache.Valid() && stmt.None? && cache.out == old(cache.out) - Handle(old(stmt))
      ensures Handle(old(stmt)) != {} ==>
                Stored(old(cache.entries), cache.entries, old(stmt).value.key.value, old(stmt).value.handle.value,
                       cache.capacity)
      ensures Handle(old(stmt)) == {} ==> cache.entries == old(cache.entries)
      ensures cache.sqlite.texts == old(cache.sqlite.texts) && cache.capacity == old(cache.capacity)
    {
      if stmt.Some? {
        var raw := stmt.value;
        stmt := None;
        cache.CacheStmt(raw);
      }
    }

    method Discard()
      requires cache.Valid() && (stmt.Some? ==> cache.InUse(stmt.value))
      modifies this, cache, cache.sqlite
      ensures cache.Valid() && stmt.None? && cache.out == old(cache.out) - Handle(old(stmt))
      ensures cache.entries == old(cache.entries)
      ensures cache.sqlite.finalized == old(cache.sqlite.finalized) +
                if Handle(old(stmt)) != {} then [old(stmt).value.handle.value] else []
      ensures cache.sqlite.texts == old(cache.sqlite.texts) && cache.capacity == old(cache.capacity)
    {
      if stmt.Some? {
        var raw := stmt.value;
        stmt := None;
        cache.DropStmt(raw);
      }
    }
  }

  /** Whoever asks for the same text next, spaces around it aside, gets the statement that went back. */
  method DropThenGet(used: CachedStatement, sql: string) returns (ok: bool, again: RawStatement)
    requires used.cache.Valid() && Handle(used.stmt) != {} && used.cache.InUse(used.stmt.value)
    requires used.cache.capacity > 0 && used.stmt.value.key == Some(used.cache.trim(sql))
    modifies used, used.cache, used.cache.sqlite
    ensures used.cache.Valid() && ok && again == old(used.stmt).value
    ensures used.cache.sqlite.texts == old(used.cache.sqlite.texts) && used.cache.out == old(used.cache.out)
    ensures again.handle.value !in used.cache.sqlite.bound
  {
    used.Drop();
    assert Last(used.cache.entries) == (old(used.stmt).value.key.value, old(used.stmt).value.handle.value);
    ok, again := used.cache.Get(sql);
  }

  function Handle(stmt: Option<RawStatement>): set<nat> {
    if stmt.Some? && stmt.value.handle.Some? then {stmt.value.handle.value} else {}
  }
}
