/** The reference allocator of lauxlib.c: a list of free slots threaded through the table that it
    manages. */
module LuaRefs {

  const FREELIST_REF := 0
  const LUA_REFNIL := -1

  datatype Value = Nil | Num(n: int) | Other(id: int)

  function Get(t: map<int, Value>, k: int): Value {
    if k in t then t[k] else Nil
  }

  /** lua_rawseti: storing nil removes the key. */
  function Set(t: map<int, Value>, k: int, v: Value): map<int, Value> {
    if v == Nil then t - {k} else t[k := v]
  }

  /** lua_tointeger. */
  function ToInteger(v: Value): int {
    if v.Num? then v.n else 0
  }

  /** What lua_objlen may return: n is present unless it is 0, and n + 1 is absent. */
  predicate IsBorder(t: map<int, Value>, n: int) {
    0 <= n && (n > 0 ==> Get(t, n) != Nil) && Get(t, n + 1) == Nil
  }

  /** Slots 1 to n are in use and no others, but for slot 0. */
  predicate Solid(t: map<int, Value>, n: nat) {
    (forall k | 1 <= k <= n :: Get(t, k) != Nil) && (forall k | k in t :: 0 <= k <= n)
  }

  /** Without a hole there is one border. */
  lemma OneBorder(t: map<int, Value>, n: nat, len: int)
    requires Solid(t, n) && IsBorder(t, len)
    ensures len == n
  {
    assert len < n ==> Get(t, len + 1) != Nil;
    assert len > n ==> len in t;
  }

  function First(free: seq<int>): int {
    if free == [] then 0 else free[0]
  }

  /** Slot i of the list of free slots leads to the next one, and the last one to none. */
  predicate Linked(t: map<int, Value>, free: seq<int>, i: int)
    requires 0 <= i < |free|
  {
    ToInteger(Get(t, free[i])) == First(free[i + 1..])
  }

  /** The free slots, each once, are chained from slot 0. */
  predicate Chained(t: map<int, Value>, free: seq<int>) {
    && ToInteger(Get(t, FREELIST_REF)) == First(free)
    && (forall i | 0 <= i < |free| :: Linked(t, free, i) && free[i] > 0)
    && (forall i, j | 0 <= i < j < |free| :: free[i] != free[j])
  }

  /** Slots 1 to n are live or free, and none is both; a live slot holds its value. */
  ghost predicate Shared(t: map<int, Value>, live: map<int, Value>, free: seq<int>, n: nat) {
    && (forall k | k in t :: 0 <= k <= n)
    && (forall r | r in live :: Get(t, r) == live[r] && live[r] != Nil && r !in free)
    && (forall k :: k in live || k in free <==> 1 <= k <= n)
  }

  ghost function Upto(n: nat): (s: set<int>)
    ensures forall k :: k in s <==> 1 <= k <= n
    ensures |s| == n
  {
    if n == 0 then {} else Upto(n - 1) + {n}
  }

  lemma {:induction false} Subset(a: set<int>, b: set<int>)
    requires a <= b
    ensures |a| <= |b|
    decreases |b|
  {
    if exists x :: x in a {
      var x :| x in a;
      Subset(a - {x}, b - {x});
      assert a == (a - {x}) + {x} && b == (b - {x}) + {x};
    } else {
      assert a == {};
    }
  }

  /** All slots are live exactly when none is free. */
  lemma LiveCount(t: map<int, Value>, live: map<int, Value>, free: seq<int>, n: nat)
    requires Shared(t, live, free, n)
    ensures |live| == n <==> free == []
  {
    assert |live| == |live.Keys|;
    if free == [] {
      assert live.Keys == Upto(n);
    } else {
      var x := free[0];
      assert x in free && x !in live;
      Subset(live.Keys, Upto(n) - {x});
    }
  }

  lemma NoHole(t: map<int, Value>, live: map<int, Value>, n: nat)
    requires Shared(t, live, [], n)
    ensures Solid(t, n)
  {
    forall k | 1 <= k <= n ensures Get(t, k) != Nil { assert k in live || k in []; }
  }

  lemma NoneFree(t: map<int, Value>, free: seq<int>)
    requires Chained(t, free) && First(free) == 0
    ensures free == []
  {}

  /** Taking the first slot off the list, and putting a value in it. */
  lemma Reuse(t: map<int, Value>, live: map<int, Value>, free: seq<int>, n: nat, v: Value)
    requires Chained(t, free) && Shared(t, live, free, n) && free != [] && v != Nil
    ensures var r := free[0]; var t' := Set(Set(t, FREELIST_REF, Get(t, r)), r, v);
            r > 0 && r !in live && Chained(t', free[1..]) && Shared(t', live[r := v], free[1..], n)
  {
    var r, rest := free[0], free[1..];
    assert Linked(t, free, 0) && r in free && free == [r] + rest;
    var t' := Set(Set(t, FREELIST_REF, Get(t, r)), r, v);
    assert Get(t', FREELIST_REF) == Get(t, r) && Get(t', r) == v;
    assert forall k | k != r && k != FREELIST_REF :: Get(t', k) == Get(t, k);
    hide Get, Set;
    forall i | 0 <= i < |rest| ensures Linked(t', rest, i) && rest[i] > 0 {
      assert Linked(t, free, i + 1) && rest[i] == free[i + 1] && rest[i + 1..] == free[i + 2..];
    }
    ReuseShared(t, t', live, r, rest, n, v);
  }

  lemma ReuseShared(t: map<int, Value>, t': map<int, Value>, live: map<int, Value>, r: int, rest: seq<int>, n: nat,
                    v: Value)
    requires Shared(t, live, [r] + rest, n) && r > 0 && r !in rest && 0 !in rest && v != Nil
    requires t' == Set(Set(t, FREELIST_REF, Get(t, r)), r, v)
    ensures r !in live && Shared(t', live[r := v], rest, n)
  {
    var free, live' := [r] + rest, live[r := v];
    assert r in free;
    forall k ensures k in live' || k in rest <==> 1 <= k <= n {
      assert k in free <==> k == r || k in rest;
      assert k in live || k in free <==> 1 <= k <= n;
    }
    forall q | q in live' ensures Get(t', q) == live'[q] && live'[q] != Nil && q !in rest {
      if q != r {
        assert q in live && q !in free;
        assert q in live || q in free <==> 1 <= q <= n;
      }
    }
  }

  /** A new slot after the last. */
  lemma Extend(t: map<int, Value>, live: map<int, Value>, n: nat, v: Value)
    requires Chained(t, []) && Shared(t, live, [], n) && v != Nil
    ensures n + 1 !in live && Chained(Set(t, n + 1, v), []) && Shared(Set(t, n + 1, v), live[n + 1 := v], [], n + 1)
  {
    var live', none := live[n + 1 := v], [];
    assert n + 1 in live || n + 1 in none <==> 1 <= n + 1 <= n;
    forall k ensures k in live' || k in none <==> 1 <= k <= n + 1 {
      assert k in live || k in none <==> 1 <= k <= n;
    }
  }

  /** Putting a live slot in front of the list. */
  lemma Release(t: map<int, Value>, live: map<int, Value>, free: seq<int>, n: nat, r: int)
    requires Chained(t, free) && Shared(t, live, free, n) && r in live
    ensures var t' := Set(Set(t, r, Get(t, FREELIST_REF)), FREELIST_REF, Num(r));
            Chained(t', [r] + free) && Shared(t', live - {r}, [r] + free, n)
  {
    var free' := [r] + free;
    var t' := Set(Set(t, r, Get(t, FREELIST_REF)), FREELIST_REF, Num(r));
    assert r in live || r in free <==> 1 <= r <= n;
    assert Get(t', FREELIST_REF) == Num(r) && Get(t', r) == Get(t, FREELIST_REF);
    assert forall k | k != r && k != FREELIST_REF :: Get(t', k) == Get(t, k);
    ReleaseShared(t, t', live, free, n, r);
    hide Get, Set, Shared;
    forall i | 0 <= i < |free'| ensures Linked(t', free', i) && free'[i] > 0 {
      assert free'[i + 1..] == free[i..];
      if i > 0 { assert Linked(t, free, i - 1) && free'[i] == free[i - 1] && free[i - 1] in free; }
    }
  }

  lemma ReleaseShared(t: map<int, Value>, t': map<int, Value>, live: map<int, Value>, free: seq<int>, n: nat, r: int)
    requires Shared(t, live, free, n) && r in live && r > 0 && 0 !in free
    requires t' == Set(Set(t, r, Get(t, FREELIST_REF)), FREELIST_REF, Num(r))
    ensures r !in free && Shared(t', live - {r}, [r] + free, n)
  {
    var live', free' := live - {r}, [r] + free;
    assert r in live || r in free <==> 1 <= r <= n;
    forall k ensures k in live' || k in free' <==> 1 <= k <= n {
      assert k in free' <==> k == r || k in free;
      assert k in live || k in free <==> 1 <= k <= n;
    }
    forall q | q in live' ensures Get(t', q) == live'[q] && live'[q] != Nil && q !in free' {
      assert q in live || q in free <==> 1 <= q <= n;
    }
  }

  class RefTable {
    var t: map<int, Value>
    ghost var live: map<int, Value>
    ghost var free: seq<int>
    ghost var slots: nat

    ghost predicate Valid()
      reads this
    {
      Chained(t, free) && Shared(t, live, free, slots)
    }

    constructor ()
      ensures Valid() && live == map[] && slots == 0
    {
      t, live, free, slots := map[], map[], [], 0;
    }

    /** luaL_ref; len is what lua_objlen returns for the table, any border of it. A new slot is used only
        when all are live, so there are never more than references that were live at one time. */
    method Ref(v: Value, len: int) returns (ref: int)
      requires Valid() && IsBorder(t, len)
      modifies this
      ensures Valid()
      ensures v == Nil ==> ref == LUA_REFNIL && live == old(live) && t == old(t) && slots == old(slots)
      ensures v != Nil ==> ref > 0 && ref !in old(live) && live == old(live)[ref := v]
      ensures v != Nil ==> slots == if |old(live)| == old(slots) then old(slots) + 1 else old(slots)
    {
      if v == Nil { return LUA_REFNIL; }
      LiveCount(t, live, free, slots);
      ref := ToInteger(Get(t, FREELIST_REF));
      if ref != 0 {
        Reuse(t, live, free, slots, v);
        hide Chained, Shared;
        t := Set(t, FREELIST_REF, Get(t, ref));
        free := free[1..];
      } else {
        NoneFree(t, free);
        NoHole(t, live, slots);
        OneBorder(t, slots, len);
        Extend(t, live, slots, v);
        hide Chained, Shared;
        ref := len;
        ref := ref + 1;
        slots := slots + 1;
      }
      t := Set(t, ref, v);
      live := live[ref := v];
    }

    /** luaL_unref of a live reference, or of a negative one. */
    method Unref(ref: int)
      requires Valid() && (ref >= 0 ==> ref in live)
      modifies this
      ensures Valid() && slots == old(slots)
      ensures live == if ref >= 0 then old(live) - {ref} else old(live)
    {
      hide Chained, Shared;
      if ref >= 0 {
        Release(t, live, free, slots, ref);
        t := Set(t, ref, Get(t, FREELIST_REF));
        t := Set(t, FREELIST_REF, Num(ref));
        free := [ref] + free;
        live := live - {ref};
      }
    }

    /** lua_rawgeti of a live reference gives back the value that it stands for. */
    method Lookup(ref: int) returns (v: Value)
      requires Valid() && ref in live
      ensures v == live[ref]
    {
      v := Get(t, ref);
    }
  }
}
