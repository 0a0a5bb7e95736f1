/**
 * Entity: the engine's global registry of objects.  Every Entity appends
 * itself to a static vector when built and removes itself when destroyed;
 * destroyEntities deletes, from the last entry to the first, every entity
 * that no other object owns ("dependant" ones are deleted by their owner).
 *
 * The static vector is the field `entities` of a Registry object that the
 * operations are given.
 */
module EngineEntity {
  import opened Bytes

  /** The largest unsigned int, where the destroyEntities counter wraps to. */
  const UINT_MAX: int := 0xFFFF_FFFF

  /** No object appears twice. */
  predicate Distinct<T(==)>(s: seq<T>) {
    forall i, j :: 0 <= i < j < |s| ==> s[i] != s[j]
  }

  /** The index of the first occurrence of x in s, or |s| when there is none. */
  function Find<T(==)>(s: seq<T>, x: T): (k: nat)
    ensures k <= |s|
    ensures k < |s| ==> s[k] == x
    ensures forall m :: 0 <= m < k ==> s[m] != x
  {
    if s == [] then 0
    else if s[0] == x then 0
    else 1 + Find(s[1..], x)
  }

  /** vector::erase of the first occurrence of x; s itself when x is absent. */
  function RemoveFirst<T(==)>(s: seq<T>, x: T): seq<T> {
    var k := Find(s, x);
    if k < |s| then s[..k] + s[k + 1..] else s
  }

  /**
   * Removing the first occurrence takes exactly one copy of x away, when
   * there is one, and keeps every other entry in its order.
   */
  lemma RemoveFirstCount<T>(s: seq<T>, x: T)
    ensures x in s ==> multiset(RemoveFirst(s, x)) == multiset(s) - multiset{x}
    ensures x !in s ==> RemoveFirst(s, x) == s
  {
    var k := Find(s, x);
    if k < |s| {
      assert s == s[..k] + [x] + s[k + 1..];
      assert multiset(s) == multiset(s[..k]) + multiset{x} + multiset(s[k + 1..]);
    }
  }

  /** In a registry without repeats, removing an entity leaves no trace of it. */
  lemma RemoveFirstDistinct<T>(s: seq<T>, x: T)
    requires Distinct(s)
    ensures x !in RemoveFirst(s, x) && Distinct(RemoveFirst(s, x))
    ensures |RemoveFirst(s, x)| == if x in s then |s| - 1 else |s|
  {
    var k := Find(s, x);
    if k < |s| {
      var r := s[..k] + s[k + 1..];
      forall i | 0 <= i < |r|
        ensures r[i] != x
      {
        if i < k { assert r[i] == s[i]; } else { assert r[i] == s[i + 1]; }
      }
      forall i, j | 0 <= i < j < |r|
        ensures r[i] != r[j]
      {
        var i' := if i < k then i else i + 1;
        var j' := if j < k then j else j + 1;
        assert r[i] == s[i'] && r[j] == s[j'];
      }
    }
  }

  /** An entry with no earlier copy of itself is the one Find reaches. */
  lemma FindFirst<T>(s: seq<T>, k: nat)
    requires k < |s| && forall m :: 0 <= m < k ==> s[m] != s[k]
    ensures Find(s, s[k]) == k
  {
  }

  class Entity {
    /** Set when another object owns this one and will delete it. */
    var dependant: bool

    /** Entity::Entity: not dependant, and appended to the registry. */
    constructor (reg: Registry)
      requires reg.Valid()
      modifies reg
      ensures !dependant
      ensures reg.entities == old(reg.entities) + [this] && reg.Valid()
    {
      dependant := false;
      new;
      reg.entities := reg.entities + [this];
    }

    /** Entity::setDependency. */
    method SetDependency(dependency: bool)
      modifies this
      ensures dependant == dependency
    {
      dependant := dependency;
    }

    /**
     * Entity::~Entity: the scan stops at the first occurrence of this
     * entity, erases it and jumps the counter to the end.
     */
    method Destroy(reg: Registry)
      modifies reg
      ensures reg.entities == RemoveFirst(old(reg.entities), this)
    {
      var i := 0;
      while i < |reg.entities|
        invariant 0 <= i <= |reg.entities| + 1
        invariant i <= |reg.entities| ==> reg.entities == old(reg.entities) && i <= Find(reg.entities, this)
        invariant i > |reg.entities| ==> reg.entities == RemoveFirst(old(reg.entities), this)
        decreases |reg.entities| + 1 - i
      {
        if reg.entities[i] == this {
          reg.entities := reg.entities[..i] + reg.entities[i + 1..];
          i := |reg.entities|;
        }
        i := i + 1;
      }
    }
  }

  /** The entities destroyEntities leaves alone: the dependant ones, in order. */
  function Kept(s: seq<Entity>): (r: seq<Entity>)
    reads set e | e in s
    ensures |r| <= |s|
  {
    if s == [] then []
    else (if s[0].dependant then [s[0]] else []) + Kept(s[1..])
  }

  /** The entities destroyEntities deletes, in the order it deletes them: last first. */
  function Doomed(s: seq<Entity>): (r: seq<Entity>)
    reads set e | e in s
    ensures |r| <= |s|
  {
    if s == [] then []
    else Doomed(s[1..]) + (if s[0].dependant then [] else [s[0]])
  }

  /** Only dependant entities are kept, and only the others are deleted. */
  lemma {:induction false} KeptDependant(s: seq<Entity>)
    ensures forall e :: e in Kept(s) ==> e in s && e.dependant
    ensures forall e :: e in Doomed(s) ==> e in s && !e.dependant
  {
    if s != [] {
      KeptDependant(s[1..]);
    }
  }

  /** Every entity is either kept or deleted, and only once. */
  lemma {:induction false} KeptAndDoomed(s: seq<Entity>)
    ensures multiset(Kept(s)) + multiset(Doomed(s)) == multiset(s)
  {
    if s != [] {
      var t := s[1..];
      var kept := if s[0].dependant then [s[0]] else [];
      var doomed := if s[0].dependant then [] else [s[0]];
      KeptAndDoomed(t);
      assert Kept(s) == kept + Kept(t);
      assert Doomed(s) == Doomed(t) + doomed;
      assert multiset(kept) + multiset(doomed) == multiset{s[0]};
      assert s == [s[0]] + t;
    }
  }

  class Registry {
    /** Entity::entities, the static vector. */
    var entities: seq<Entity>

    /** Each entity registers itself once, so no entry repeats. */
    predicate Valid()
      reads this
    {
      Distinct(entities)
    }

    constructor ()
      ensures entities == [] && Valid()
    {
      entities := [];
    }

    /**
     * Entity::destroyEntities as written: the counter is unsigned, so the
     * guard i >= 0 always holds.  The counter walks the entries from the
     * last to the first, deleting the ones not dependant, and then wraps
     * to 0xFFFFFFFF, an index past the end of the vector, where the source
     * reads entities[i]; an empty registry starts there.  The clear() after
     * the loop is never reached.  The returned index is the out-of-range
     * one the source reads.
     */
    method DestroyEntitiesAsWritten() returns (deleted: seq<Entity>, outOfRange: U32)
      requires Valid() && |entities| < UINT_MAX
      modifies this
      ensures deleted == Doomed(old(entities))
      ensures entities == Kept(old(entities))
      ensures outOfRange == UINT_MAX && outOfRange >= |entities|
    {
      ghost var all := entities;
      deleted := [];
      var i: U32 := Decrement(|entities|);
      ghost var j := |entities|;
      while i < |entities|
        invariant j == Unprocessed(i) <= |all| && Distinct(all) && Valid()
        invariant entities == all[..j] + Kept(all[j..]) && deleted == Doomed(all[j..])
        decreases j
      {
        var gone := DestroyStep(all, i);
        deleted := deleted + gone;
        i := Decrement(i);
        j := j - 1;
      }
      assert all[0..] == all;
      outOfRange := i;
    }

    /**
     * destroyEntities as evidently intended: the counter runs from the
     * last entry down to the first and stops there, and the vector is
     * cleared.
     */
    method DestroyEntities() returns (deleted: seq<Entity>)
      requires Valid()
      modifies this
      ensures deleted == Doomed(old(entities))
      ensures entities == []
    {
      ghost var all := entities;
      deleted := [];
      var i := |entities|;
      while i > 0
        invariant 0 <= i <= |all| && Distinct(all) && Valid()
        invariant entities == all[..i] + Kept(all[i..]) && deleted == Doomed(all[i..])
      {
        var gone := DestroyStep(all, i - 1);
        deleted := deleted + gone;
        i := i - 1;
      }
      assert all[0..] == all;
      entities := [];
    }

    /** One pass of destroyEntities' loop: entry i deleted unless dependant. */
    method DestroyStep(ghost all: seq<Entity>, i: nat) returns (gone: seq<Entity>)
      requires Valid() && Distinct(all) && i < |all|
      requires entities == all[..i + 1] + Kept(all[i + 1..])
      modifies this
      ensures Valid()
      ensures entities == all[..i] + Kept(all[i..])
      ensures Doomed(all[i..]) == Doomed(all[i + 1..]) + gone
    {
      ghost var rest := Kept(all[i + 1..]);
      KeptStep(all, i);
      var e := entities[i];
      PrefixOfSplice(all, rest, i);
      if !e.dependant {
        ghost var before := entities;
        FindFirst(before, i);
        RemoveFirstDistinct(before, e);
        assert RemoveFirst(before, e) == all[..i] + rest;
        e.Destroy(this);
        assert Kept(all[i..]) == rest;
        gone := [e];
      } else {
        gone := [];
      }
    }
  }

  /** Kept and Doomed of a suffix, one entry at a time. */
  lemma KeptStep(all: seq<Entity>, i: nat)
    requires i < |all|
    ensures Kept(all[i..]) == (if all[i].dependant then [all[i]] else []) + Kept(all[i + 1..])
    ensures Doomed(all[i..]) == Doomed(all[i + 1..]) + (if all[i].dependant then [] else [all[i]])
  {
    assert all[i..][1..] == all[i + 1..];
  }

  /** Entry i of the registry during destroyEntities, and the registry without it. */
  lemma PrefixOfSplice<T>(all: seq<T>, rest: seq<T>, i: nat)
    requires i < |all|
    ensures (all[..i + 1] + rest)[i] == all[i]
    ensures (all[..i + 1] + rest)[..i] + (all[..i + 1] + rest)[i + 1..] == all[..i] + rest
    ensures all[..i + 1] + rest == all[..i] + [all[i]] + rest
  {
    var s := all[..i + 1] + rest;
    assert s[..i] == all[..i];
    assert s[i + 1..] == rest;
  }

  /**
   * The values the as-written counter takes from i on, each one checked
   * against the guard i >= 0 and then used as an index: down to 0, then
   * the wrapped 0xFFFFFFFF.
   */
  function CounterFrom(i: U32): (vs: seq<U32>)
    ensures |vs| == Unprocessed(i) + 1
    decreases Unprocessed(i)
  {
    if i == UINT_MAX then [i] else [i] + CounterFrom(Decrement(i))
  }

  /**
   * For a registry of n entries, the counter visits n - 1 down to 0, every
   * one an index in range, and then 0xFFFFFFFF, the first index out of
   * range: the guard never stops the loop.
   */
  lemma {:induction false} CounterWraps(n: nat)
    requires n < UINT_MAX
    ensures var vs := CounterFrom(Decrement(n));
      && |vs| == n + 1
      && (forall k :: 0 <= k < n ==> vs[k] == n - 1 - k)
      && vs[n] == UINT_MAX && vs[n] >= n
  {
    if n > 0 {
      CounterWraps(n - 1);
      assert CounterFrom(Decrement(n)) == [n - 1] + CounterFrom(Decrement(n - 1));
    }
  }

  /** The source's i-- on an unsigned int. */
  function Decrement(i: U32): (r: U32)
    ensures i > 0 ==> r == i - 1
    ensures i == 0 ==> r == UINT_MAX
  {
    (i + UINT_MAX) % U32_MODULUS
  }

  /** How many entries are still to be examined when the counter is at i. */
  function Unprocessed(i: U32): nat {
    if i == UINT_MAX then 0 else i + 1
  }
}
