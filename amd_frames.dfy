/**
 * The frame times of one action: the keys of the exporter's `frames` dict,
 * filled with key.co.x of every keyframe point, and their ascending order
 * as `sorted(frames)` yields it.
 *
 * A dict keyed by floats merges keys that compare equal (0.0 and -0.0 are
 * one key, the first inserted is kept) and never merges a NaN, since each
 * key.co.x is a fresh float object and NaN != NaN.
 */
module AmdFrames {
  import opened Bytes

  /** Some entry of ts equals t as floats. */
  predicate HasEqual(ts: seq<F32>, t: F32) {
    exists i :: 0 <= i < |ts| && FEq(ts[i], t)
  }

  /** The dict's keys, in insertion order, after inserting ts in order. */
  function DistinctFrames(ts: seq<F32>): seq<F32> {
    if ts == [] then []
    else
      var keys := DistinctFrames(ts[..|ts| - 1]);
      if HasEqual(keys, ts[|ts| - 1]) then keys else keys + [ts[|ts| - 1]]
  }

  /** `for key in points: frames[key.co.x] = 1` */
  method CollectFrames(keyTimes: seq<F32>) returns (frames: seq<F32>)
    ensures frames == DistinctFrames(keyTimes)
  {
    frames := [];
    var k := 0;
    while k < |keyTimes|
      invariant k <= |keyTimes|
      invariant frames == DistinctFrames(keyTimes[..k])
    {
      var frame := keyTimes[k];
      assert keyTimes[..k + 1][..k] == keyTimes[..k];
      if !HasEqual(frames, frame) {
        frames := frames + [frame];
      }
      k := k + 1;
    }
    assert keyTimes[..k] == keyTimes;
  }

  /**
   * The keys are key times, no two keys are equal, and every key time is
   * equal to some key, or is a NaN that is itself a key.
   */
  lemma {:induction false} DistinctFramesKeys(ts: seq<F32>)
    ensures forall i :: 0 <= i < |DistinctFrames(ts)| ==> DistinctFrames(ts)[i] in ts
    ensures forall i, j :: 0 <= i < j < |DistinctFrames(ts)| ==> !FEq(DistinctFrames(ts)[i], DistinctFrames(ts)[j])
    ensures forall k :: 0 <= k < |ts| ==> HasEqual(DistinctFrames(ts), ts[k]) || ts[k] in DistinctFrames(ts)
  {
    if ts != [] {
      var init := ts[..|ts| - 1];
      var t := ts[|ts| - 1];
      DistinctFramesKeys(init);
      var keys := DistinctFrames(init);
      assert forall x :: x in init ==> x in ts;
      assert forall k :: 0 <= k < |init| ==> ts[k] == init[k];
      if !HasEqual(keys, t) {
        var r := keys + [t];
        forall i, j | 0 <= i < j < |r|
          ensures !FEq(r[i], r[j])
        {
          if j == |keys| {
            assert !FEq(keys[i], t);
          }
        }
        forall k | 0 <= k < |ts|
          ensures HasEqual(r, ts[k]) || ts[k] in r
        {
          if k < |init| {
            if HasEqual(keys, ts[k]) {
              var i :| 0 <= i < |keys| && FEq(keys[i], ts[k]);
              assert r[i] == keys[i];
            }
          }
        }
      }
    }
  }

  // ---------------------------------------------------------------------------
  // sorted()
  // ---------------------------------------------------------------------------

  predicate NoNaN(ts: seq<F32>) {
    forall i :: 0 <= i < |ts| ==> !IsNaN(ts[i])
  }

  /** Non-decreasing by numeric value. */
  predicate Ascending(ts: seq<F32>) {
    forall i, j :: 0 <= i < j < |ts| ==> OrderKey(ts[i]) <= OrderKey(ts[j])
  }

  /** Each entry is less than the next, by float `<`. */
  predicate StrictlyAscending(ts: seq<F32>) {
    forall i, j :: 0 <= i < j < |ts| ==> FLt(ts[i], ts[j])
  }

  /** Insert x into a sorted list after every entry it is not less than (a stable insertion with `<`). */
  function Insert(s: seq<F32>, x: F32): (r: seq<F32>)
    ensures multiset(r) == multiset(s) + multiset{x}
    ensures forall y :: y in r <==> y in s || y == x
  {
    if s == [] then [x]
    else if FLt(x, s[|s| - 1]) then
      assert s == s[..|s| - 1] + [s[|s| - 1]];
      Insert(s[..|s| - 1], x) + [s[|s| - 1]]
    else s + [x]
  }

  /**
   * `sorted(frames)` as an insertion sort with float `<`.  It agrees with
   * Python's sort when no key time is NaN; with a NaN the two can order
   * the other times differently.
   */
  function SortFrames(ts: seq<F32>): (r: seq<F32>)
    ensures multiset(r) == multiset(ts)
    ensures forall y :: y in r <==> y in ts
  {
    if ts == [] then []
    else
      assert ts == ts[..|ts| - 1] + [ts[|ts| - 1]];
      Insert(SortFrames(ts[..|ts| - 1]), ts[|ts| - 1])
  }

  /** The frame times an action writes: the distinct key times, ascending. */
  function FrameTimes(keyTimes: seq<F32>): seq<F32> {
    SortFrames(DistinctFrames(keyTimes))
  }

  /** No two entries are equal as floats. */
  predicate Distinct(ts: seq<F32>) {
    forall i, j :: 0 <= i < j < |ts| ==> !FEq(ts[i], ts[j])
  }

  lemma {:induction false} InsertAscending(s: seq<F32>, x: F32)
    requires NoNaN(s) && !IsNaN(x) && Ascending(s)
    ensures NoNaN(Insert(s, x)) && Ascending(Insert(s, x))
  {
    if s != [] {
      var init := s[..|s| - 1];
      var last := s[|s| - 1];
      assert forall i :: 0 <= i < |init| ==> init[i] == s[i];
      if FLt(x, last) {
        InsertAscending(init, x);
        var ins := Insert(init, x);
        forall i | 0 <= i < |ins|
          ensures OrderKey(ins[i]) <= OrderKey(last)
        {
          assert ins[i] in init || ins[i] == x;
        }
        AscendingSnoc(ins, last);
      } else {
        AscendingSnoc(s, x);
      }
    }
  }

  /** An ascending list stays ascending with an entry no smaller than all of it at the end. */
  lemma AscendingSnoc(s: seq<F32>, x: F32)
    requires NoNaN(s) && !IsNaN(x) && Ascending(s)
    requires forall i :: 0 <= i < |s| ==> OrderKey(s[i]) <= OrderKey(x)
    ensures NoNaN(s + [x]) && Ascending(s + [x])
  {
    var r := s + [x];
    forall i, j | 0 <= i < j < |r|
      ensures OrderKey(r[i]) <= OrderKey(r[j])
    {
      assert r[i] == s[i];
    }
  }

  lemma {:induction false} InsertDistinct(s: seq<F32>, x: F32)
    requires Distinct(s) && !HasEqual(s, x)
    ensures Distinct(Insert(s, x))
  {
    if s != [] {
      var init := s[..|s| - 1];
      var last := s[|s| - 1];
      assert forall i :: 0 <= i < |init| ==> init[i] == s[i];
      if FLt(x, last) {
        InsertDistinct(init, x);
        var ins := Insert(init, x);
        forall i | 0 <= i < |ins|
          ensures !FEq(ins[i], last)
        {
          if ins[i] != x {
            assert ins[i] in ins;
            var k :| 0 <= k < |init| && init[k] == ins[i];
          } else {
            assert !FEq(last, x);
          }
        }
      } else {
        forall i | 0 <= i < |s| ensures !FEq(s[i], x) { }
      }
    }
  }

  lemma {:induction false} SortFramesAscending(ts: seq<F32>)
    requires NoNaN(ts)
    ensures NoNaN(SortFrames(ts)) && Ascending(SortFrames(ts))
  {
    if ts != [] {
      var init := ts[..|ts| - 1];
      assert forall i :: 0 <= i < |init| ==> init[i] == ts[i];
      SortFramesAscending(init);
      InsertAscending(SortFrames(init), ts[|ts| - 1]);
    }
  }

  lemma {:induction false} SortFramesDistinct(ts: seq<F32>)
    requires Distinct(ts)
    ensures Distinct(SortFrames(ts))
  {
    if ts != [] {
      var init := ts[..|ts| - 1];
      var x := ts[|ts| - 1];
      assert forall i :: 0 <= i < |init| ==> init[i] == ts[i];
      SortFramesDistinct(init);
      var sorted := SortFrames(init);
      assert !HasEqual(sorted, x) by {
        forall i | 0 <= i < |sorted| ensures !FEq(sorted[i], x) {
          assert sorted[i] in sorted;
          var k :| 0 <= k < |init| && init[k] == sorted[i];
        }
      }
      InsertDistinct(sorted, x);
    }
  }

  lemma DistinctFramesNoNaN(ts: seq<F32>)
    requires NoNaN(ts)
    ensures NoNaN(DistinctFrames(ts)) && Distinct(DistinctFrames(ts))
  {
    var keys := DistinctFrames(ts);
    DistinctFramesKeys(ts);
    forall i | 0 <= i < |keys| ensures !IsNaN(keys[i]) {
      var k :| 0 <= k < |ts| && ts[k] == keys[i];
    }
  }

  /**
   * Without NaN key times, the frames an action writes are its key times,
   * each once up to float equality, in strictly increasing order.
   */
  lemma FrameTimesStrictlyAscending(keyTimes: seq<F32>)
    requires NoNaN(keyTimes)
    ensures StrictlyAscending(FrameTimes(keyTimes))
    ensures forall k :: 0 <= k < |keyTimes| ==> HasEqual(FrameTimes(keyTimes), keyTimes[k])
    ensures forall i :: 0 <= i < |FrameTimes(keyTimes)| ==> FrameTimes(keyTimes)[i] in keyTimes
  {
    var keys := DistinctFrames(keyTimes);
    DistinctFramesNoNaN(keyTimes);
    SortFramesAscending(keys);
    SortFramesDistinct(keys);
    AscendingDistinctIsStrict(FrameTimes(keyTimes));
    FrameTimesCover(keyTimes);
  }

  lemma FrameTimesCover(keyTimes: seq<F32>)
    requires NoNaN(keyTimes)
    ensures forall k :: 0 <= k < |keyTimes| ==> HasEqual(FrameTimes(keyTimes), keyTimes[k])
    ensures forall i :: 0 <= i < |FrameTimes(keyTimes)| ==> FrameTimes(keyTimes)[i] in keyTimes
  {
    var keys := DistinctFrames(keyTimes);
    var r := SortFrames(keys);
    DistinctFramesKeys(keyTimes);
    forall k | 0 <= k < |keyTimes|
      ensures HasEqual(r, keyTimes[k])
    {
      var t := keyTimes[k];
      var x: F32;
      if HasEqual(keys, t) {
        var i :| 0 <= i < |keys| && FEq(keys[i], t);
        x := keys[i];
      } else {
        x := t;
      }
      assert x in keys && FEq(x, t);
      assert x in r;
      var j :| 0 <= j < |r| && r[j] == x;
    }
    forall i | 0 <= i < |r|
      ensures r[i] in keyTimes
    {
      assert r[i] in r;
      assert r[i] in keys;
      var j :| 0 <= j < |keys| && keys[j] == r[i];
    }
  }

  lemma FirstIsLeast(s: seq<F32>, x: F32)
    requires StrictlyAscending(s) && x in s
    ensures x == s[0] || FLt(s[0], x)
  {
    var k :| 0 <= k < |s| && s[k] == x;
    if k > 0 {
      assert FLt(s[0], s[k]);
    }
  }

  lemma HeadIsMember(b: seq<F32>)
    requires b != []
    ensures b[0] in b
  {
  }

  /** Ascending without NaN and without equal entries is strictly ascending. */
  lemma AscendingDistinctIsStrict(r: seq<F32>)
    requires NoNaN(r) && Ascending(r) && Distinct(r)
    ensures StrictlyAscending(r)
  {
    forall i, j | 0 <= i < j < |r|
      ensures FLt(r[i], r[j])
    {
      FEqIsKeyEquality(r[i], r[j]);
    }
  }

  /**
   * Two strictly ascending lists with the same entries are equal: the order
   * sorted() produces for NaN-free frames is the only one possible.
   */
  lemma {:induction false} StrictlyAscendingUnique(a: seq<F32>, b: seq<F32>)
    requires StrictlyAscending(a) && StrictlyAscending(b)
    requires forall y :: y in a <==> y in b
    ensures a == b
  {
    if a != [] {
      assert a[0] in b;
      assert b[0] in a;
      FirstIsLeast(b, a[0]);
      FirstIsLeast(a, b[0]);
      assert a[0] == b[0];
      forall y
        ensures y in a[1..] <==> y in b[1..]
      {
        if y in a[1..] {
          var i :| 1 <= i < |a| && a[i] == y;
          assert FLt(a[0], a[i]);
          assert y in b;
          var j :| 0 <= j < |b| && b[j] == y;
          assert j != 0;
          assert b[1..][j - 1] == y;
        }
        if y in b[1..] {
          var j :| 1 <= j < |b| && b[j] == y;
          assert FLt(b[0], b[j]);
          assert y in a;
          var i :| 0 <= i < |a| && a[i] == y;
          assert i != 0;
          assert a[1..][i - 1] == y;
        }
      }
      StrictlyAscendingUnique(a[1..], b[1..]);
      assert a == [a[0]] + a[1..] && b == [b[0]] + b[1..];
    } else if b != [] {
      HeadIsMember(b);
      assert false;
    }
  }
}
