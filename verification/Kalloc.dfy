/** The frame allocator as kalloc.c holds it: a list threaded through kmem.runs,
    and a reference count beside each link. */
module Kalloc {

  const NULL := -1

  function Head(free: seq<nat>): (r: int) { if free == [] then NULL else free[0] }

  /** The list from freelist through next is exactly free, without repetition,
      and its frames have count 0. */
  ghost predicate Threaded(next: seq<int>, count: seq<nat>, free: seq<nat>, freelist: int) {
    && |next| == |count| && freelist == Head(free)
    && (forall i :: 0 <= i < |free| ==> free[i] < |next| && count[free[i]] == 0 && next[free[i]] == Head(free[i + 1..]))
    && (forall i, j :: 0 <= i < j < |free| ==> free[i] != free[j])
  }

  lemma PushThreads(next: seq<int>, count: seq<nat>, free: seq<nat>, freelist: int, f: nat)
    requires Threaded(next, count, free, freelist) && f < |next| && f !in free
    ensures Threaded(next[f := freelist], count[f := 0], [f] + free, f)
  {
    forall i | 0 <= i < |[f] + free| ensures next[f := freelist][([f] + free)[i]] == Head(([f] + free)[i + 1..]) {
      assert ([f] + free)[i + 1..] == free[i..];
      if i > 0 {
        assert free[i - 1] != f && free[i..] == free[(i - 1) + 1..];
      }
    }
  }

  lemma PopThreads(next: seq<int>, count: seq<nat>, free: seq<nat>, freelist: int)
    requires Threaded(next, count, free, freelist) && free != []
    ensures freelist == free[0] && free[0] !in free[1..]
    ensures Threaded(next, count[free[0] := 1], free[1..], next[free[0]])
  {
    var rest := free[1..];
    forall i | 0 <= i < |rest| ensures next[rest[i]] == Head(rest[i + 1..]) && count[free[0] := 1][rest[i]] == 0 {
      assert rest[i] == free[i + 1] && rest[i + 1..] == free[i + 2..];
    }
  }

  class Kmem {
    const next: array<int>
    const count: array<nat>
    var freelist: int
    ghost var free: seq<nat>

    ghost predicate Valid()
      reads this, next, count
    {
      Threaded(next[..], count[..], free, freelist)
    }

    constructor (n: nat)
      ensures Valid() && free == [] && count.Length == n && fresh(next) && fresh(count)
      ensures forall f :: 0 <= f < n ==> count[f] == 0
    {
      next := new int[n](_ => NULL);
      count := new nat[n](_ => 0);
      freelist := NULL;
      free := [];
    }

    /** kfree2: no look at the count. */
    method Kfree2(f: nat)
      requires Valid() && f < count.Length && f !in free
      modifies this, next, count
      ensures Valid() && free == [f] + old(free) && count[..] == old(count[..])[f := 0]
    {
      PushThreads(next[..], count[..], free, freelist, f);
      ghost var nx, ct := next[..], count[..];
      next[f] := freelist;
      freelist := f;
      count[f] := 0;
      free := [f] + free;
      assert next[..] == nx[f := old(freelist)] && count[..] == ct[f := 0];
    }

    /** kfree. False is the failed assertion that the count is 1. */
    method Kfree(f: nat) returns (ok: bool)
      requires Valid() && f < count.Length
      modifies this, next, count
      ensures Valid() && ok == (old(count[f]) == 1)
      ensures ok ==> free == [f] + old(free) && count[..] == old(count[..])[f := 0]
      ensures !ok ==> free == old(free) && count[..] == old(count[..])
    {
      if count[f] != 1 {
        return false;
      }
      assert f !in free;
      Kfree2(f);
      return true;
    }

    /** kalloc. NULL when nothing is free. */
    method Kalloc() returns (f: int)
      requires Valid()
      modifies this, count
      ensures Valid() && f == Head(old(free))
      ensures f == NULL ==> free == old(free) && count[..] == old(count[..])
      ensures f != NULL ==> 0 <= f < count.Length && free == old(free)[1..] && count[..] == old(count[..])[f := 1]
    {
      f := freelist;
      if f != NULL {
        PopThreads(next[..], count[..], free, freelist);
        ghost var ct := count[..];
        freelist := next[f];
        count[f] := 1;
        free := free[1..];
        assert count[..] == ct[f := 1];
      }
    }

    method InclRefCount(f: nat)
      requires Valid() && f < count.Length && f !in free
      modifies count
      ensures Valid() && count[..] == old(count[..])[f := old(count[f]) + 1]
    {
      ghost var ct := count[..];
      count[f] := count[f] + 1;
      assert count[..] == ct[f := ct[f] + 1];
    }

    method DeclRefCount(f: nat)
      requires Valid() && f < count.Length && f !in free && count[f] > 0
      modifies count
      ensures Valid() && count[..] == old(count[..])[f := old(count[f]) - 1]
    {
      ghost var ct := count[..];
      count[f] := count[f] - 1;
      assert count[..] == ct[f := ct[f] - 1];
    }

    /** What deallocuvm, freevm and wait do with a frame they let go of: the
        assertion of kfree holds. */
    method Drop(f: nat)
      requires Valid() && f < count.Length && f !in free && count[f] > 0
      modifies this, next, count
      ensures Valid()
      ensures old(count[f]) == 1 ==> free == [f] + old(free) && count[..] == old(count[..])[f := 0]
      ensures old(count[f]) > 1 ==> free == old(free) && count[..] == old(count[..])[f := old(count[f]) - 1]
    {
      var n := GetRefCount(f);
      if n == 1 {
        var ok := Kfree(f);
        assert ok;
      } else {
        DeclRefCount(f);
      }
    }

    method GetRefCount(f: nat) returns (n: nat)
      requires f < count.Length
      ensures n == count[f]
    {
      return count[f];
    }
  }
}
