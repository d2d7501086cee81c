/** The user-level allocator (umalloc.c): a circular list of free blocks in address
    order, with one header per block. Addresses count in units of one header. */
module Malloc {
  import opened Wrappers
  import opened Counters

  type Addr = nat

  const UNIT := 8

  // Requests

  /** nunits in malloc, with the wrap of 32-bit unsigned addition. */
  function Units(nbytes: nat): (r: nat)
    requires nbytes < WORD
    ensures 1 <= r <= WORD / UNIT
  {
    (nbytes + UNIT - 1) % WORD / UNIT + 1
  }

  /** A block of Units(nbytes) units, less its header, holds nbytes bytes just when
      the rounding does not wrap. */
  lemma UnitsSufficeIff(nbytes: nat)
    requires nbytes < WORD
    ensures (Units(nbytes) - 1) * UNIT >= nbytes <==> nbytes + UNIT - 1 < WORD
  {
  }

  /** What sbrk receives for nu units: the product wraps, and its argument is a
      signed word. */
  function SbrkArgument(nu: nat): (r: int)
    requires nu <= WORD / UNIT
  {
    var w := nu * UNIT % WORD;
    if w < WORD / 2 then w else w - WORD
  }

  /** sbrk is asked for the whole block just below two gigabytes; from there on the
      request is zero or negative. */
  lemma SbrkAskedIff(nu: nat)
    requires 0 < nu <= WORD / UNIT
    ensures SbrkArgument(nu) == nu * UNIT <==> nu < WORD / 2 / UNIT
    ensures nu >= WORD / 2 / UNIT ==> SbrkArgument(nu) <= 0
  {
  }

  // The heap as a value

  /** Block h owns exactly the units from its header on that its size says. */
  ghost predicate Holds(size: map<Addr, nat>, owner: map<Addr, Addr>, h: Addr) {
    h in size && size[h] >= 1 && forall u :: h <= u < h + size[h] ==> u in owner && owner[u] == h
  }

  ghost predicate Inside(size: map<Addr, nat>, blocks: set<Addr>, h: Addr, u: Addr) {
    h in blocks && h in size && h <= u < h + size[h]
  }

  /** The blocks partition the units obtained from sbrk: `owner` maps each unit to
      the one block it lies in. */
  ghost predicate Partition(size: map<Addr, nat>, owner: map<Addr, Addr>, blocks: set<Addr>) {
    && (forall h :: h in blocks ==> Holds(size, owner, h))
    && forall u :: u in owner ==> Inside(size, blocks, owner[u], u)
  }

  /** Free blocks lie in address order and no two of them touch. The first one is
      `base`, which is empty. */
  ghost predicate Spaced(order: seq<Addr>, size: map<Addr, nat>) {
    && |order| >= 1 && order[0] in size && size[order[0]] == 0
    && (forall i :: 0 <= i < |order| ==> order[i] in size)
    && forall i, j :: 0 <= i < j < |order| ==> order[i] + size[order[i]] < order[j]
  }

  /** A block is either live or in the free list; base is no block and lies below. */
  ghost predicate Shared(order: seq<Addr>, live: set<Addr>, blocks: set<Addr>) {
    && |order| >= 1 && live <= blocks
    && (forall i :: 0 <= i < |order| ==> order[i] !in live)
    && (forall i :: 1 <= i < |order| ==> order[i] in blocks)
    && forall h :: h in blocks ==> order[0] < h && (h in live || h in order)
  }

  datatype Heap = Heap(order: seq<Addr>, size: map<Addr, nat>, live: set<Addr>, blocks: set<Addr>,
                       owner: map<Addr, Addr>)

  ghost predicate Good(h: Heap) {
    Spaced(h.order, h.size) && Partition(h.size, h.owner, h.blocks) && Shared(h.order, h.live, h.blocks)
  }

  /** Different blocks do not overlap. */
  lemma BlocksApart(size: map<Addr, nat>, owner: map<Addr, Addr>, blocks: set<Addr>, g: Addr, h: Addr)
    requires Partition(size, owner, blocks) && g in blocks && h in blocks && g < h
    ensures g in size && g + size[g] <= h
  {
    assert Holds(size, owner, g) && Holds(size, owner, h);
    assert owner[h] == h;
  }

  // Joining, cutting and adding blocks

  function Reassign(owner: map<Addr, Addr>, h: Addr, to: Addr): (r: map<Addr, Addr>) {
    map u | u in owner :: if owner[u] == h then to else owner[u]
  }

  lemma Join(size: map<Addr, nat>, owner: map<Addr, Addr>, blocks: set<Addr>, lo: Addr, hi: Addr)
    requires Partition(size, owner, blocks) && lo in blocks && hi in blocks && lo in size && hi in size
    requires lo + size[lo] == hi
    ensures Partition(size[lo := size[lo] + size[hi]], Reassign(owner, hi, lo), blocks - {hi})
  {
    var size', owner', blocks' := size[lo := size[lo] + size[hi]], Reassign(owner, hi, lo), blocks - {hi};
    assert Holds(size, owner, lo) && Holds(size, owner, hi);
    forall u | u in owner' ensures Inside(size', blocks', owner'[u], u) {
      assert Inside(size, blocks, owner[u], u);
    }
    forall h | h in blocks' ensures Holds(size', owner', h) {
      assert Holds(size, owner, h);
    }
  }

  function Cleave(owner: map<Addr, Addr>, p: Addr, q: Addr): (r: map<Addr, Addr>) {
    map u | u in owner :: if owner[u] == p && u >= q then q else owner[u]
  }

  lemma Cut(size: map<Addr, nat>, owner: map<Addr, Addr>, blocks: set<Addr>, p: Addr, q: Addr)
    requires Partition(size, owner, blocks) && p in blocks && p in size && p < q < p + size[p]
    ensures q !in blocks
    ensures Partition(size[p := q - p][q := p + size[p] - q], Cleave(owner, p, q), blocks + {q})
  {
    var size', owner', blocks' := size[p := q - p][q := p + size[p] - q], Cleave(owner, p, q), blocks + {q};
    assert Holds(size, owner, p);
    assert owner[q] == p;
    forall h | h in blocks ensures h != q {
      assert Holds(size, owner, h);
    }
    forall u | u in owner' ensures Inside(size', blocks', owner'[u], u) {
      assert Inside(size, blocks, owner[u], u);
    }
    forall h | h in blocks' ensures Holds(size', owner', h) {
      if h != q {
        assert Holds(size, owner, h);
      }
    }
  }

  ghost function Extend(owner: map<Addr, Addr>, start: Addr, n: nat): (r: map<Addr, Addr>)
    ensures forall u :: u in r <==> u in owner || start <= u < start + n
    ensures forall u :: u in r ==> r[u] == if start <= u < start + n then start else owner[u]
    decreases n
  {
    if n == 0 then owner else Extend(owner, start, n - 1)[start + n - 1 := start]
  }

  lemma Add(size: map<Addr, nat>, owner: map<Addr, Addr>, blocks: set<Addr>, start: Addr, n: nat)
    requires Partition(size, owner, blocks) && n > 0
    requires forall u :: u in owner ==> u < start
    ensures start !in blocks
    ensures Partition(size[start := n], Extend(owner, start, n), blocks + {start})
  {
    var size', owner', blocks' := size[start := n], Extend(owner, start, n), blocks + {start};
    forall h | h in blocks ensures h < start {
      assert Holds(size, owner, h);
      assert h in owner;
    }
    forall u | u in owner' ensures Inside(size', blocks', owner'[u], u) {
      if u in owner {
        assert Inside(size, blocks, owner[u], u);
      }
    }
    forall h | h in blocks' ensures Holds(size', owner', h) {
      if h != start {
        assert Holds(size, owner, h);
      }
    }
  }

  // What free and malloc do to the heap

  /** A live block lies in the gap after free block t. */
  lemma InGap(h: Heap, bp: Addr, t: nat)
    requires Good(h) && bp in h.live && t < |h.order|
    requires h.order[t] < bp && (t + 1 < |h.order| ==> bp < h.order[t + 1])
    ensures bp in h.size && h.order[t] + h.size[h.order[t]] <= bp
    ensures t + 1 < |h.order| ==> bp + h.size[bp] <= h.order[t + 1]
  {
    assert Holds(h.size, h.owner, bp);
    if t > 0 {
      BlocksApart(h.size, h.owner, h.blocks, h.order[t], bp);
    }
    if t + 1 < |h.order| {
      BlocksApart(h.size, h.owner, h.blocks, bp, h.order[t + 1]);
    }
  }

  function Omit(order: seq<Addr>, i: nat): (r: seq<Addr>)
    requires i < |order|
  {
    order[..i] + order[i + 1..]
  }

  function Slot(order: seq<Addr>, i: nat, a: Addr): (r: seq<Addr>)
    requires i <= |order|
  {
    order[..i] + [a] + order[i..]
  }

  /** free's first half: the block being freed swallows the free block right after it. */
  ghost function AbsorbUpper(h: Heap, bp: Addr, t: nat): (r: Heap)
    requires Good(h) && t + 1 < |h.order| && bp in h.size
  {
    var next := h.order[t + 1];
    Heap(Omit(h.order, t + 1), h.size[bp := h.size[bp] + h.size[next]], h.live, h.blocks - {next},
         Reassign(h.owner, next, bp))
  }

  lemma AbsorbUpperGood(h: Heap, bp: Addr, t: nat)
    requires Good(h) && bp in h.live && bp in h.size && t + 1 < |h.order|
    requires h.order[t] < bp && bp + h.size[bp] == h.order[t + 1]
    ensures Good(AbsorbUpper(h, bp, t))
  {
    var g := AbsorbUpper(h, bp, t);
    Join(h.size, h.owner, h.blocks, bp, h.order[t + 1]);
    SpacedOmit(h.order, h.size, t + 1, bp, g.size[bp]);
    SharedOmit(h.order, h.live, h.blocks, t + 1);
  }

  /** Taking one block out of the list, and writing to a header that is not in it. */
  lemma SpacedOmit(order: seq<Addr>, size: map<Addr, nat>, i: nat, other: Addr, n: nat)
    requires Spaced(order, size) && 1 <= i < |order| && other !in order
    ensures Spaced(Omit(order, i), size[other := n])
  {
  }

  lemma SharedOmit(order: seq<Addr>, live: set<Addr>, blocks: set<Addr>, i: nat)
    requires Shared(order, live, blocks) && 1 <= i < |order|
    requires forall j, k :: 0 <= j < k < |order| ==> order[j] != order[k]
    ensures Shared(Omit(order, i), live, blocks - {order[i]})
    ensures Shared(Omit(order, i), live + {order[i]}, blocks)
  {
    var o := Omit(order, i);
    forall a | a in order && a != order[i] ensures a in o {
      var k :| 0 <= k < |order| && order[k] == a;
      assert o[if k < i then k else k - 1] == a;
    }
  }

  lemma SharedDrop(order: seq<Addr>, live: set<Addr>, blocks: set<Addr>, bp: Addr)
    requires Shared(order, live, blocks) && bp in live
    ensures Shared(order, live - {bp}, blocks - {bp})
  {
  }

  lemma SharedAdd(order: seq<Addr>, live: set<Addr>, blocks: set<Addr>, q: Addr)
    requires Shared(order, live, blocks) && q !in blocks && order[0] < q
    ensures Shared(order, live + {q}, blocks + {q}) && q !in order
  {
  }

  /** free's second half when the block before ends where this one begins. */
  ghost function AbsorbLower(h: Heap, bp: Addr, t: nat): (r: Heap)
    requires Good(h) && t < |h.order| && bp in h.size
  {
    var p := h.order[t];
    Heap(h.order, h.size[p := h.size[p] + h.size[bp]], h.live - {bp}, h.blocks - {bp}, Reassign(h.owner, bp, p))
  }

  lemma AbsorbLowerGood(h: Heap, bp: Addr, t: nat)
    requires Good(h) && bp in h.live && bp in h.size && t < |h.order|
    requires h.order[t] < bp && h.order[t] + h.size[h.order[t]] == bp
    requires t + 1 < |h.order| ==> bp + h.size[bp] < h.order[t + 1]
    ensures Good(AbsorbLower(h, bp, t))
  {
    hide Partition, Holds;
    assert t > 0;
    assert h.order[t] in h.blocks;
    Join(h.size, h.owner, h.blocks, h.order[t], bp);
    SharedDrop(h.order, h.live, h.blocks, bp);
    SpacedGrow(h.order, h.size, t, h.size[h.order[t]] + h.size[bp]);
  }

  lemma SpacedGrow(order: seq<Addr>, size: map<Addr, nat>, t: nat, n: nat)
    requires Spaced(order, size) && 1 <= t < |order|
    requires t + 1 < |order| ==> order[t] + n < order[t + 1]
    ensures Spaced(order, size[order[t] := n])
  {
    forall j | t < j < |order| ensures order[t] + n < order[j] {
      assert j > t + 1 ==> order[t + 1] + size[order[t + 1]] < order[j];
    }
  }

  /** Writing to a header that is not in the list. */
  lemma SpacedOther(order: seq<Addr>, size: map<Addr, nat>, q: Addr, n: nat)
    requires Spaced(order, size) && q !in order
    ensures Spaced(order, size[q := n])
  {
  }

  /** free's second half otherwise. */
  ghost function Insert(h: Heap, bp: Addr, t: nat): (r: Heap)
    requires t < |h.order|
  {
    Heap(Slot(h.order, t + 1, bp), h.size, h.live - {bp}, h.blocks, h.owner)
  }

  lemma InsertGood(h: Heap, bp: Addr, t: nat)
    requires Good(h) && bp in h.live && bp in h.size && t < |h.order|
    requires h.order[t] + h.size[h.order[t]] < bp
    requires t + 1 < |h.order| ==> bp + h.size[bp] < h.order[t + 1]
    ensures Good(Insert(h, bp, t))
  {
    SpacedSlot(h.order, h.size, t, bp);
    SharedSlot(h.order, h.live, h.blocks, t, bp);
  }

  lemma SpacedSlot(order: seq<Addr>, size: map<Addr, nat>, t: nat, bp: Addr)
    requires Spaced(order, size) && t < |order| && bp in size
    requires order[t] + size[order[t]] < bp && (t + 1 < |order| ==> bp + size[bp] < order[t + 1])
    ensures Spaced(Slot(order, t + 1, bp), size)
  {
    forall j | t < j < |order| ensures bp + size[bp] < order[j] {
      assert j > t + 1 ==> order[t + 1] + size[order[t + 1]] < order[j];
    }
    forall i | 0 <= i <= t ensures order[i] + size[order[i]] < bp {
      assert i < t ==> order[i] + size[order[i]] < order[t];
    }
  }

  lemma SharedSlot(order: seq<Addr>, live: set<Addr>, blocks: set<Addr>, t: nat, bp: Addr)
    requires Shared(order, live, blocks) && t < |order| && bp in live
    ensures Shared(Slot(order, t + 1, bp), live - {bp}, blocks)
  {
    var o := Slot(order, t + 1, bp);
    assert o[t + 1] == bp;
    forall a | a in order ensures a in o {
      var k :| 0 <= k < |order| && order[k] == a;
      assert o[if k <= t then k else k + 1] == a;
    }
  }

  /** malloc's exact fit. */
  ghost function TakeWhole(h: Heap, i: nat): (r: Heap)
    requires i < |h.order|
  {
    h.(order := Omit(h.order, i), live := h.live + {h.order[i]})
  }

  lemma TakeWholeGood(h: Heap, i: nat)
    requires Good(h) && 1 <= i < |h.order|
    ensures Good(TakeWhole(h, i))
  {
    assert forall j :: 0 <= j < |h.order| && j != i ==> h.order[j] != h.order[i];
    SharedOmit(h.order, h.live, h.blocks, i);
  }

  /** malloc's split: the tail end of the free block becomes the live one. */
  ghost function TakeTail(h: Heap, i: nat, n: nat): (r: Heap)
    requires i < |h.order| && h.order[i] in h.size && n <= h.size[h.order[i]]
  {
    var p := h.order[i];
    var q := p + h.size[p] - n;
    Heap(h.order, h.size[p := h.size[p] - n][q := n], h.live + {q}, h.blocks + {q}, Cleave(h.owner, p, q))
  }

  lemma TailApart(h: Heap, i: nat)
    requires Good(h) && 1 <= i < |h.order|
    ensures h.order[i] in h.size && h.order[i] in h.blocks && h.order[0] < h.order[i]
  {
  }

  lemma StopsBefore(h: Heap, i: nat)
    requires Good(h) && i + 1 < |h.order|
    ensures h.order[i] in h.size && h.order[i] + h.size[h.order[i]] < h.order[i + 1]
  {
  }

  lemma TakeTailGood(h: Heap, i: nat, n: nat)
    requires Good(h) && 1 <= i < |h.order| && 0 < n < h.size[h.order[i]]
    ensures Good(TakeTail(h, i, n))
    ensures h.order[i] + h.size[h.order[i]] - n !in h.blocks
  {
    hide Partition, Holds, Shared, Spaced;
    TailApart(h, i);
    var p := h.order[i];
    var q := p + h.size[p] - n;
    if i + 1 < |h.order| {
      StopsBefore(h, i);
    }
    Cut(h.size, h.owner, h.blocks, p, q);
    SpacedGrow(h.order, h.size, i, h.size[p] - n);
    SharedAdd(h.order, h.live, h.blocks, q);
    SpacedOther(h.order, h.size[p := h.size[p] - n], q, n);
  }

  /** morecore's new block, before it is handed to free. */
  ghost function AddCore(h: Heap, start: Addr, n: nat): (r: Heap) {
    Heap(h.order, h.size[start := n], h.live + {start}, h.blocks + {start}, Extend(h.owner, start, n))
  }

  lemma AddCoreGood(h: Heap, start: Addr, n: nat)
    requires Good(h) && n > 0 && h.order[0] < start
    requires forall u :: u in h.owner ==> u < start
    ensures Good(AddCore(h, start, n)) && start !in h.blocks
  {
    Add(h.size, h.owner, h.blocks, start, n);
    assert start !in h.order;
  }

  // The circular list

  function After(order: seq<Addr>, i: nat): (r: Addr)
    requires i < |order|
  {
    order[if i + 1 < |order| then i + 1 else 0]
  }

  ghost predicate Increasing(order: seq<Addr>) { forall i, j :: 0 <= i < j < |order| ==> order[i] < order[j] }

  ghost predicate Chained(order: seq<Addr>, ptr: map<Addr, Addr>, i: nat)
    requires i < |order|
  {
    order[i] in ptr && ptr[order[i]] == After(order, i)
  }

  ghost predicate Ring(order: seq<Addr>, ptr: map<Addr, Addr>) {
    forall i :: 0 <= i < |order| ==> Chained(order, ptr, i)
  }

  lemma RingOmit(order: seq<Addr>, ptr: map<Addr, Addr>, i: nat)
    requires Ring(order, ptr) && Increasing(order) && 1 <= i < |order|
    ensures order[i] in ptr && Ring(Omit(order, i), ptr[order[i - 1] := ptr[order[i]]])
    ensures Increasing(Omit(order, i))
  {
    assert Chained(order, ptr, i);
    var o, q := Omit(order, i), ptr[order[i - 1] := ptr[order[i]]];
    forall k | 0 <= k < |o| ensures Chained(o, q, k) {
      var j := if k < i then k else k + 1;
      assert Chained(order, ptr, j) && o[k] == order[j];
    }
  }

  lemma RingSlot(order: seq<Addr>, ptr: map<Addr, Addr>, t: nat, bp: Addr)
    requires Ring(order, ptr) && Increasing(order) && t < |order|
    requires order[t] < bp && (t + 1 < |order| ==> bp < order[t + 1])
    ensures order[t] in ptr && Ring(Slot(order, t + 1, bp), ptr[bp := ptr[order[t]]][order[t] := bp])
  {
    assert Chained(order, ptr, t);
    var q := ptr[bp := ptr[order[t]]][order[t] := bp];
    var o := Slot(order, t + 1, bp);
    forall k | 0 <= k < |o| ensures Chained(o, q, k) {
      SlotChained(order, ptr, t, bp, k);
    }
  }

  lemma SlotChained(order: seq<Addr>, ptr: map<Addr, Addr>, t: nat, bp: Addr, k: nat)
    requires Ring(order, ptr) && Increasing(order) && t < |order| && k <= |order|
    requires order[t] < bp && (t + 1 < |order| ==> bp < order[t + 1]) && order[t] in ptr
    ensures Chained(Slot(order, t + 1, bp), ptr[bp := ptr[order[t]]][order[t] := bp], k)
  {
    var o := Slot(order, t + 1, bp);
    assert Chained(order, ptr, t);
    assert o[t] == order[t] && o[t + 1] == bp;
    if k != t + 1 {
      var j := if k <= t then k else k - 1;
      assert Chained(order, ptr, j) && o[k] == order[j];
      assert j < t ==> order[j] < order[t];
      assert j > t + 1 ==> order[t + 1] < order[j];
    }
  }

  lemma RingOther(order: seq<Addr>, ptr: map<Addr, Addr>, a: Addr, v: Addr)
    requires Ring(order, ptr) && a !in order
    ensures Ring(order, ptr[a := v])
  {
    var q := ptr[a := v];
    forall i | 0 <= i < |order| ensures Chained(order, q, i) {
      assert Chained(order, ptr, i);
    }
  }

  // The allocator

  /** Some free block has n units or more. */
  ghost predicate Fits(h: Heap, n: nat) {
    exists i :: 0 <= i < |h.order| && h.order[i] in h.size && h.size[h.order[i]] >= n
  }

  /** Live blocks keep their place and size. */
  ghost predicate SameSizes(h: Heap, g: Heap, live: set<Addr>) {
    forall a :: a in live ==> a in h.size && a in g.size && h.size[a] == g.size[a]
  }

  /** g is h after the live block bp has been freed: all other live blocks and the
      memory in use are as they were, and bp's units lie in one free block. */
  ghost predicate Released(h: Heap, g: Heap, bp: Addr) {
    && Good(g) && bp in h.size
    && g.live == h.live - {bp} && SameSizes(h, g, g.live) && g.owner.Keys == h.owner.Keys
    && h.order != [] && g.order[0] == h.order[0]
    && exists i :: 1 <= i < |g.order| && g.order[i] <= bp && bp + h.size[bp] <= g.order[i] + g.size[g.order[i]]
  }

  /** g is h with the units from start on added, to the free blocks. */
  ghost predicate Grown(h: Heap, g: Heap, start: Addr, n: nat) {
    && Good(g) && g.live == h.live && SameSizes(h, g, h.live) && h.order != [] && g.order[0] == h.order[0]
    && g.owner.Keys == Extend(h.owner, start, n).Keys
  }

  /** g is h with a new live block p of n units, taken out of free memory. */
  ghost predicate Granted(h: Heap, g: Heap, p: Addr, n: nat) {
    && Good(g) && p !in h.live && g.live == h.live + {p} && SameSizes(h, g, h.live)
    && p in g.size && g.size[p] == n && g.owner.Keys == h.owner.Keys
    && h.order != [] && g.order[0] == h.order[0]
  }

  /** Unit u is in use. */
  ghost predicate InUse(h: Heap, u: Addr) { u in h.owner && h.owner[u] in h.live }

  lemma InUseBy(h: Heap, a: Addr, u: Addr)
    requires Good(h) && a in h.live && a in h.size && a <= u < a + h.size[a]
    ensures InUse(h, u) && h.owner[u] == a
  {
    assert Holds(h.size, h.owner, a);
  }

  lemma UserOf(h: Heap, u: Addr)
    requires Good(h) && InUse(h, u)
    ensures h.owner[u] in h.size && h.owner[u] <= u < h.owner[u] + h.size[h.owner[u]]
  {
    assert Inside(h.size, h.blocks, h.owner[u], u);
  }

  /** malloc puts exactly the units of the new block to use, and none of them was. */
  lemma GrantedUnits(h: Heap, g: Heap, p: Addr, n: nat, u: Addr)
    requires Good(h) && Granted(h, g, p, n)
    ensures InUse(g, u) <==> InUse(h, u) || p <= u < p + n
    ensures p <= u < p + n ==> !InUse(h, u)
  {
    hide Good;
    LiveSizes(h);
    if p <= u < p + n {
      InUseBy(g, p, u);
    }
    if InUse(h, u) {
      UserOf(h, u);
      InUseBy(g, h.owner[u], u);
    }
    if InUse(g, u) {
      UserOf(g, u);
      if g.owner[u] != p {
        InUseBy(h, g.owner[u], u);
      }
    }
  }

  /** free takes exactly the units of the freed block out of use. */
  lemma ReleasedUnits(h: Heap, g: Heap, bp: Addr, u: Addr)
    requires Good(h) && bp in h.live && Released(h, g, bp)
    ensures InUse(g, u) <==> InUse(h, u) && !(bp <= u < bp + h.size[bp])
  {
    hide Good;
    if bp <= u < bp + h.size[bp] {
      InUseBy(h, bp, u);
    }
    if InUse(h, u) {
      UserOf(h, u);
      if h.owner[u] != bp {
        InUseBy(g, h.owner[u], u);
      }
    }
    if InUse(g, u) {
      UserOf(g, u);
      InUseBy(h, g.owner[u], u);
    }
  }

  class Allocator {
    const base: Addr
    var ptr: map<Addr, Addr>
    var size: map<Addr, nat>
    var freep: Addr
    ghost var heap: Heap
    /** No unit obtained so far lies at or above this address. */
    ghost var top: Addr

    ghost predicate Valid()
      reads this
    {
      && 0 < base < top && Good(heap) && heap.order[0] == base
      && (forall u :: u in heap.owner ==> u < top)
      && (freep == 0 ==> heap == Heap([base], map[base := 0], {}, {}, map[]))
      && (freep != 0 ==> size == heap.size && Ring(heap.order, ptr) && freep in heap.order)
    }

    constructor (base: Addr)
      requires base > 0
      ensures Valid() && this.base == base && heap.live == {} && heap.owner == map[]
    {
      this.base := base;
      ptr, size, freep := map[], map[], 0;
      heap := Heap([base], map[base := 0], {}, {}, map[]);
      top := base + 1;
    }

    method Free(ap: Addr)
      requires Valid() && ap > 0 && ap - 1 in heap.live
      modifies this
      ensures Valid() && freep != 0 && Released(old(heap), heap, ap - 1) && top == old(top)
    {
      hide Good, Ring, FreeHeap, FreePtr, Released;
      assert freep != 0;
      var bp := ap - 1;
      FreeNot(heap, bp);
      var p;
      ghost var t;
      p, t := FindGap(ptr, freep, bp, heap.order);
      FreeRing(heap, ptr, bp, t);
      FreeGood(heap, bp, t);
      ReleasedOrder(heap, FreeHeap(heap, bp, t), bp);
      StillListed(heap, bp, t);
      ptr, size := Unite(ptr, size, p, bp, heap, t);
      heap := FreeHeap(heap, bp, t);
      freep := p;
    }

    /** `grant` is what sbrk answers: where the new units begin, or None for -1. */
    method Morecore(nu: nat, grant: Option<Addr>) returns (ok: bool)
      requires Valid() && freep != 0 && 0 < nu && (grant.Some? ==> grant.value >= top)
      modifies this
      ensures Valid() && freep != 0 && ok == grant.Some?
      ensures !ok ==> heap == old(heap)
      ensures ok ==> Grown(old(heap), heap, grant.value, Core(nu)) && Fits(heap, nu)
    {
      hide Good, Ring, Released, Grown, Fits;
      var n := if nu < 4096 then 4096 else nu;
      if grant.None? {
        return false;
      }
      var hp := grant.value;
      ghost var h := heap;
      AddCoreGood(h, hp, n);
      AddCoreList(h, hp, n);
      size := size[hp := n];
      heap := AddCore(h, hp, n);
      top := hp + n;
      Free(hp + 1);
      GrownBy(h, heap, hp, n, nu);
      return true;
    }

    /** malloc: the first free block after freep that is large enough, cut at its
        end; with none, new memory from sbrk is freed first and the search goes on.
        `mid` is the heap the block was taken from. */
    method Malloc(nbytes: nat, grant: Option<Addr>) returns (r: Option<Addr>, ghost mid: Heap)
      requires Valid() && nbytes < WORD && Units(nbytes) < WORD / 2 / UNIT
      requires grant.Some? ==> grant.value >= top
      modifies this
      ensures Valid()
      ensures r.None? <==> grant.None? && !Fits(old(heap), Units(nbytes))
      ensures r.None? ==> heap == old(heap)
      ensures Fits(old(heap), Units(nbytes)) ==> mid == old(heap)
      ensures r.Some? && !Fits(old(heap), Units(nbytes)) ==> Grown(old(heap), mid, grant.value, Core(Units(nbytes)))
      ensures r.Some? ==> r.value > 0 && Granted(mid, heap, r.value - 1, Units(nbytes))
    {
      hide Good, Ring, Grown, Fits, Granted, Carved, Search, Units, Core, After, Around;
      var n := Units(nbytes);
      mid := heap;
      if freep == 0 {
        ptr, size, freep := map[base := base], map[base := 0], base;
        OneRing(base);
      }
      var prevp := freep;
      ghost var k := Find(heap.order, freep);
      SearchStart(heap, ptr, k, n);
      var p := ptr[prevp];
      ghost var d := 1;
      ghost var grown := false;
      while true
        invariant Valid() && freep != 0 && heap == mid && (!grown ==> mid == old(heap) && top == old(top))
        invariant grown ==> grant.Some? && Fits(mid, n) && !Fits(old(heap), n)
        invariant grown ==> Grown(old(heap), mid, grant.value, Core(n))
        invariant Search(heap, ptr, freep, prevp, p, k, d, n)
        decreases !grown, |heap.order| - d
      {
        SearchFacts(heap, ptr, freep, prevp, p, k, d, n);
        if size[p] >= n {
          ghost var i := Around(|heap.order|, k, d);
          CarveGood(heap, i, n);
          CarveRing(heap, ptr, i, n);
          ptr, size, p := Carve(ptr, size, prevp, p, n, heap, i);
          heap := Carved(mid, i, n);
          freep := prevp;
          return Some(p + 1), mid;
        }
        if p == freep {
          NoneFits(heap, ptr, freep, prevp, p, k, d, n);
          var ok := Morecore(n, grant);
          mid := heap;
          if !ok {
            return None, mid;
          }
          grown := true;
          p := freep;
          k := Find(heap.order, freep);
          d := 0;
          SearchStart(heap, ptr, k, n);
        } else {
          SearchNext(heap, ptr, freep, prevp, p, k, d, n);
        }
        prevp, p, d := p, ptr[p], d + 1;
      }
    }
  }

  /** The index of the last free block below bp. */
  ghost function Below(order: seq<Addr>, bp: Addr): (r: nat)
    requires |order| >= 1 && order[0] < bp && bp !in order
    requires forall i, j :: 0 <= i < j < |order| ==> order[i] < order[j]
    ensures r < |order| && order[r] < bp && (r + 1 < |order| ==> bp < order[r + 1])
    decreases |order|
  {
    if order[|order| - 1] < bp then |order| - 1 else Below(order[..|order| - 1], bp)
  }

  /** free's search: the last free block below bp. */
  method FindGap(ptr: map<Addr, Addr>, freep: Addr, bp: Addr, ghost order: seq<Addr>) returns (p: Addr, ghost t: nat)
    requires Ring(order, ptr) && Increasing(order) && freep in order && order[0] < bp && bp !in order
    ensures t < |order| && p == order[t] && p < bp && (t + 1 < |order| ==> bp < order[t + 1])
  {
    ghost var goal: nat := Below(order, bp);
    p := freep;
    t :| t < |order| && order[t] == freep;
    assert Chained(order, ptr, t);
    while !(bp > p && bp < ptr[p])
      invariant t < |order| && p == order[t] && Chained(order, ptr, t)
      decreases if t <= goal then goal - t else |order| - t + goal
    {
      if p >= ptr[p] && (bp > p || bp < ptr[p]) {
        break;
      }
      p := ptr[p];
      t := if t + 1 < |order| then t + 1 else 0;
      assert Chained(order, ptr, t);
    }
  }

  /** The two joins of free. */
  method Unite(ptr: map<Addr, Addr>, size: map<Addr, nat>, p: Addr, bp: Addr, ghost h: Heap, ghost t: nat)
    returns (ptr': map<Addr, Addr>, size': map<Addr, nat>)
    requires AtGap(h, bp, t) && size == h.size && Ring(h.order, ptr) && p == h.order[t]
    ensures ptr' == FreePtr(h, ptr, bp, t) && size' == FreeHeap(h, bp, t).size
  {
    hide Good;
    Reachable(h, ptr, bp, t);
    UpperDoneGap(h, bp, t);
    ptr', size' := ptr, size;
    if bp + size'[bp] == ptr'[p] {
      size', ptr' := size'[bp := size'[bp] + size'[ptr'[p]]], ptr'[bp := ptr'[ptr'[p]]];
    } else {
      ptr' := ptr'[bp := ptr'[p]];
    }
    if p + size'[p] == bp {
      size', ptr' := size'[p := size'[p] + size'[bp]], ptr'[p := ptr'[bp]];
    } else {
      ptr' := ptr'[p := bp];
    }
  }

  lemma Reachable(h: Heap, ptr: map<Addr, Addr>, bp: Addr, t: nat)
    requires AtGap(h, bp, t) && Ring(h.order, ptr)
    ensures var p := h.order[t];
            && p in ptr && ptr[p] == After(h.order, t) && ptr[p] in ptr && ptr[p] in h.size && p in h.size
            && (TouchesUpper(h, bp, t) ==> t + 1 < |h.order|)
  {
    assert Chained(h.order, ptr, t);
    assert Chained(h.order, ptr, if t + 1 < |h.order| then t + 1 else 0);
    UpperNext(h, bp, t);
  }

  lemma ReleasedOrder(h: Heap, g: Heap, bp: Addr)
    requires Released(h, g, bp)
    ensures Good(g) && h.order != [] && g.order != [] && g.order[0] == h.order[0] && g.owner.Keys == h.owner.Keys
  {
  }

  lemma StillListed(h: Heap, bp: Addr, t: nat)
    requires AtGap(h, bp, t) && h.order[0] > 0
    ensures h.order[t] in FreeHeap(h, bp, t).order && h.order[t] > 0
  {
    UpperDoneGap(h, bp, t);
    assert FreeHeap(h, bp, t).order[t] == h.order[t];
    assert t > 0 ==> h.order[0] < h.order[t];
  }

  lemma FreeNot(h: Heap, bp: Addr)
    requires Good(h) && bp in h.live
    ensures bp in h.size && bp !in h.order && h.order[0] < bp && Increasing(h.order)
  {
    assert Holds(h.size, h.owner, bp);
  }

  /** Where free finds itself: bp lies between the free blocks t and t + 1. */
  ghost predicate AtGap(h: Heap, bp: Addr, t: nat) {
    && Good(h) && bp in h.live && bp in h.size && t < |h.order|
    && h.order[t] < bp && (t + 1 < |h.order| ==> bp < h.order[t + 1])
  }

  ghost predicate TouchesUpper(h: Heap, bp: Addr, t: nat)
    requires AtGap(h, bp, t)
  {
    bp + h.size[bp] == After(h.order, t)
  }

  /** The heap after free's first test. */
  ghost function UpperDone(h: Heap, bp: Addr, t: nat): (g: Heap)
    requires AtGap(h, bp, t)
  {
    if TouchesUpper(h, bp, t) && t + 1 < |h.order| then AbsorbUpper(h, bp, t) else h
  }

  lemma UpperNext(h: Heap, bp: Addr, t: nat)
    requires AtGap(h, bp, t)
    ensures TouchesUpper(h, bp, t) ==> t + 1 < |h.order|
  {
    assert h.order[0] <= h.order[t];
  }

  lemma UpperDoneGap(h: Heap, bp: Addr, t: nat)
    requires AtGap(h, bp, t)
    ensures var g := UpperDone(h, bp, t);
            && AtGap(g, bp, t) && g.order[t] == h.order[t] && g.order[t] in g.size
            && g.size[h.order[t]] == h.size[h.order[t]]
            && h.order[t] + h.size[h.order[t]] <= bp
            && (t + 1 < |g.order| ==> bp + g.size[bp] < g.order[t + 1])
            && h.size[bp] <= g.size[bp] && g.live == h.live && g.owner.Keys == h.owner.Keys
            && g.order[0] == h.order[0] && SameSizes(h, g, h.live - {bp})
  {
    InGap(h, bp, t);
    UpperNext(h, bp, t);
    if TouchesUpper(h, bp, t) {
      AbsorbUpperGood(h, bp, t);
    }
    LiveSizes(h);
  }

  lemma LiveSizes(h: Heap)
    requires Good(h)
    ensures forall a :: a in h.live ==> a in h.size && h.size[a] > 0
  {
    forall a | a in h.live ensures a in h.size && h.size[a] > 0 {
      assert Holds(h.size, h.owner, a);
    }
  }

  /** The heap after free, as its two tests decide. */
  ghost function FreeHeap(h: Heap, bp: Addr, t: nat): (r: Heap)
    requires AtGap(h, bp, t)
  {
    UpperDoneGap(h, bp, t);
    var g := UpperDone(h, bp, t);
    if g.order[t] + g.size[g.order[t]] == bp then AbsorbLower(g, bp, t) else Insert(g, bp, t)
  }

  /** Nothing touches bp from above any more. */
  ghost predicate UpperFree(g: Heap, bp: Addr, t: nat)
    requires AtGap(g, bp, t)
  {
    t + 1 < |g.order| ==> bp + g.size[bp] < g.order[t + 1]
  }

  lemma FreedLower(g: Heap, bp: Addr, t: nat)
    requires AtGap(g, bp, t) && UpperFree(g, bp, t) && g.order[t] + g.size[g.order[t]] == bp
    ensures Released(g, AbsorbLower(g, bp, t), bp)
  {
    hide Partition, Spaced;
    AbsorbLowerGood(g, bp, t);
    LiveSizes(g);
    var r := AbsorbLower(g, bp, t);
    BaseEmpty(g);
    assert r.order[t] == g.order[t];
  }

  lemma FreedInsert(g: Heap, bp: Addr, t: nat)
    requires AtGap(g, bp, t) && UpperFree(g, bp, t) && g.order[t] + g.size[g.order[t]] < bp
    ensures Released(g, Insert(g, bp, t), bp)
  {
    hide Partition, Spaced, Shared;
    InsertGood(g, bp, t);
    LiveSizes(g);
    BaseEmpty(g);
    var r := Insert(g, bp, t);
    assert r.order[t + 1] == bp;
  }

  lemma BaseEmpty(h: Heap)
    requires Good(h)
    ensures |h.order| >= 1 && h.order[0] in h.size && h.size[h.order[0]] == 0
  {
  }

  lemma ReleasedVia(h: Heap, g: Heap, r: Heap, bp: Addr)
    requires Released(g, r, bp) && bp in h.size && h.size[bp] <= g.size[bp]
    requires g.live == h.live && g.owner.Keys == h.owner.Keys && SameSizes(h, g, h.live - {bp})
    requires h.order != [] && g.order[0] == h.order[0]
    ensures Released(h, r, bp)
  {
    hide Good;
  }

  lemma FreeGood(h: Heap, bp: Addr, t: nat)
    requires AtGap(h, bp, t)
    ensures Released(h, FreeHeap(h, bp, t), bp)
  {
    hide UpperDone, Released, Good, Insert, AbsorbLower, SameSizes;
    UpperDoneGap(h, bp, t);
    var g := UpperDone(h, bp, t);
    if g.order[t] + g.size[g.order[t]] == bp {
      FreedLower(g, bp, t);
    } else {
      FreedInsert(g, bp, t);
    }
    ReleasedVia(h, g, FreeHeap(h, bp, t), bp);
  }

  /** The pointers free leaves behind. */
  ghost function FreePtr(h: Heap, ptr: map<Addr, Addr>, bp: Addr, t: nat): (r: map<Addr, Addr>)
    requires AtGap(h, bp, t) && Ring(h.order, ptr)
  {
    var p := h.order[t];
    assert Chained(h.order, ptr, t);
    UpperNext(h, bp, t);
    assert TouchesUpper(h, bp, t) ==> Chained(h.order, ptr, t + 1);
    var v := if TouchesUpper(h, bp, t) then ptr[ptr[p]] else ptr[p];
    ptr[bp := v][p := if p + h.size[p] == bp then v else bp]
  }

  lemma FreeRing(h: Heap, ptr: map<Addr, Addr>, bp: Addr, t: nat)
    requires AtGap(h, bp, t) && Ring(h.order, ptr)
    ensures Ring(FreeHeap(h, bp, t).order, FreePtr(h, ptr, bp, t))
  {
    hide Good, Ring, Chained, Slot, Omit, SameSizes;
    UpperDoneGap(h, bp, t);
    var g := UpperDone(h, bp, t);
    UpperRing(h, ptr, bp, t);
    var q := UpperPtr(h, ptr, bp, t);
    FreePtrVia(h, ptr, bp, t);
    FreeNot(g, bp);
    if g.order[t] + g.size[g.order[t]] == bp {
      RingOther(g.order, q, bp, q[h.order[t]]);
    } else {
      RingSlot(g.order, q, t, bp);
    }
  }

  /** The list without the block that free swallows first. */
  ghost function UpperPtr(h: Heap, ptr: map<Addr, Addr>, bp: Addr, t: nat): (r: map<Addr, Addr>)
    requires AtGap(h, bp, t) && Ring(h.order, ptr)
  {
    var p := h.order[t];
    assert Chained(h.order, ptr, t);
    UpperNext(h, bp, t);
    assert TouchesUpper(h, bp, t) ==> Chained(h.order, ptr, t + 1);
    if TouchesUpper(h, bp, t) then ptr[p := ptr[ptr[p]]] else ptr
  }

  lemma UpperRing(h: Heap, ptr: map<Addr, Addr>, bp: Addr, t: nat)
    requires AtGap(h, bp, t) && Ring(h.order, ptr)
    ensures Ring(UpperDone(h, bp, t).order, UpperPtr(h, ptr, bp, t))
    ensures h.order[t] in UpperPtr(h, ptr, bp, t)
  {
    hide Good, Omit;
    FreeNot(h, bp);
    UpperNext(h, bp, t);
    assert Chained(h.order, ptr, t);
    if TouchesUpper(h, bp, t) {
      RingOmit(h.order, ptr, t + 1);
    }
  }

  lemma FreePtrVia(h: Heap, ptr: map<Addr, Addr>, bp: Addr, t: nat)
    requires AtGap(h, bp, t) && Ring(h.order, ptr)
    ensures var q, p := UpperPtr(h, ptr, bp, t), h.order[t];
            && p in q
            && FreePtr(h, ptr, bp, t) == if p + h.size[p] == bp then q[bp := q[p]] else q[bp := q[p]][p := bp]
  {
    assert Chained(h.order, ptr, t);
    assert h.order[t] != bp;
  }

  // malloc

  /** morecore asks for at least 4096 units. */
  function Core(nu: nat): (r: nat) { if nu < 4096 then 4096 else nu }

  lemma AddCoreList(h: Heap, start: Addr, n: nat)
    requires Good(h) && n > 0 && h.order[0] < start && (forall u :: u in h.owner ==> u < start)
    ensures forall u :: u in AddCore(h, start, n).owner ==> u < start + n
  {
  }

  lemma GrownBy(h: Heap, g: Heap, start: Addr, n: nat, nu: nat)
    requires Good(h) && n > 0 && nu <= n && start !in h.blocks && Released(AddCore(h, start, n), g, start)
    ensures Grown(h, g, start, n) && Fits(g, nu)
  {
    LiveSizes(h);
    assert start !in h.live;
    assert AddCore(h, start, n).live - {start} == h.live;
  }

  lemma OneRing(base: Addr)
    ensures Ring([base], map[base := base])
  {
  }

  ghost function Find(order: seq<Addr>, a: Addr): (r: nat)
    requires a in order
    ensures r < |order| && order[r] == a
  {
    var k :| 0 <= k < |order| && order[k] == a;
    k
  }

  /** The place e steps on from k in a circle of n. */
  function Around(n: nat, k: nat, e: nat): (r: nat)
    requires k < n && e <= n
    ensures r < n
  {
    if k + e < n then k + e else k + e - n
  }

  /** malloc's loop: d steps on from freep, with every block on the way too small. */
  ghost predicate Search(h: Heap, ptr: map<Addr, Addr>, freep: Addr, prevp: Addr, p: Addr, k: nat, d: nat, n: nat) {
    && Good(h) && k < |h.order| && h.order[k] == freep && 1 <= d <= |h.order|
    && p == h.order[Around(|h.order|, k, d)] && prevp == h.order[Around(|h.order|, k, d - 1)]
    && forall e :: 1 <= e < d ==> h.size[h.order[Around(|h.order|, k, e)]] < n
  }

  lemma SearchStart(h: Heap, ptr: map<Addr, Addr>, k: nat, n: nat)
    requires Good(h) && Ring(h.order, ptr) && k < |h.order|
    ensures h.order[k] in ptr && Search(h, ptr, h.order[k], h.order[k], ptr[h.order[k]], k, 1, n)
  {
    assert Chained(h.order, ptr, k);
  }

  lemma SearchFacts(h: Heap, ptr: map<Addr, Addr>, freep: Addr, prevp: Addr, p: Addr, k: nat, d: nat, n: nat)
    requires Search(h, ptr, freep, prevp, p, k, d, n) && Ring(h.order, ptr) && n > 0
    ensures 1 <= d <= |h.order| && k < |h.order|
    ensures p in h.size && p in ptr && p == h.order[Around(|h.order|, k, d)]
    ensures var i := Around(|h.order|, k, d);
            h.size[p] >= n ==> i > 0 && prevp == h.order[i - 1]
  {
    assert Chained(h.order, ptr, Around(|h.order|, k, d));
  }

  lemma SearchNext(h: Heap, ptr: map<Addr, Addr>, freep: Addr, prevp: Addr, p: Addr, k: nat, d: nat, n: nat)
    requires Search(h, ptr, freep, prevp, p, k, d, n) && Ring(h.order, ptr) && p != freep
    requires p in h.size && h.size[p] < n
    ensures d < |h.order| && p in ptr && Search(h, ptr, freep, p, ptr[p], k, d + 1, n)
  {
    assert Chained(h.order, ptr, Around(|h.order|, k, d));
  }

  /** Back at freep, every free block has been looked at. */
  lemma NoneFits(h: Heap, ptr: map<Addr, Addr>, freep: Addr, prevp: Addr, p: Addr, k: nat, d: nat, n: nat)
    requires Search(h, ptr, freep, prevp, p, k, d, n) && p == freep && p in h.size && h.size[p] < n
    ensures !Fits(h, n)
  {
    var len := |h.order|;
    assert Increasing(h.order);
    assert Around(len, k, d) == k;
    forall i | 0 <= i < len ensures h.size[h.order[i]] < n {
      var e := if i >= k then i - k else i - k + len;
      assert i == Around(len, k, e);
    }
  }

  /** What malloc makes of free block i. */
  ghost function Carved(h: Heap, i: nat, n: nat): (r: Heap)
    requires i < |h.order| && h.order[i] in h.size && n <= h.size[h.order[i]]
  {
    if h.size[h.order[i]] == n then TakeWhole(h, i) else TakeTail(h, i, n)
  }

  lemma CarveGood(h: Heap, i: nat, n: nat)
    requires Good(h) && i < |h.order| && 0 < n
    ensures h.order[i] in h.size
    ensures n <= h.size[h.order[i]] ==> i > 0 && Fits(h, n)
    ensures n <= h.size[h.order[i]] ==>
              var g := Carved(h, i, n);
              && Granted(h, g, h.order[i] + h.size[h.order[i]] - n, n)
              && Good(g) && g.owner.Keys == h.owner.Keys && g.order != [] && g.order[0] == h.order[0]
  {
    hide Partition, Shared;
    if n <= h.size[h.order[i]] {
      LiveSizes(h);
      FreeNotLive(h, i);
      if h.size[h.order[i]] == n {
        TakeWholeGood(h, i);
      } else {
        TakeTailGood(h, i, n);
      }
    }
  }

  /** malloc's two ways of taking a block. */
  method Carve(ptr: map<Addr, Addr>, size: map<Addr, nat>, prevp: Addr, p: Addr, n: nat, ghost h: Heap, ghost i: nat)
    returns (ptr': map<Addr, Addr>, size': map<Addr, nat>, q: Addr)
    requires size == h.size && Ring(h.order, ptr) && 1 <= i < |h.order| && p == h.order[i] && prevp == h.order[i - 1]
    requires p in h.size && n <= h.size[p]
    ensures p in ptr && ptr' == if h.size[p] == n then ptr[prevp := ptr[p]] else ptr
    ensures size' == Carved(h, i, n).size && q == p + h.size[p] - n
  {
    assert Chained(h.order, ptr, i);
    ptr', size', q := ptr, size, p;
    if size[p] == n {
      ptr' := ptr'[prevp := ptr'[p]];
    } else {
      size' := size'[p := size'[p] - n];
      q := p + size'[p];
      size' := size'[q := n];
    }
  }

  lemma FreeNotLive(h: Heap, i: nat)
    requires Good(h) && i < |h.order|
    ensures h.order[i] !in h.live && h.live <= h.blocks
  {
  }

  lemma CarveRing(h: Heap, ptr: map<Addr, Addr>, i: nat, n: nat)
    requires Good(h) && Ring(h.order, ptr) && 1 <= i < |h.order| && h.order[i] in h.size && n <= h.size[h.order[i]]
    ensures h.order[i] in ptr && h.order[i - 1] in Carved(h, i, n).order && h.order[0] <= h.order[i - 1]
    ensures Ring(Carved(h, i, n).order, if h.size[h.order[i]] == n then ptr[h.order[i - 1] := ptr[h.order[i]]] else ptr)
  {
    assert Increasing(h.order);
    assert Chained(h.order, ptr, i);
    RingOmit(h.order, ptr, i);
    assert Carved(h, i, n).order[i - 1] == h.order[i - 1];
  }
}
