/** Address spaces (vm.c, exec.c, sysproc.c): their layout, and the system calls
    and faults that change them, page by page as the code does. */
module Vm {
  import opened Frames
  import opened Cow
  import Kalloc
  import opened Wrappers

  /** The layout fields of struct proc, in pages, except shmbreak and brk, which are
      byte addresses. brk is p->sz, and sz counts the pages below it. */
  datatype Layout =
    Layout(last: nat, guard: nat, top: nat, shmnext: nat, shmtop: nat, sz: nat, shmbreak: nat, brk: nat)

  function RoundUp(bytes: nat): (pages: nat)
    ensures (pages - 1) * PGSIZE < bytes <= pages * PGSIZE
  {
    (bytes + PGSIZE - 1) / PGSIZE
  }

  predicate LayoutOk(l: Layout) {
    1 <= l.last <= l.guard < l.top <= l.shmnext <= l.shmtop <= l.sz && BreakOk(l)
  }

  predicate BreakOk(l: Layout) {
    l.top * PGSIZE <= l.shmbreak && l.shmnext == RoundUp(l.shmbreak) && l.sz == RoundUp(l.brk)
  }

  predicate Mapped(l: Layout, v: nat) {
    v < l.last || l.guard <= v < l.shmnext || l.shmtop <= v < l.sz
  }

  /** Exactly the pages below the stack reserve, from the guard up to the end of
      the allocated shared memory, and above the shared-memory area have
      entries (page 0 may lack one); all of them can be reached but page 0 and,
      perhaps, the guard. */
  ghost predicate SpaceOk(a: Memory, space: nat, l: Layout) {
    && LayoutOk(l)
    && (forall v: nat :: v > 0 ==> (Va(space, v) in a.mem <==> Mapped(l, v)))
    && (forall v: nat :: Va(space, v) in a.mem && v != l.guard ==> a.mem[Va(space, v)].seen == (v != 0))
  }

  ghost predicate SameSpace(a: Memory, a': Memory, x: nat) {
    forall v: nat :: (Va(x, v) in a.mem <==> Va(x, v) in a'.mem)
      && (Va(x, v) in a.mem ==> a'.mem[Va(x, v)].seen == a.mem[Va(x, v)].seen)
  }

  lemma SpaceKept(a: Memory, a': Memory, x: nat, l: Layout)
    requires SpaceOk(a, x, l) && SameSpace(a, a', x)
    ensures SpaceOk(a', x, l)
  {
  }

  function Zero(): (p: Page) { seq(PGSIZE, _ => 0) }

  /** Page 0 is never shared copy-on-write: cowuvm starts at page 1. */
  ghost predicate NullPlain(s: State) {
    forall k :: k in s.pt && k.page == 0 ==> !s.pt[k].cow
  }

  /** The same pages with the same contents. */
  ghost predicate Kept(a: Memory, a': Memory, k: Va)
    requires k in a.mem
  {
    && k in a'.mem && a'.mem[k] == a.mem[k]
    && (a.mem[k].Shared? && a.mem[k].id in a.store ==>
          a.mem[k].id in a'.store && a'.store[a.mem[k].id] == a.store[a.mem[k].id])
  }

  /** Pages lo to hi of a space are new and zero; nothing else changed. */
  ghost predicate Added(a: Memory, a': Memory, space: nat, lo: nat, hi: nat) {
    && (forall k :: k in a'.mem <==> k in a.mem || (k.space == space && lo <= k.page < hi))
    && (forall k :: k in a.mem ==> Kept(a, a', k))
    && (forall v: nat :: lo <= v < hi ==> ViewLoad(a', Va(space, v)) == Some(Zero()))
  }

  /** As Added, with the pages known to be private. */
  ghost predicate AddedPrivate(a: Memory, a': Memory, space: nat, lo: nat, hi: nat) {
    && a'.store == a.store
    && (forall k :: k in a'.mem <==> k in a.mem || (k.space == space && lo <= k.page < hi))
    && (forall k :: k in a.mem ==> a'.mem[k] == a.mem[k])
    && (forall v: nat :: lo <= v < hi && Va(space, v) !in a.mem ==> a'.mem[Va(space, v)] == Own(Zero(), true))
  }

  lemma AddedPrivateOne(a0: Memory, a: Memory, space: nat, lo: nat, v: nat)
    requires AddedPrivate(a0, a, space, lo, v) && lo <= v && Va(space, v) !in a.mem
    ensures AddedPrivate(a0, ViewNew(a, Va(space, v), Zero(), true), space, lo, v + 1)
  {
  }

  lemma AddedOne(a0: Memory, a: Memory, a': Memory, s: State, space: nat, lo: nat, v: nat)
    requires Added(a0, a, space, lo, v) && lo <= v && Va(space, v) !in a.mem
    requires s.free != [] && Fresh(a, s.free[0]) && a' == ViewMapNew(s, a, Va(space, v), Zero(), true)
    ensures Added(a0, a', space, lo, v + 1)
  {
    forall k | k in a0.mem ensures Kept(a0, a', k) {
      assert Kept(a0, a, k);
    }
    forall w: nat | lo <= w < v + 1 ensures ViewLoad(a', Va(space, w)) == Some(Zero()) {
      if w < v {
        assert ViewLoad(a, Va(space, w)) == Some(Zero());
      }
    }
  }

  /** The same pages with the same contents; a store of shared pages may have kept
      pages that nobody maps. */
  ghost predicate Restored(a: Memory, a': Memory) { a'.mem == a.mem && forall k :: k in a.mem ==> Kept(a, a', k) }

  lemma TakenBack(a0: Memory, a: Memory, b: Memory, space: nat, lo: nat, v: nat, hi: nat, g: nat)
    requires Added(a0, a, space, lo, v) && Dropped(a, b, space, lo, hi, g) && lo <= v <= hi
    requires forall w: nat :: lo <= w < hi ==> Va(space, w) !in a0.mem
    ensures Restored(a0, b) && (AddedPrivate(a0, a, space, lo, v) ==> b == a0)
  {
    forall k | k in a0.mem ensures Kept(a0, a, k) && k in b.mem && b.mem[k] == a0.mem[k] {
      assert Kept(a0, a, k) && k == Va(k.space, k.page);
    }
    forall k | k in b.mem ensures k in a0.mem {
      assert k.space == space && lo <= k.page < v ==> ViewLoad(a, Va(space, k.page)) == Some(Zero());
    }
    assert b.mem == a0.mem;
  }

  lemma NothingAdded(a: Memory, space: nat, lo: nat)
    ensures Added(a, a, space, lo, lo) && AddedPrivate(a, a, space, lo, lo)
  {
  }

  lemma StillAbsent(a0: Memory, a: Memory, space: nat, lo: nat, v: nat)
    requires Added(a0, a, space, lo, v) && Va(space, v) !in a0.mem
    ensures Va(space, v) !in a.mem
  {
  }

  /** What fork gives the child: its own copy of every private page of the parent
      and the same shared memory, but its guard page out of reach, whether or not
      the parent can reach its own. Pages below n are done. */
  ghost predicate Forked(a: Memory, a': Memory, parent: nat, child: nat, l: Layout, n: nat) {
    && a'.store == a.store
    && (forall k :: k in a'.mem <==> k in a.mem || (k.space == child && 1 <= k.page < n && Mapped(l, k.page)))
    && (forall k :: k in a.mem ==> a'.mem[k] == a.mem[k])
    && (forall v: nat :: 1 <= v < n && Mapped(l, v) && Va(parent, v) in a.mem ==>
          a'.mem[Va(child, v)] == a.mem[Va(parent, v)].(seen := v != l.guard))
  }

  lemma ForkedNone(a: Memory, parent: nat, child: nat, l: Layout)
    ensures Forked(a, a, parent, child, l, 1)
  {
  }

  lemma ForkedSkip(a0: Memory, a: Memory, parent: nat, child: nat, l: Layout, v: nat)
    requires Forked(a0, a, parent, child, l, v) && !Mapped(l, v)
    ensures Forked(a0, a, parent, child, l, v + 1)
  {
  }

  lemma ForkedOne(a0: Memory, a: Memory, parent: nat, child: nat, l: Layout, v: nat)
    requires Forked(a0, a, parent, child, l, v) && Mapped(l, v) && 1 <= v
    requires Va(parent, v) in a0.mem && Va(child, v) !in a0.mem
    ensures Forked(a0, ViewCopy(a, Va(parent, v), Va(child, v), v != l.guard), parent, child, l, v + 1)
  {
  }

  lemma ForkedSpaces(a: Memory, a': Memory, parent: nat, child: nat, l: Layout)
    requires Forked(a, a', parent, child, l, l.sz) && SpaceOk(a, parent, l)
    requires forall k :: k in a.mem ==> k.space != child
    ensures SpaceOk(a', child, l)
    ensures forall x :: x != child ==> SameSpace(a, a', x)
  {
    forall v: nat | v > 0 ensures Va(child, v) in a'.mem <==> Mapped(l, v) {
      assert Va(child, v) !in a.mem;
    }
    forall v: nat | Va(child, v) in a'.mem && v != l.guard
      ensures a'.mem[Va(child, v)].seen == (v != 0)
    {
      assert Va(child, v) !in a.mem && Va(parent, v) in a.mem;
    }
  }

  lemma ForkedLaid(area: map<nat, (nat, nat)>, lay: map<nat, Layout>, a: Memory, a': Memory, parent: nat, child: nat)
    requires Laid(area, lay, a) && parent in lay && child !in lay
    requires Forked(a, a', parent, child, lay[parent], lay[parent].sz)
    ensures Laid(area[child := (lay[parent].top, lay[parent].shmtop)], lay[child := lay[parent]], a')
  {
    hide SpaceOk, SameSpace;
    ForkedSpaces(a, a', parent, child, lay[parent]);
    forall x | x in lay ensures SpaceOk(a', x, lay[x]) {
      SpaceKept(a, a', x, lay[x]);
    }
  }

  /** What cowuvm finds at page v: the entry it takes for granted, and what the
      child has so far. */
  lemma CowFacts(s: State, a: Memory, a0: Memory, parent: nat, child: nat, l: Layout, v: nat)
    requires Sound(s, a) && SpaceOk(a0, parent, l) && Forked(a0, a, parent, child, l, v) && 1 <= v < l.sz
    requires parent != child && forall k :: k in a0.mem ==> k.space != child
    ensures Va(child, v) !in a.mem && Va(child, v) !in a0.mem
    ensures Va(parent, v) in a.mem <==> Mapped(l, v)
    ensures Va(parent, v) in a0.mem <==> Mapped(l, v)
    ensures Mapped(l, v) ==> Va(parent, v) in s.pt
                             && (v != l.guard ==> a.mem[Va(parent, v)].seen && s.pt[Va(parent, v)].u)
    ensures 1 <= l.last <= l.guard < l.top <= l.shmnext <= l.shmtop <= l.sz
  {
    if Mapped(l, v) {
      assert Va(parent, v) in a0.mem;
      assert Shows(s, a, Va(parent, v));
    }
  }

  // The page operations as methods use them.

  lemma NewSound(s: State, a: Memory, k: Va, data: Page, p: bool, u: bool)
    requires Sound(s, a) && k !in a.mem && s.free != [] && (p ==> u)
    ensures Sized(s) && k !in s.pt && Fresh(a, s.free[0])
    ensures Sound(MapNew(s, k, data, p, u), ViewMapNew(s, a, k, data, p && u))
  {
    hide Shows, Covered, FreeOk, EntryOk, Apart;
    MapNewKeeps(s, k, data, p, u);
    MapNewRefines(s, a, k, data, p, u);
  }

  lemma CowSharedSound(s: State, a: Memory, k: Va, c: Va, p: bool, u: bool)
    requires Sound(s, a) && k in a.mem && c !in a.mem && !s.Shm(k) && !s.Shm(c) && (p ==> u)
    requires k.page > 0 && c.page > 0
    ensures Sized(s) && k in s.pt && c !in s.pt
    ensures Sound(SharePrivate(s, k, c, p, u), ViewCopy(a, k, c, p && u))
  {
    hide Shows, Covered, FreeOk, EntryOk, Apart;
    SharePrivateKeeps(s, k, c, p, u);
    SharePrivateRefines(s, a, k, c, p, u);
  }

  lemma ShmSharedSound(s: State, a: Memory, k: Va, c: Va)
    requires Sound(s, a) && k in a.mem && c !in a.mem && s.Shm(k) && s.Shm(c) && a.mem[k].seen
    ensures Sized(s) && k in s.pt && c !in s.pt
    ensures Sound(ShareShm(s, k, c), ViewCopy(a, k, c, true))
  {
    hide Covered, FreeOk, Apart;
    assert Shows(s, a, k) && EntryOk(s, k);
    ShareShmKeeps(s, k, c);
    ShareShmRefines(s, a, k, c);
  }

  lemma BitsSound(s: State, a: Memory, k: Va, p: bool, u: bool)
    requires Sound(s, a) && k in a.mem && (p ==> u)
    ensures k in s.pt && Sound(SetBits(s, k, p, u), ViewSee(a, k, p && u))
  {
    hide Shows, Covered, FreeOk, EntryOk, Apart;
    SetBitsKeeps(s, k, p, u);
    SetBitsRefines(s, a, k, p, u);
  }

  lemma ForgetSound(s: State, a: Memory, k: Va)
    requires Sound(s, a)
    ensures k in s.pt ==> Sound(Forget(s, k), ViewDrop(a, k))
    ensures k !in s.pt ==> ViewDrop(a, k) == a
  {
    hide Shows, Covered, FreeOk, EntryOk, Apart;
    if k in s.pt {
      ForgetKeeps(s, k);
      ForgetRefines(s, a, k);
    } else {
      assert a.mem - {k} == a.mem;
    }
  }

  // What faults do to the memory.

  /** The stack has grown: the guard moved from page g to page h below it. */
  ghost predicate Grown(a: Memory, a': Memory, space: nat, g: nat, h: nat) {
    && a'.store == a.store
    && (forall k :: k in a'.mem <==> k in a.mem || (k.space == space && h <= k.page < g))
    && (forall k :: k in a.mem ==> a'.mem[k] == if k == Va(space, g) then a.mem[k].(seen := true) else a.mem[k])
    && (forall v: nat :: h <= v < g ==> Va(space, v) !in a.mem && a'.mem[Va(space, v)] == Own(Zero(), v != h))
  }

  function WithGuard(a: Memory, space: nat, h: nat, g: nat): (a': Memory)
    requires Va(space, g) in a.mem
  {
    ViewSee(ViewSee(ViewNew(a, Va(space, h), Zero(), true), Va(space, h), false), Va(space, g), true)
  }

  lemma StillUnmapped(a: Memory, space: nat, v: nat, g: nat)
    requires 0 < v && Va(space, g) in a.mem && forall w: nat :: v - 1 <= w < g ==> Va(space, w) !in a.mem
    ensures forall w: nat :: v <= w < g ==> Va(space, w) !in WithGuard(a, space, v - 1, g).mem
  {
  }

  lemma GrownBy(a: Memory, mid: Memory, a': Memory, space: nat, g: nat, h: nat, lo: nat)
    requires h < g && Va(space, g) in a.mem && (forall w: nat :: h <= w < g ==> Va(space, w) !in a.mem)
    requires mid == WithGuard(a, space, h, g) && lo == h + 1
    requires AddedPrivate(mid, a', space, lo, g)
    ensures Grown(a, a', space, g, h)
  {
  }

  lemma GrownSpaces(a: Memory, a': Memory, space: nat, l: Layout, h: nat)
    requires SpaceOk(a, space, l) && l.last <= h < l.guard && Grown(a, a', space, l.guard, h)
    ensures SpaceOk(a', space, l.(guard := h))
    ensures forall x :: x != space ==> SameSpace(a, a', x)
    ensures forall k :: k in a'.mem ==> k in a.mem || k.space == space
  {
  }

  /** The page tables keep the frame invariant and show the memory. */
  ghost predicate Sound(s: State, a: Memory) {
    Inv(s) && Refines(s, a) && NullPlain(s)
  }

  /** Old entries are unchanged, new ones are plainly writable. */
  ghost predicate EntriesKept(s: State, s': State) {
    && (forall k :: k in s.pt ==> k in s'.pt && s'.pt[k] == s.pt[k])
    && (forall k :: k in s'.pt && k !in s.pt ==> s'.pt[k].w && !s'.pt[k].cow)
  }

  lemma EntriesKeptSelf(s: State)
    ensures EntriesKept(s, s)
  {
  }

  /** Every address space is laid out as its layout fields say. */
  ghost predicate Laid(area: map<nat, (nat, nat)>, lay: map<nat, Layout>, a: Memory) {
    && (forall k :: k in a.mem ==> k.space in lay)
    && (forall x :: x in lay ==> SpaceOk(a, x, lay[x]) && x in area && area[x] == (lay[x].top, lay[x].shmtop))
  }

  lemma LaidAfter(area: map<nat, (nat, nat)>, lay: map<nat, Layout>, a: Memory, a': Memory, space: nat, l: Layout)
    requires Laid(area, lay, a) && space in lay && SpaceOk(a', space, l)
    requires l.top == lay[space].top && l.shmtop == lay[space].shmtop
    requires forall x :: x != space ==> SameSpace(a, a', x)
    requires forall k :: k in a'.mem ==> k in a.mem || k.space == space
    ensures Laid(area, lay[space := l], a')
  {
    forall x | x in lay && x != space ensures SpaceOk(a', x, lay[x]) {
      SpaceKept(a, a', x, lay[x]);
    }
  }

  datatype Outcome = Killed | Retry

  /** The faults pagefault resolves: a write to a copy-on-write page, or to a
      page that is not present in the stack area and leaves room for a guard. */
  predicate Resolvable(s: State, l: Layout, space: nat, addr: nat, write: bool) {
    var k := Va(space, addr / PGSIZE);
    && addr != 0 && write
    && (|| (k in s.pt && s.pt[k].cow)
        || (!(k in s.pt && s.pt[k].p) && l.last < k.page < l.top))
  }

  /** How many faults a store to the page still meets, at most. */
  function Faults(s: State, k: Va): (n: nat) {
    if k in s.pt && s.pt[k].cow then 2
    else if k in s.pt && s.pt[k].p && s.pt[k].u && s.pt[k].w then 0
    else 1
  }

  /** A copy-on-write entry whose frame has other references. */
  predicate CowShared(s: State, k: Va) {
    k in s.pt && s.pt[k].frame < |s.count| && s.pt[k].cow && s.count[s.pt[k].frame] > 1
  }

  ghost predicate StillShared(s: State, s': State) { forall g :: CowShared(s, g) ==> CowShared(s', g) }

  lemma MapKeepsShared(s: State, k: Va, c: Va, p: bool, u: bool)
    requires Inv(s) && k in s.pt && c !in s.pt
    ensures StillShared(s, SharePrivate(s, k, c, p, u)) && CowShared(SharePrivate(s, k, c, p, u), k)
    ensures StillShared(s, ShareShm(s, k, c))
  {
    Held(s, k);
  }

  lemma MapKeepsSharedIn(s: State, a: Memory, k: Va, c: Va, p: bool, u: bool)
    requires Sound(s, a) && k in s.pt && c !in s.pt
    ensures Sized(s) && StillShared(s, SharePrivate(s, k, c, p, u)) && CowShared(SharePrivate(s, k, c, p, u), k)
    ensures StillShared(s, ShareShm(s, k, c))
  {
    MapKeepsShared(s, k, c, p, u);
  }

  lemma SharedOn(s: State, s': State, g: Va)
    requires StillShared(s, s')
    ensures CowShared(s, g) ==> CowShared(s', g)
  {
  }

  /** A copy-on-write fault: copy if the frame has other references. */
  function CowResolved(s: State, k: Va): (s': State)
    requires Sized(s) && k in s.pt && s.free != []
  {
    if s.count[s.pt[k].frame] > 1 then CopyOut(s, k) else Claim(s, k)
  }

  /** A copy can be reached, also where the page before it could not; a page that
      was the only one stays as it was. */
  function CowSeen(s: State, a: Memory, k: Va): (a': Memory)
    requires Sized(s) && k in s.pt && k in a.mem
  {
    if s.count[s.pt[k].frame] > 1 then ViewSee(a, k, true) else a
  }

  /** Resolving a copy-on-write fault leaves every load as it was just when the page
      could be reached already, or nobody else holds the frame. */
  lemma CowSeenLoadsIff(s: State, a: Memory, k: Va)
    requires Sized(s) && k in s.pt && k in a.mem && a.mem[k].Own?
    ensures (forall m :: ViewLoad(CowSeen(s, a, k), m) == ViewLoad(a, m))
            <==> a.mem[k].seen || s.count[s.pt[k].frame] <= 1
  {
    if !a.mem[k].seen && s.count[s.pt[k].frame] > 1 {
      assert ViewLoad(CowSeen(s, a, k), k) != ViewLoad(a, k);
    } else if a.mem[k].seen {
      assert a.mem[k] == Own(a.mem[k].data, true);
    }
  }

  lemma CowSound(s: State, a: Memory, k: Va)
    requires Sound(s, a) && k in s.pt && s.pt[k].cow && s.free != []
    ensures Sized(s) && k in a.mem && k.page != 0
    ensures Sound(CowResolved(s, k), CowSeen(s, a, k))
  {
    Held(s, k);
    assert EntryOk(s, k) && !s.Shm(k);
    if s.count[s.pt[k].frame] > 1 {
      CopyOutKeeps(s, k);
      CopyOutRefines(s, a, k);
    } else {
      ClaimKeeps(s, k);
      ClaimRefines(s, a, k);
    }
    hide Inv, Refines;
  }

  lemma CowLaid(s: State, lay: map<nat, Layout>, a: Memory, k: Va)
    requires Laid(s.area, lay, a) && Sized(s) && k in s.pt && k in a.mem && k.page != 0
    ensures Laid(s.area, lay, CowSeen(s, a, k))
  {
    if s.count[s.pt[k].frame] > 1 {
      var l := lay[k.space];
      SeenSpaces(a, k.space, k.page, l);
      LaidAfter(s.area, lay, a, ViewSee(a, k, true), k.space, l);
      assert lay == lay[k.space := l];
    }
  }

  lemma SeenSpaces(a: Memory, space: nat, v: nat, l: Layout)
    requires SpaceOk(a, space, l) && Va(space, v) in a.mem && v != 0
    ensures SpaceOk(ViewSee(a, Va(space, v), true), space, l)
    ensures forall x :: x != space ==> SameSpace(a, ViewSee(a, Va(space, v), true), x)
  {
  }

  /** A page of the stack area that is not present lies at or below the guard. */
  lemma InReserve(s: State, a: Memory, k: Va, l: Layout)
    requires Sound(s, a) && SpaceOk(a, k.space, l) && k.space in s.area && s.area[k.space] == (l.top, l.shmtop)
    requires !(k in s.pt && s.pt[k].p) && l.last < k.page < l.top
    ensures k.page <= l.guard < l.top && Va(k.space, l.guard) in a.mem
    ensures forall w: nat :: k.page - 1 <= w < l.guard ==> Va(k.space, w) !in a.mem && !s.Shm(Va(k.space, w))
  {
    if k in s.pt {
      assert Shows(s, a, k);
    }
  }

  /** Once the stack has grown over it, a store to the page meets no fault. */
  lemma Reachable(s: State, s': State, a: Memory, a': Memory, k: Va, l: Layout)
    requires Sound(s, a) && Sound(s', a') && s'.area == s.area && k.page <= l.guard
    requires k.space in s.area && s.area[k.space] == (l.top, l.shmtop) && l.guard < l.top
    requires 0 < k.page && Grown(a, a', k.space, l.guard, k.page - 1)
    requires !(k in s.pt && s.pt[k].p) && !(k in s.pt && s.pt[k].cow)
    requires Va(k.space, l.guard) in s.pt && Va(k.space, l.guard) in s'.pt
    requires s'.pt[Va(k.space, l.guard)] == s.pt[Va(k.space, l.guard)].(p := true, u := true)
    requires forall m :: m in s'.pt && m !in s.pt ==> s'.pt[m].w && !s'.pt[m].cow
    ensures Faults(s', k) == 0 && Faults(s, k) == 1
  {
    assert k == Va(k.space, k.page);
    if k.page == l.guard {
      assert EntryOk(s, k);
    } else {
      assert k !in a.mem && k in a'.mem;
      assert Shows(s', a', k);
    }
  }

  lemma BelowGuard(s: State, a: Memory, k: Va, l: Layout)
    requires Sound(s, a) && SpaceOk(a, k.space, l) && k.space in s.area && s.area[k.space] == (l.top, l.shmtop)
    requires StackFault(s, l, k)
    ensures 0 < k.page <= l.guard && l.guard - k.page < l.guard - l.last && Va(k.space, l.guard) in a.mem
    ensures forall w: nat :: k.page - 1 <= w < l.guard ==> Va(k.space, w) !in a.mem && !s.Shm(Va(k.space, w))
  {
    InReserve(s, a, k, l);
  }

  /** What the stack-growth branch leaves behind. */
  ghost predicate Grew(s: State, a: Memory, s': State, a': Memory, space: nat, g: nat, h: nat) {
    && Sound(s', a') && s'.area == s.area && Accounted(s, s')
    && Grown(a, a', space, g, h)
    && Va(space, g) in s'.pt && Va(space, g) in s.pt
    && s'.pt[Va(space, g)] == s.pt[Va(space, g)].(p := true, u := true)
    && (forall k :: k in s'.pt && k !in s.pt ==> s'.pt[k].w && !s'.pt[k].cow)
  }

  predicate StackFault(s: State, l: Layout, k: Va) {
    !(k in s.pt && s.pt[k].p) && !(k in s.pt && s.pt[k].cow) && l.last < k.page < l.top
  }

  lemma StackFaultLaid(s: State, a: Memory, s': State, a': Memory, lay: map<nat, Layout>, k: Va)
    requires Sound(s, a) && Laid(s.area, lay, a) && k.space in lay && StackFault(s, lay[k.space], k)
    requires Grew(s, a, s', a', k.space, lay[k.space].guard, k.page - 1)
    ensures Laid(s'.area, lay[k.space := lay[k.space].(guard := k.page - 1)], a')
  {
    hide Sound, SpaceOk, Grown, SameSpace;
    var l := lay[k.space];
    InReserve(s, a, k, l);
    GrownSpaces(a, a', k.space, l, k.page - 1);
    LaidAfter(s.area, lay, a, a', k.space, l.(guard := k.page - 1));
  }

  lemma StackFaultReaches(s: State, a: Memory, s': State, a': Memory, l: Layout, k: Va)
    requires Sound(s, a) && SpaceOk(a, k.space, l) && k.space in s.area && s.area[k.space] == (l.top, l.shmtop)
    requires StackFault(s, l, k) && Grew(s, a, s', a', k.space, l.guard, k.page - 1)
    ensures Faults(s', k) == 0 && Faults(s, k) == 1
  {
    hide Sound, SpaceOk, Grown, Faults;
    InReserve(s, a, k, l);
    Reachable(s, s', a, a', k, l);
  }

  lemma CowFaultDone(s: State, a: Memory, lay: map<nat, Layout>, k: Va)
    requires Sound(s, a) && Laid(s.area, lay, a) && k in s.pt && s.pt[k].cow && s.free != []
    ensures Sized(s) && k in a.mem
    ensures var s', a' := CowResolved(s, k), CowSeen(s, a, k);
            Sound(s', a') && Laid(s'.area, lay, a')
  {
    hide Sound, Laid, CowSeen, CowResolved;
    CowSound(s, a, k);
    CowArea(s, k);
    CowLaid(s, lay, a, k);
  }

  lemma CowArea(s: State, k: Va)
    requires Sized(s) && k in s.pt && s.free != []
    ensures CowResolved(s, k).area == s.area && Accounted(s, CowResolved(s, k))
  {
  }

  lemma AllFree(s: State)
    requires s.kern == {} && s.lost == multiset{} && s.pt == map[] && s.area == map[]
    requires |s.free| == |s.count| == |s.page|
    requires forall i :: 0 <= i < |s.free| ==> s.count[i] == 0 && s.free[i] == |s.free| - 1 - i
    ensures Sound(s, Memory(map[], map[])) && Laid(s.area, map[], Memory(map[], map[]))
  {
    forall f | 0 <= f < |s.count| ensures |Refs(s.pt, f)| == 0 && f in s.free {
      assert Refs(s.pt, f) == {};
      assert s.free[|s.free| - 1 - f] == f;
    }
  }

  /** A mapped frame is not free. */
  lemma InUse(s: State, k: Va)
    requires Inv(s) && k in s.pt
    ensures s.pt[k].frame < |s.count| && s.count[s.pt[k].frame] > 0 && s.pt[k].frame !in s.free
  {
    Held(s, k);
  }

  lemma FrameInUse(s: State, a: Memory, k: Va)
    requires Sound(s, a) && k in s.pt
    ensures Sized(s) && s.pt[k].frame < |s.count| && s.count[s.pt[k].frame] > 0 && s.pt[k].frame !in s.free
  {
    InUse(s, k);
  }

  lemma KernelSound(s: State, a: Memory)
    requires Sound(s, a)
    ensures Sized(s) && (s.free != [] ==> Sound(KernelTake(s), a) && s.free[0] !in s.kern && s.free[0] !in s.free[1..])
    ensures forall f :: f in s.kern ==> s.count[f] == 1 && f !in s.free && Sound(KernelGive(s, f), a)
  {
    KernelRefines(s, a);
    if s.free != [] {
      KernelTakeKeeps(s);
      Unused(s, s.free[0]);
    }
    forall f | f in s.kern ensures s.count[f] == 1 && f !in s.free && Sound(KernelGive(s, f), a) {
      KernelGiveKeeps(s, f);
    }
  }

  class Machine {
    var st: State
    var lay: map<nat, Layout>
    const kmem: Kalloc.Kmem
    ghost var abs: Memory

    /** kmem holds the free list and the counts of st. */
    ghost predicate Backed()
      reads `st, kmem, kmem.next, kmem.count
    {
      kmem.Valid() && kmem.free == st.free && kmem.count[..] == st.count
    }

    ghost predicate Whole()
      reads `st, `abs, kmem, kmem.next, kmem.count
    {
      Sound(st, abs) && Backed()
    }

    ghost predicate Valid()
      reads this, kmem, kmem.next, kmem.count
    {
      Whole() && Laid(st.area, lay, abs)
    }

    /** What processes see. */
    ghost function Now(): (v: View)
      reads this, kmem, kmem.next, kmem.count
    {
      View(abs, lay)
    }

    /** kinit: freerange puts the frames on the list one by one. */
    constructor (n: nat)
      ensures Valid() && lay == map[] && abs.mem == map[] && |st.free| == n && st.kern == {} && st.lost == multiset{}
      ensures fresh(kmem) && fresh(kmem.next) && fresh(kmem.count)
    {
      hide Sound, Laid, Kalloc.Threaded;
      kmem := new Kalloc.Kmem(n);
      lay := map[];
      abs := Memory(map[], map[]);
      st := State(seq(n, _ => 0), [], seq(n, _ => Junk()), {}, multiset{}, map[], map[]);
      new;
      FreeRange(n);
      AllFree(st);
    }

    method FreeRange(n: nat)
      requires kmem.Valid() && kmem.free == [] && kmem.count.Length == n && kmem.count[..] == st.count
      requires st.free == [] && |st.count| == n && forall f :: 0 <= f < n ==> st.count[f] == 0
      modifies `st, kmem, kmem.next, kmem.count
      ensures Backed() && |st.free| == n && (forall i :: 0 <= i < n ==> st.free[i] == n - 1 - i)
      ensures st == old(st).(free := st.free)
    {
      var free: seq<nat> := [];
      var f := 0;
      while f < n
        invariant 0 <= f <= n && |free| == f && (forall i :: 0 <= i < f ==> free[i] == f - 1 - i)
        invariant kmem.Valid() && kmem.free == free && kmem.count[..] == st.count && st == old(st)
      {
        kmem.Kfree2(f);
        assert st.count[f := 0] == st.count;
        free := [f] + free;
        f := f + 1;
      }
      st := st.(free := free);
    }

    /** allocuvm over pages lo to hi. Out of memory, it takes back what it mapped; g
        is the guard page that deallocuvm would take for present. */
    method AllocUvm(space: nat, lo: nat, hi: nat, g: nat) returns (ok: bool)
      requires Whole() && lo <= hi
      requires forall v: nat :: lo <= v < hi ==> Va(space, v) !in abs.mem
      modifies `st, `abs, kmem, kmem.next, kmem.count
      ensures Whole() && st.area == old(st.area) && Accounted(old(st), st) && (ok <==> hi - lo <= |old(st.free)|)
      ensures ok ==> EntriesKept(old(st), st) && Added(old(abs), abs, space, lo, hi)
      ensures ok && (forall v: nat :: lo <= v < hi ==> !st.Shm(Va(space, v))) ==>
                AddedPrivate(old(abs), abs, space, lo, hi)
      ensures ok ==> |st.free| == |old(st.free)| - (hi - lo)
      ensures ok ==> EntriesMapped(old(st).pt, st.pt, space, lo, hi)
      ensures !ok ==> Restored(old(abs), abs)
      ensures !ok ==> st.pt == old(st).pt && st.count == old(st).count
      ensures !ok ==> forall f :: f in st.free <==> f in old(st).free
      ensures !ok && (forall v: nat :: lo <= v < hi ==> !st.Shm(Va(space, v))) ==> abs == old(abs)
    {
      hide Sound, Added, AddedPrivate, EntriesKept, Dropped, Restored, EntriesMapped, EntriesDropped;
      NothingAdded(abs, space, lo);
      NothingMapped(st.pt, space, lo);
      EntriesKeptSelf(st);
      var v := lo;
      while v < hi
        invariant lo <= v <= hi && Adding(old(st), old(abs), space, lo, v)
      {
        if st.free == [] {
          ghost var a, s := abs, st;
          DeallocUvm(space, lo, hi, g);
          TakenBack(old(abs), a, abs, space, lo, v, hi, g);
          BackIn(old(st), old(abs), s, st, abs, space, lo, v, hi, g);
          return false;
        }
        AddPage(space, v, old(st), old(abs), lo);
        v := v + 1;
      }
      return true;
    }

    ghost predicate Adding(s0: State, a0: Memory, space: nat, lo: nat, v: nat)
      reads this, kmem, kmem.next, kmem.count
    {
      && Whole() && st.area == s0.area && Accounted(s0, st)
      && |s0.free| == |st.free| + v - lo && EntriesKept(s0, st) && EntriesMapped(s0.pt, st.pt, space, lo, v)
      && Added(a0, abs, space, lo, v)
      && ((forall w: nat :: lo <= w < v ==> !st.Shm(Va(space, w))) ==> AddedPrivate(a0, abs, space, lo, v))
    }

    method AddPage(space: nat, v: nat, ghost s0: State, ghost a0: Memory, ghost lo: nat)
      requires lo <= v && Adding(s0, a0, space, lo, v) && st.free != [] && Va(space, v) !in a0.mem
      modifies `st, `abs, kmem, kmem.next, kmem.count
      ensures Adding(s0, a0, space, lo, v + 1)
    {
      hide Sound, Added, AddedPrivate, EntriesMapped;
      ghost var a, s := abs, st;
      StillAbsent(a0, a, space, lo, v);
      MapZero(Va(space, v));
      MappedOne(s0.pt, s.pt, st.pt, space, lo, v);
      AddedOne(a0, a, abs, s, space, lo, v);
      if forall w: nat :: lo <= w < v + 1 ==> !st.Shm(Va(space, w)) {
        assert !st.Shm(Va(space, v));
        AddedPrivateOne(a0, a, space, lo, v);
      }
    }

    // fork

    ghost predicate Forking(s0: State, a0: Memory, parent: nat, child: nat, l: Layout, v: nat)
      reads this, kmem, kmem.next, kmem.count
    {
      && Whole() && st.area == s0.area && Accounted(s0, st) && st.free == s0.free
      && Forked(a0, abs, parent, child, l, v)
      && (v > l.guard ==> CowShared(st, Va(parent, l.guard)))
    }

    /** What cowuvm's loop does with page v. */
    method CowPage(parent: nat, child: nat, l: Layout, v: nat, ghost s0: State, ghost a0: Memory)
      requires Forking(s0, a0, parent, child, l, v) && 1 <= v < l.sz
      requires SpaceOk(a0, parent, l) && parent != child && forall k :: k in a0.mem ==> k.space != child
      requires parent in st.area && child in st.area && st.area[parent] == st.area[child] == (l.top, l.shmtop)
      modifies `st, `abs, kmem, kmem.next, kmem.count
      ensures Forking(s0, a0, parent, child, l, v + 1)
    {
      hide Sound, StillShared, CowShared, Forked;
      var k, c := Va(parent, v), Va(child, v);
      ghost var g := Va(parent, l.guard);
      CowFacts(st, abs, a0, parent, child, l, v);
      if l.top <= v < l.shmtop {
        if v >= l.shmnext {
          ForkedSkip(a0, abs, parent, child, l, v);
        } else {
          MapShared(k, c);
          SharedOn(old(st), st, g);
          ForkedOne(a0, old(abs), parent, child, l, v);
        }
      } else if l.last <= v < l.top {
        if v < l.guard {
          ForkedSkip(a0, abs, parent, child, l, v);
        } else {
          MapCow(k, c, v != l.guard, v != l.guard && st.pt[k].u);
          SharedOn(old(st), st, g);
          ForkedOne(a0, old(abs), parent, child, l, v);
        }
      } else {
        MapCow(k, c, true, st.pt[k].u);
        SharedOn(old(st), st, g);
        ForkedOne(a0, old(abs), parent, child, l, v);
      }
    }

    method MapShared(k: Va, c: Va)
      requires Whole() && k in abs.mem && c !in abs.mem && st.Shm(k) && st.Shm(c) && abs.mem[k].seen
      modifies `st, `abs, kmem, kmem.next, kmem.count
      ensures Whole() && st.area == old(st.area) && Accounted(old(st), st) && abs == ViewCopy(old(abs), k, c, true)
      ensures StillShared(old(st), st) && st.free == old(st).free
    {
      hide Sound, StillShared;
      ShmSharedSound(st, abs, k, c);
      MapKeepsSharedIn(st, abs, k, c, true, true);
      FrameInUse(st, abs, k);
      kmem.InclRefCount(st.pt[k].frame);
      abs := ViewCopy(abs, k, c, true);
      st := ShareShm(st, k, c);
    }

    method MapCow(k: Va, c: Va, p: bool, u: bool)
      requires Whole() && k in abs.mem && c !in abs.mem && !st.Shm(k) && !st.Shm(c) && (p ==> u)
      requires k.page > 0 && c.page > 0
      modifies `st, `abs, kmem, kmem.next, kmem.count
      ensures Whole() && st.area == old(st.area) && Accounted(old(st), st) && abs == ViewCopy(old(abs), k, c, p && u)
      ensures StillShared(old(st), st) && CowShared(st, k) && st.free == old(st).free
    {
      hide Sound, StillShared, CowShared;
      CowSharedSound(st, abs, k, c, p, u);
      MapKeepsSharedIn(st, abs, k, c, p, u);
      FrameInUse(st, abs, k);
      kmem.InclRefCount(st.pt[k].frame);
      abs := ViewCopy(abs, k, c, p && u);
      st := SharePrivate(st, k, c, p, u);
    }

    method Cowuvm(parent: nat, child: nat, l: Layout, ghost s0: State, ghost a0: Memory)
      requires Forking(s0, a0, parent, child, l, 1)
      requires SpaceOk(a0, parent, l) && parent != child && forall k :: k in a0.mem ==> k.space != child
      requires parent in st.area && child in st.area && st.area[parent] == st.area[child] == (l.top, l.shmtop)
      modifies `st, `abs, kmem, kmem.next, kmem.count
      ensures Forking(s0, a0, parent, child, l, l.sz)
    {
      var v := 1;
      while v < l.sz
        invariant 1 <= v <= l.sz && Forking(s0, a0, parent, child, l, v)
      {
        CowPage(parent, child, l, v, s0, a0);
        v := v + 1;
      }
    }

    /** fork's copy of the address space: cowuvm, and the layout fields. */
    method Fork(parent: nat, child: nat)
      requires Valid() && parent in lay && child !in lay
      modifies this, kmem, kmem.next, kmem.count
      ensures Valid() && lay == old(lay)[child := old(lay)[parent]]
      ensures Forked(old(abs), abs, parent, child, lay[parent], lay[parent].sz)
      ensures CowShared(st, Va(parent, lay[parent].guard)) && st.free == old(st).free && Accounted(old(st), st)
      ensures Takes(old(Now()), Forks(parent, child), Now())
    {
      hide Sound, Backed, SpaceOk, Forked, Tidy, CowShared;
      LaidTidy(st, lay, abs);
      var l := lay[parent];
      Open(child, l.top, l.shmtop);
      ForkedNone(abs, parent, child, l);
      GuardAboveNull(old(st).area, lay, abs, parent);
      Cowuvm(parent, child, l, st, abs);
      ForkedLaid(old(st).area, lay, old(abs), abs, parent, child);
      lay := lay[child := l];
      LaidTidy(st, lay, abs);
    }

    /** kalloc, memset and mappages for one page. */
    method MapZero(k: Va)
      requires Whole() && k !in abs.mem && st.free != []
      modifies `st, `abs, kmem, kmem.next, kmem.count
      ensures Whole() && k !in old(st).pt && st == MapNew(old(st), k, Zero(), true, true)
      ensures Fresh(old(abs), old(st).free[0]) && abs == ViewMapNew(old(st), old(abs), k, Zero(), true)
    {
      hide Sound;
      NewSound(st, abs, k, Zero(), true, true);
      var f := kmem.Kalloc();
      abs := ViewMapNew(st, abs, k, Zero(), true);
      st := MapNew(st, k, Zero(), true, true);
    }

    // pagefault

    method SetEntryBits(k: Va, p: bool, u: bool)
      requires Whole() && k in abs.mem && (p ==> u)
      modifies `st, `abs
      ensures Whole() && k in old(st).pt
      ensures st == SetBits(old(st), k, p, u) && abs == ViewSee(old(abs), k, p && u)
    {
      hide Sound;
      BitsSound(st, abs, k, p, u);
      abs := ViewSee(abs, k, p && u);
      st := SetBits(st, k, p, u);
    }

    /** The two copy-on-write branches of pagefault. */
    method ResolveCow(k: Va)
      requires Whole() && k in st.pt && st.pt[k].cow && st.free != []
      modifies `st, `abs, kmem, kmem.next, kmem.count
      ensures Whole() && Sized(old(st)) && k in old(abs).mem
      ensures st == CowResolved(old(st), k) && abs == CowSeen(old(st), old(abs), k) && Accounted(old(st), st)
    {
      hide Sound;
      CowSound(st, abs, k);
      FrameInUse(st, abs, k);
      abs := CowSeen(st, abs, k);
      var refs := kmem.GetRefCount(st.pt[k].frame);
      if refs > 1 {
        var f := kmem.Kalloc();
        kmem.DeclRefCount(st.pt[k].frame);
        st := CopyOut(st, k);
      } else {
        st := Claim(st, k);
      }
    }

    /** The stack-growth branch of pagefault for a fault in page v. */
    method GrowStack(space: nat, v: nat, g: nat)
      requires Whole() && 0 < v <= g && g - v + 1 <= |st.free|
      requires Va(space, g) in abs.mem
      requires forall w: nat :: v - 1 <= w < g ==> Va(space, w) !in abs.mem && !st.Shm(Va(space, w))
      modifies `st, `abs, kmem, kmem.next, kmem.count
      ensures Whole() && Grew(old(st), old(abs), st, abs, space, g, v - 1)
    {
      hide Sound, Added, AddedPrivate, Grown, WithGuard;
      NewGuard(space, v - 1, g);
      StillUnmapped(old(abs), space, v, g);
      ghost var a := abs;
      var ok := AllocUvm(space, v, g, g);
      GrownBy(old(abs), a, abs, space, g, v - 1, v);
    }

    /** Page h becomes the guard, and page g, the guard before it, usable. */
    method NewGuard(space: nat, h: nat, g: nat)
      requires Whole() && h < g && st.free != []
      requires Va(space, g) in abs.mem && Va(space, h) !in abs.mem && !st.Shm(Va(space, h))
      modifies `st, `abs, kmem, kmem.next, kmem.count
      ensures Whole() && st.area == old(st.area) && Accounted(old(st), st) && |st.free| == |old(st).free| - 1
      ensures abs == WithGuard(old(abs), space, h, g)
      ensures Va(space, g) in st.pt && Va(space, g) in old(st).pt
      ensures st.pt[Va(space, g)] == old(st).pt[Va(space, g)].(p := true, u := true)
      ensures forall k :: k in st.pt && k !in old(st).pt ==> st.pt[k].w && !st.pt[k].cow
    {
      hide Sound;
      MapZero(Va(space, h));
      SetEntryBits(Va(space, h), false, false);
      SetEntryBits(Va(space, g), true, true);
    }

    /** pagefault. Enough free frames are assumed, as the code does. */
    method PageFault(space: nat, addr: nat, write: bool) returns (r: Outcome)
      requires Valid() && space in lay && |st.free| > lay[space].guard - lay[space].last
      modifies this, kmem, kmem.next, kmem.count
      ensures Valid() && lay.Keys == old(lay).Keys
      ensures r.Retry? <==> Resolvable(old(st), old(lay)[space], space, addr, write)
      ensures Faulted(old(st), old(abs), old(lay), st, abs, lay, Va(space, addr / PGSIZE), r)
      ensures Accounted(old(st), st)
    {
      hide Laid, Sound, Faults, CowResolved, CowSeen, Grew;
      RoomForGuard(st.area, lay, abs, space);
      var k := Va(space, addr / PGSIZE);
      if addr == 0 || !write {
        return Killed;
      }
      var l := lay[space];
      if k in st.pt && st.pt[k].cow {
        CowFaultDone(st, abs, lay, k);
        ResolveCow(k);
        return Retry;
      }
      if !(k in st.pt && st.pt[k].p) && l.last <= k.page < l.top {
        if k.page - 1 < l.last {
          return Killed;      // stack overflow
        }
        ExpandStack(k);
        return Retry;
      }
      return Killed;
    }

    method ExpandStack(k: Va)
      requires Valid() && k.space in lay && StackFault(st, lay[k.space], k)
      requires |st.free| > lay[k.space].guard - lay[k.space].last
      modifies this, kmem, kmem.next, kmem.count
      ensures Valid() && lay == old(lay)[k.space := old(lay)[k.space].(guard := k.page - 1)]
      ensures Grew(old(st), old(abs), st, abs, k.space, old(lay)[k.space].guard, k.page - 1)
      ensures Faults(st, k) == 0 && Faults(old(st), k) == 1
    {
      GrowBelow(k);
      lay := lay[k.space := lay[k.space].(guard := k.page - 1)];
    }

    method GrowBelow(k: Va)
      requires Valid() && k.space in lay && StackFault(st, lay[k.space], k)
      requires |st.free| > lay[k.space].guard - lay[k.space].last
      modifies `st, `abs, kmem, kmem.next, kmem.count
      ensures Whole() && Laid(st.area, lay[k.space := lay[k.space].(guard := k.page - 1)], abs)
      ensures Grew(old(st), old(abs), st, abs, k.space, lay[k.space].guard, k.page - 1)
      ensures Faults(st, k) == 0 && Faults(old(st), k) == 1
    {
      hide Sound, SpaceOk, Faults, Grew, StackFault;
      ghost var s, a, l := st, abs, lay[k.space];
      var g := lay[k.space].guard;
      BelowGuard(st, abs, k, l);
      GrowStack(k.space, k.page, g);
      StackFaultLaid(s, a, st, abs, lay, k);
      StackFaultReaches(s, a, st, abs, l, k);
    }

    // A user store, with the faults it meets.

    /** The hardware retries the store after every fault it survives; two are
        enough. It succeeds exactly where Succeeds says, and Reached says in what
        memory the byte is stored. */
    method UserStore(space: nat, addr: nat, val: int) returns (ok: bool, faults: nat, ghost mid: Memory)
      requires Valid() && space in lay && |st.free| > lay[space].guard - lay[space].last
      modifies this, kmem, kmem.next, kmem.count
      ensures Valid() && lay.Keys == old(lay).Keys && faults <= 2 && Accounted(old(st), st)
      ensures ok <==> Succeeds(old(st), old(abs), old(lay)[space], Va(space, addr / PGSIZE))
      ensures ok ==> Reached(old(st), old(abs), old(lay), mid, lay, Va(space, addr / PGSIZE))
      ensures ok ==> Stored(mid, abs, Va(space, addr / PGSIZE), addr % PGSIZE, val)
      ensures !ok ==> abs == old(abs) && lay == old(lay)
      ensures Takes(old(Now()), Stores(space, addr, val, ok), Now())
    {
      hide Laid, Sound, Backed, Faults, Stored, Resolvable, FaultDone, Reached, MayReach, Tidy;
      var k := Va(space, addr / PGSIZE);
      LaidTidy(st, lay, abs);
      faults := 0;
      while !Writable(st, k)
        invariant Valid() && space in lay && lay.Keys == old(lay).Keys && Accounted(old(st), st)
        invariant Storing(old(st), old(abs), old(lay), st, abs, lay, k, faults)
        invariant !Writable(st, k) ==> |st.free| > lay[space].guard - lay[space].last
        decreases Faults(st, k)
      {
        ghost var s, a, l := st, abs, lay;
        var r := PageFault(space, addr, true);
        if r.Killed? {
          StoreKilled(old(st), old(abs), old(lay), s, a, l, space, addr, faults);
          return false, faults, abs;
        }
        StoringNext(old(st), old(abs), old(lay), s, a, l, st, abs, lay, k, faults);
        faults := faults + 1;
      }
      StoreReached(old(st), old(abs), old(lay), st, abs, lay, k, faults);
      ReachedMay(old(st), old(abs), old(lay), abs, lay, k);
      mid := abs;
      WriteByte(k, addr % PGSIZE, val);
      LaidTidy(st, lay, abs);
      return true, faults, mid;
    }

    method WriteByte(k: Va, off: nat, val: int)
      requires Valid() && Writable(st, k) && off < PGSIZE
      modifies `st, `abs
      ensures Valid() && Stored(old(abs), abs, k, off, val) && Accounted(old(st), st)
    {
      hide Laid, Sound;
      StoreSound(st, abs, lay, k, off, val);
      abs := ViewStore(abs, k, off, val);
      st := StoreByte(st, k, off, val);
    }

    // deallocuvm, freevm and shmbrk

    /** What deallocuvm does with page v: the guard page is taken for present. */
    method DropPage(space: nat, v: nat, g: nat)
      requires Whole()
      modifies `st, `abs, kmem, kmem.next, kmem.count
      ensures Whole() && st.area == old(st).area && Accounted(old(st), st)
      ensures abs == ViewFree(old(abs), Va(space, v), g)
      ensures EntriesDropped(old(st).pt, st.pt, space, v, v + 1, g)
    {
      hide Sound;
      var k := Va(space, v);
      FreeSound(st, abs, k, g);
      if k in st.pt && (st.pt[k].p || v == g) {
        FrameInUse(st, abs, k);
        kmem.Drop(st.pt[k].frame);
        abs := ViewDrop(abs, k);
        st := Release(st, k);
      }
    }

    method DeallocUvm(space: nat, lo: nat, hi: nat, g: nat)
      requires Whole() && lo <= hi
      modifies `st, `abs, kmem, kmem.next, kmem.count
      ensures Whole() && st.area == old(st).area && Accounted(old(st), st)
      ensures Dropped(old(abs), abs, space, lo, hi, g) && Returned(old(st), st, space, lo, hi, g)
    {
      hide Sound, Dropped, ViewFree, EntriesDropped;
      DroppedNone(abs, space, lo, g);
      EntriesDroppedNone(st.pt, space, lo, g);
      var v := lo;
      while v < hi
        invariant lo <= v <= hi && Whole() && st.area == old(st).area && Accounted(old(st), st)
        invariant Dropped(old(abs), abs, space, lo, v, g)
        invariant EntriesDropped(old(st).pt, st.pt, space, lo, v, g)
      {
        ghost var pt := st.pt;
        DroppedOne(old(abs), abs, space, lo, v, g);
        DropPage(space, v, g);
        EntriesDroppedOne(old(st).pt, pt, st.pt, space, lo, v, g);
        v := v + 1;
      }
      ReturnedIn(old(st), old(abs), st, abs, space, lo, hi, g);
    }

    /** freevm at exit or exec: the frame of page 0, if the space still has
        one, is lost; everything else goes. */
    method FreeVm(space: nat)
      requires Valid() && space in lay
      modifies this, kmem, kmem.next, kmem.count
      ensures Valid() && lay == old(lay) - {space}
      ensures Vanished(old(abs), abs, space) && Takes(old(Now()), Ends(space), Now())
      ensures SpaceReturned(old(st), st, space)
    {
      hide Sound, Laid, Dropped, Vanished, Tidy, EntriesDropped, NullForgotten, SpaceReturned;
      LaidTidy(st, lay, abs);
      var l := lay[space];
      ghost var a := abs;
      DeallocUvm(space, 0, l.sz, l.guard);
      GuardAboveNull(old(st).area, lay, a, space);
      OnlyNullLeft(st.area, lay, a, abs, space);
      ghost var mid := st;
      ForgetNull(space);
      SpaceReturnedIn(old(st), a, mid, st, abs, space, l.sz, l.guard);
      Gone(st.area, lay, a, abs, space);
      lay := lay - {space};
      LaidTidy(st, lay, abs);
    }

    method ForgetNull(space: nat)
      requires Whole()
      modifies `st, `abs
      ensures Whole() && st.area == old(st).area
      ensures abs == ViewDrop(old(abs), Va(space, 0)) && NullForgotten(old(st), st, space)
    {
      hide Sound;
      var k := Va(space, 0);
      ForgetSound(st, abs, k);
      if k in st.pt {
        st := Forget(st, k);
      }
      abs := ViewDrop(abs, k);
    }

    /** sys_shmbrk. None is the panic after allocuvm fails; the panic of the last
        branch is unreachable. */
    method Shmbrk(space: nat, n: int) returns (r: Option<int>)
      requires Valid() && space in lay
      modifies this, kmem, kmem.next, kmem.count
      ensures Valid() && Accounted(old(st), st)
      ensures r.None? <==> var l := old(lay)[space];
                n > 0 && l.shmbreak + n < l.shmtop * PGSIZE && RoundUp(l.shmbreak + n) - l.shmnext > |old(st).free|
      ensures r.Some? ==> Takes(old(Now()), Shms(space, n, r.value), Now())
    {
      hide Sound, Backed, Laid, Dropped, Added, AddedPrivate, EntriesKept, Restored, RoundUp, Tidy, Returned,
           EntriesMapped;
      LaidTidy(st, lay, abs);
      var l := lay[space];
      ghost var a := abs;
      ShmFacts(st.area, lay, a, space);
      if n == 0 {
        return Some(l.shmbreak);
      } else if n < 0 {
        DeallocUvm(space, l.top, l.shmtop, l.guard);
        ShmFreed(st.area, lay, a, abs, space);
        lay := lay[space := l.(shmbreak := l.top * PGSIZE, shmnext := l.top)];
        LaidTidy(st, lay, abs);
        return Some(l.shmbreak);
      }
      if l.shmbreak + n >= l.shmtop * PGSIZE {
        return Some(-1);
      }
      var next := RoundUp(l.shmbreak + n);
      ShmNext(st.area, lay, a, space, n);
      if next > l.shmnext {
        var ok := AllocUvm(space, l.shmnext, next, 0);
        if !ok {
          RestoredLaid(st.area, lay, a, abs);
          return None;
        }
        ShmGrown(st.area, lay, a, abs, space, l.shmbreak + n);
        lay := lay[space := l.(shmbreak := l.shmbreak + n, shmnext := next)];
      } else if next == l.shmnext {
        NothingAdded(a, space, next);
        ShmGrown(st.area, lay, a, abs, space, l.shmbreak + n);
        lay := lay[space := l.(shmbreak := l.shmbreak + n, shmnext := next)];
      } else {
        assert false;
      }
      LaidTidy(st, lay, abs);
      return Some(l.shmbreak);
    }

    /** growproc by n bytes. It fails at KERNBASE and when memory runs out, and then
        changes nothing. */
    method GrowHeap(space: nat, n: int) returns (ok: bool)
      requires Valid() && space in lay && (n < 0 ==> lay[space].brk + n >= lay[space].shmtop * PGSIZE)
      modifies this, kmem, kmem.next, kmem.count
      ensures Valid() && Accounted(old(st), st)
      ensures ok <==> var l := old(lay)[space];
                n <= 0 || (l.brk + n < KERNBASE && RoundUp(l.brk + n) - l.sz <= |old(st).free|)
      ensures Takes(old(Now()), Heaps(space, n, ok), Now())
    {
      hide Sound, Backed, Laid, Dropped, Added, AddedPrivate, EntriesKept, Restored, RoundUp, Tidy, Returned,
           EntriesMapped;
      LaidTidy(st, lay, abs);
      var l := lay[space];
      ghost var a := abs;
      HeapFacts(st.area, lay, a, space, n);
      if n > 0 && l.brk + n >= KERNBASE {
        return false;
      }
      var sz := RoundUp(l.brk + n);
      if n >= 0 {
        ok := AllocUvm(space, l.sz, sz, l.guard);
        if !ok {
          return;
        }
        HeapGrown(st.area, lay, a, abs, space, l.brk + n);
      } else {
        DeallocUvm(space, sz, l.sz, l.guard);
        HeapShrunk(st.area, lay, a, abs, space, l.brk + n);
      }
      lay := lay[space := l.(sz := sz, brk := l.brk + n)];
      LaidTidy(st, lay, abs);
      return true;
    }

    // exec

    /** The image exec builds: a null page, the loaded program, and two stack
        pages of which the lower is the guard; then, freevm of the old space. */
    method Exec(space: nat, image: nat, data: seq<Page>)
      requires Valid() && space in lay && image !in lay && |data| + 3 <= |st.free|
      modifies this, kmem, kmem.next, kmem.count
      ensures Valid() && lay == old(lay)[image := ExecLayout(|data| + 1)] - {space}
      ensures exists mid: View ::
                Takes(old(Now()), Makes(image, data), mid) && Takes(mid, Ends(space), Now())
      ensures st.kern == old(st).kern && old(st).lost <= st.lost && |st.lost| <= |old(st).lost| + 1
    {
      hide Takes, Sound, Laid;
      Create(image, data);
      ghost var mid := Now();
      FreeVm(space);
    }

    method Create(space: nat, data: seq<Page>)
      requires Valid() && space !in lay && |data| + 3 <= |st.free|
      modifies this, kmem, kmem.next, kmem.count
      ensures Valid() && lay == old(lay)[space := ExecLayout(|data| + 1)]
      ensures Created(old(abs), abs, space, data) && Takes(old(Now()), Makes(space, data), Now())
      ensures |st.free| == |old(st).free| - |data| - 3 && Accounted(old(st), st)
    {
      hide Sound, Laid, Created, Tidy;
      LaidTidy(st, lay, abs);
      BuildImage(space, data);
      CreatedLaid(old(st).area, lay, old(abs), abs, space, data);
      lay := lay[space := ExecLayout(|data| + 1)];
      LaidTidy(st, lay, abs);
    }

    method BuildImage(space: nat, data: seq<Page>)
      requires Whole() && Laid(st.area, lay, abs) && space !in lay && |data| + 3 <= |st.free|
      modifies `st, `abs, kmem, kmem.next, kmem.count
      ensures Whole()
      ensures var l := ExecLayout(|data| + 1); st.area == old(st).area[space := (l.top, l.shmtop)]
      ensures Created(old(abs), abs, space, data) && |st.free| == |old(st).free| - |data| - 3
      ensures Accounted(old(st), st)
    {
      hide Sound, AddedPrivate, Added, Created, Loaded, EntriesKept, SpaceOk;
      ghost var a := abs;
      var l := ExecLayout(|data| + 1);
      Open(space, l.top, l.shmtop);
      MapPage(Va(space, 0), Zero(), false, true);
      LoadPages(space, data);
      ghost var b := abs;
      LoadedAbsent(a, b, space, data);
      var ok := AllocUvm(space, l.guard, l.top, 0);
      CreatedBy(a, b, abs, space, data);
      SetEntryBits(Va(space, l.guard), false, false);
    }

    method Open(space: nat, lo: nat, hi: nat)
      requires Whole() && forall k :: k in abs.mem ==> k.space != space
      modifies `st
      ensures Whole() && st == OpenSpace(old(st), space, lo, hi)
    {
      OpenSpaceKeeps(st, space, lo, hi);
      OpenSpaceRefines(st, abs, space, lo, hi);
      st := OpenSpace(st, space, lo, hi);
    }

    /** kalloc, fill and mappages for one private page. */
    method MapPage(k: Va, data: Page, p: bool, u: bool)
      requires Whole() && k !in abs.mem && st.free != [] && !st.Shm(k) && (p ==> u)
      modifies `st, `abs, kmem, kmem.next, kmem.count
      ensures Whole() && st.area == old(st).area && Accounted(old(st), st) && |st.free| == |old(st).free| - 1
      ensures abs == ViewNew(old(abs), k, data, p && u)
    {
      hide Sound;
      NewSound(st, abs, k, data, p, u);
      var f := kmem.Kalloc();
      abs := ViewNew(abs, k, data, p && u);
      st := MapNew(st, k, data, p, u);
    }

    /** allocuvm and loaduvm for the program's pages. */
    method LoadPages(space: nat, data: seq<Page>)
      requires Whole() && |data| <= |st.free| && (forall k :: k in abs.mem && k.space == space ==> k.page == 0)
      requires forall v: nat :: v <= |data| ==> !st.Shm(Va(space, v))
      modifies `st, `abs, kmem, kmem.next, kmem.count
      ensures Whole() && st.area == old(st).area && Accounted(old(st), st) && |st.free| == |old(st).free| - |data|
      ensures Loaded(old(abs), abs, space, data, |data|)
    {
      LoadedNone(abs, space, data);
      var i := 0;
      while i < |data|
        invariant 0 <= i <= |data| && Loading(old(st), old(abs), space, data, i)
      {
        LoadOne(space, data, i, old(st), old(abs));
        i := i + 1;
      }
    }

    ghost predicate Loading(s0: State, a0: Memory, space: nat, data: seq<Page>, i: nat)
      reads this, kmem, kmem.next, kmem.count
    {
      && Whole() && st.area == s0.area && Accounted(s0, st) && |st.free| == |s0.free| - i && i <= |data|
      && Loaded(a0, abs, space, data, i)
    }

    method LoadOne(space: nat, data: seq<Page>, i: nat, ghost s0: State, ghost a0: Memory)
      requires Loading(s0, a0, space, data, i) && i < |data| <= |s0.free|
      requires forall k :: k in a0.mem && k.space == space ==> k.page == 0
      requires !s0.Shm(Va(space, 1 + i))
      modifies `st, `abs, kmem, kmem.next, kmem.count
      ensures Loading(s0, a0, space, data, i + 1)
    {
      hide Sound, Loaded;
      LoadedOne(a0, abs, space, data, i);
      MapPage(Va(space, 1 + i), data[i], true, true);
    }

    // Frames of the kernel's own: stacks, page directories, pipes

    /** kalloc by allocproc, setupkvm or pipealloc. */
    method KernelAlloc() returns (f: int)
      requires Valid()
      modifies `st, kmem, kmem.count
      ensures Valid() && (f == Kalloc.NULL <==> old(st).free == [])
      ensures f == Kalloc.NULL ==> st == old(st)
      ensures f != Kalloc.NULL ==>
                0 <= f && f !in old(st).kern && st.kern == old(st).kern + {f} && f in old(st).free && f !in st.free
    {
      hide Laid, Sound;
      KernelSound(st, abs);
      f := kmem.Kalloc();
      if f != Kalloc.NULL {
        st := KernelTake(st);
      }
    }

    /** kfree of such a frame: the assertion that its count is 1 holds. */
    method KernelFree(f: nat) returns (ok: bool)
      requires Valid() && f in st.kern
      modifies `st, kmem, kmem.next, kmem.count
      ensures Valid() && ok && st.kern == old(st).kern - {f} && st.free == [f] + old(st).free
    {
      hide Laid, Sound;
      KernelSound(st, abs);
      ok := kmem.Kfree(f);
      st := KernelGive(st, f);
    }

    /** kfree2 of such a frame, as pipeclose does. */
    method KernelFree2(f: nat)
      requires Valid() && f in st.kern
      modifies `st, kmem, kmem.next, kmem.count
      ensures Valid() && st.kern == old(st).kern - {f} && st.free == [f] + old(st).free
    {
      hide Laid, Sound;
      KernelSound(st, abs);
      kmem.Kfree2(f);
      st := KernelGive(st, f);
    }
  }

  const KERNBASE := 0x8000_0000
  const MAX_STACK := 256    // 0x100000 bytes, in pages
  const MAX_SHM := 4096     // 0x1000000 bytes, in pages

  /** The layout exec sets up above a program that ends below page n. */
  function ExecLayout(n: nat): (l: Layout) {
    var guard := n + MAX_STACK + 1;
    var top := guard + 2;
    Layout(n, guard, top, top, top + MAX_SHM, top + MAX_SHM, top * PGSIZE, (top + MAX_SHM) * PGSIZE)
  }

  /** In bytes, above a program that ends at n pages: the stack may grow down through
      0x100000 bytes and a page, from a guard page and one stack page below its top;
      then come 0x1000000 bytes for shared memory, none of them allocated, and the
      break. */
  lemma ExecAddresses(n: nat)
    requires n > 0
    ensures var l := ExecLayout(n);
            && LayoutOk(l) && l.last * 4096 == n * 4096 && l.guard * 4096 == n * 4096 + 0x101000
            && l.top * 4096 == l.guard * 4096 + 0x2000 && l.shmbreak == l.shmnext * 4096 == l.top * 4096
            && l.shmtop * 4096 == l.brk == l.top * 4096 + 0x1000000 && l.sz == l.shmtop
  {
  }

  ghost predicate Created(a: Memory, a': Memory, space: nat, data: seq<Page>) {
    var n := |data| + 1;
    var l := ExecLayout(n);
    && a'.store == a.store
    && (forall k :: k in a'.mem <==> k in a.mem || (k.space == space && (k.page < n || l.guard <= k.page < l.top)))
    && (forall k :: k in a.mem ==> a'.mem[k] == a.mem[k])
    && Va(space, 0) in a'.mem && a'.mem[Va(space, 0)] == Own(Zero(), false)
    && (forall v: nat :: 0 < v < n ==> Va(space, v) in a'.mem && a'.mem[Va(space, v)] == Own(data[v - 1], true))
    && Va(space, l.guard) in a'.mem && a'.mem[Va(space, l.guard)] == Own(Zero(), false)
    && Va(space, l.guard + 1) in a'.mem && a'.mem[Va(space, l.guard + 1)] == Own(Zero(), true)
  }

  ghost predicate Loaded(a: Memory, a': Memory, space: nat, data: seq<Page>, i: nat)
    requires i <= |data|
  {
    && a'.store == a.store
    && (forall k :: k in a'.mem <==> k in a.mem || (k.space == space && 0 < k.page <= i))
    && (forall k :: k in a.mem && !(k.space == space && 0 < k.page <= i) ==> a'.mem[k] == a.mem[k])
    && (forall v: nat :: 0 < v <= i ==> Va(space, v) in a'.mem && a'.mem[Va(space, v)] == Own(data[v - 1], true))
  }

  lemma LoadedNone(a: Memory, space: nat, data: seq<Page>)
    ensures Loaded(a, a, space, data, 0)
  {
  }

  lemma LoadedOne(a0: Memory, a: Memory, space: nat, data: seq<Page>, i: nat)
    requires i < |data| && Loaded(a0, a, space, data, i)
    requires forall k :: k in a0.mem && k.space == space ==> k.page == 0
    ensures Va(space, 1 + i) !in a.mem
    ensures Loaded(a0, ViewNew(a, Va(space, 1 + i), data[i], true), space, data, i + 1)
  {
  }

  lemma LoadedAbsent(a: Memory, b: Memory, space: nat, data: seq<Page>)
    requires (forall k :: k in a.mem ==> k.space != space)
    requires Loaded(ViewNew(a, Va(space, 0), Zero(), false), b, space, data, |data|)
    ensures forall v: nat :: v > |data| ==> Va(space, v) !in b.mem
  {
  }

  lemma CreatedBy(a: Memory, b: Memory, c: Memory, space: nat, data: seq<Page>)
    requires forall k :: k in a.mem ==> k.space != space
    requires Loaded(ViewNew(a, Va(space, 0), Zero(), false), b, space, data, |data|)
    requires var l := ExecLayout(|data| + 1); AddedPrivate(b, c, space, l.guard, l.top)
    ensures var g := Va(space, ExecLayout(|data| + 1).guard);
            g in c.mem && Created(a, ViewSee(c, g, false), space, data)
  {
    var l := ExecLayout(|data| + 1);
    LoadedAbsent(a, b, space, data);
    var g := Va(space, l.guard);
    var d := ViewSee(c, g, false);
    forall k | k in a.mem ensures d.mem[k] == a.mem[k] {
      assert k in b.mem && b.mem[k] == a.mem[k];
    }
  }

  lemma CreatedLaid(area: map<nat, (nat, nat)>, lay: map<nat, Layout>, a: Memory, a': Memory,
                    space: nat, data: seq<Page>)
    requires Laid(area, lay, a) && space !in lay && Created(a, a', space, data)
    ensures var l := ExecLayout(|data| + 1);
            Laid(area[space := (l.top, l.shmtop)], lay[space := l], a')
  {
    hide SpaceOk, Created;
    CreatedSpace(a, a', space, data);
    forall x | x in lay ensures SpaceOk(a', x, lay[x]) {
      SpaceKept(a, a', x, lay[x]);
    }
  }

  lemma CreatedSpace(a: Memory, a': Memory, space: nat, data: seq<Page>)
    requires (forall k :: k in a.mem ==> k.space != space) && Created(a, a', space, data)
    ensures SpaceOk(a', space, ExecLayout(|data| + 1))
    ensures forall x :: x != space ==> SameSpace(a, a', x)
    ensures forall k :: k in a'.mem ==> k in a.mem || k.space == space
  {
    var l := ExecLayout(|data| + 1);
    forall v: nat | Va(space, v) in a'.mem && v != l.guard ensures a'.mem[Va(space, v)].seen == (v != 0) {
      assert v == 0 || v <= |data| || v == l.guard + 1;
    }
  }

  lemma ShmFacts(area: map<nat, (nat, nat)>, lay: map<nat, Layout>, a: Memory, space: nat)
    requires Laid(area, lay, a) && space in lay
    ensures var l := lay[space]; l.top <= l.shmnext <= l.shmtop
    ensures forall v: nat :: lay[space].shmnext <= v < lay[space].shmtop ==> Va(space, v) !in a.mem
  {
  }

  /** The new end of shared memory lies at or above the old one and in the area. */
  lemma ShmNext(area: map<nat, (nat, nat)>, lay: map<nat, Layout>, a: Memory, space: nat, n: nat)
    requires Laid(area, lay, a) && space in lay && lay[space].shmbreak + n < lay[space].shmtop * PGSIZE
    ensures lay[space].shmnext <= RoundUp(lay[space].shmbreak + n) <= lay[space].shmtop
  {
  }

  lemma ShmFreed(area: map<nat, (nat, nat)>, lay: map<nat, Layout>, a: Memory, a': Memory, space: nat)
    requires Laid(area, lay, a) && space in lay
    requires Dropped(a, a', space, lay[space].top, lay[space].shmtop, lay[space].guard)
    ensures Laid(area, lay[space := lay[space].(shmbreak := lay[space].top * PGSIZE, shmnext := lay[space].top)], a')
  {
    var l := lay[space];
    var l' := l.(shmbreak := l.top * PGSIZE, shmnext := l.top);
    assert SpaceOk(a', space, l');
    LaidAfter(area, lay, a, a', space, l');
  }

  lemma ShmGrown(area: map<nat, (nat, nat)>, lay: map<nat, Layout>, a: Memory, a': Memory, space: nat, bk: nat)
    requires Laid(area, lay, a) && space in lay
    requires lay[space].shmbreak <= bk && lay[space].shmnext <= RoundUp(bk) <= lay[space].shmtop
    requires Added(a, a', space, lay[space].shmnext, RoundUp(bk))
    ensures Laid(area, lay[space := lay[space].(shmbreak := bk, shmnext := RoundUp(bk))], a')
  {
    var l := lay[space];
    var l' := l.(shmbreak := bk, shmnext := RoundUp(bk));
    assert SpaceOk(a', space, l') by {
      forall v: nat | Va(space, v) in a'.mem && v != l'.guard
        ensures a'.mem[Va(space, v)].seen == (v != 0)
      {
        if Va(space, v) in a.mem {
          assert Kept(a, a', Va(space, v));
        } else {
          assert ViewLoad(a', Va(space, v)) == Some(Zero());
        }
      }
    }
    forall x | x != space ensures SameSpace(a, a', x) {
      forall v: nat | Va(x, v) in a.mem ensures a'.mem[Va(x, v)].seen == a.mem[Va(x, v)].seen {
        assert Kept(a, a', Va(x, v));
      }
    }
    LaidAfter(area, lay, a, a', space, l');
  }

  lemma RestoredLaid(area: map<nat, (nat, nat)>, lay: map<nat, Layout>, a: Memory, a': Memory)
    requires Laid(area, lay, a) && Restored(a, a')
    ensures Laid(area, lay, a')
  {
    hide SpaceOk;
    forall x | x in lay ensures SpaceOk(a', x, lay[x]) {
      SpaceKept(a, a', x, lay[x]);
    }
  }

  lemma HeapFacts(area: map<nat, (nat, nat)>, lay: map<nat, Layout>, a: Memory, space: nat, n: int)
    requires Laid(area, lay, a) && space in lay && (n < 0 ==> lay[space].brk + n >= lay[space].shmtop * PGSIZE)
    ensures space in area && area[space].1 <= lay[space].sz
    ensures forall v: nat :: lay[space].sz <= v ==> Va(space, v) !in a.mem
    ensures n >= 0 ==> lay[space].sz <= RoundUp(lay[space].brk + n)
                       && (n == 0 ==> lay[space].sz == RoundUp(lay[space].brk))
    ensures n < 0 ==> lay[space].shmtop <= RoundUp(lay[space].brk + n) <= lay[space].sz
  {
  }

  lemma HeapGrown(area: map<nat, (nat, nat)>, lay: map<nat, Layout>, a: Memory, a': Memory, space: nat, bk: nat)
    requires Laid(area, lay, a) && space in lay && lay[space].brk <= bk
    requires AddedPrivate(a, a', space, lay[space].sz, RoundUp(bk))
    ensures Laid(area, lay[space := lay[space].(sz := RoundUp(bk), brk := bk)], a')
  {
    var l := lay[space];
    var l' := l.(sz := RoundUp(bk), brk := bk);
    assert SpaceOk(a', space, l');
    hide SpaceOk;
    LaidAfter(area, lay, a, a', space, l');
  }

  lemma HeapShrunk(area: map<nat, (nat, nat)>, lay: map<nat, Layout>, a: Memory, a': Memory, space: nat, bk: nat)
    requires Laid(area, lay, a) && space in lay && lay[space].shmtop * PGSIZE <= bk <= lay[space].brk
    requires Dropped(a, a', space, RoundUp(bk), lay[space].sz, lay[space].guard)
    ensures Laid(area, lay[space := lay[space].(sz := RoundUp(bk), brk := bk)], a')
  {
    var l := lay[space];
    var l' := l.(sz := RoundUp(bk), brk := bk);
    assert SpaceOk(a', space, l');
    LaidAfter(area, lay, a, a', space, l');
  }

  /** One page freed, if deallocuvm finds it present or takes it for so. */
  function ViewFree(a: Memory, k: Va, g: nat): (a': Memory) {
    if k in a.mem && (a.mem[k].seen || k.page == g) then ViewDrop(a, k) else a
  }

  lemma FreeSound(s: State, a: Memory, k: Va, g: nat)
    requires Sound(s, a)
    ensures k in s.pt <==> k in a.mem
    ensures Sized(s) && (k in s.pt ==> s.count[s.pt[k].frame] > 0 && s.pt[k].p == a.mem[k].seen)
    ensures k in s.pt ==> Sound(Release(s, k), ViewDrop(a, k))
    ensures k in s.pt ==> Release(s, k).area == s.area && Accounted(s, Release(s, k))
  {
    if k in s.pt {
      Held(s, k);
      assert Shows(s, a, k) && EntryOk(s, k);
      ReleaseKeeps(s, k);
      ReleaseRefines(s, a, k);
    }
  }

  lemma NothingMapped(pt: map<Va, Pte>, space: nat, lo: nat)
    ensures EntriesMapped(pt, pt, space, lo, lo)
  {
  }

  lemma MappedOne(pt0: map<Va, Pte>, pt: map<Va, Pte>, pt': map<Va, Pte>, space: nat, lo: nat, v: nat)
    requires EntriesMapped(pt0, pt, space, lo, v) && lo <= v && Va(space, v) !in pt
    requires Va(space, v) in pt' && pt' == pt[Va(space, v) := pt'[Va(space, v)]] && pt'[Va(space, v)].p
    ensures EntriesMapped(pt0, pt', space, lo, v + 1)
  {
  }

  /** allocuvm's undo gives every frame back. */
  lemma BackIn(s: State, a: Memory, mid: State, s': State, a': Memory,
               space: nat, lo: nat, v: nat, hi: nat, g: nat)
    requires Sound(s, a) && Sound(s', a') && Accounted(s, mid) && Accounted(mid, s') && lo <= v <= hi
    requires EntriesMapped(s.pt, mid.pt, space, lo, v) && EntriesDropped(mid.pt, s'.pt, space, lo, hi, g)
    requires forall w: nat :: lo <= w < hi ==> Va(space, w) !in a.mem
    ensures s'.pt == s.pt && s'.count == s.count && forall f :: f in s'.free <==> f in s.free
  {
    hide Covered, FreeOk, Apart, EntryOk, EntriesMapped, EntriesDropped;
    forall k | k in s.pt ensures !(k.space == space && lo <= k.page < hi) {
      assert k in a.mem && k == Va(k.space, k.page);
    }
    SameEntries(s.pt, mid.pt, s'.pt, space, lo, v, hi, g);
    SameFrames(s, s');
  }

  lemma SameEntries(pt: map<Va, Pte>, mid: map<Va, Pte>, pt': map<Va, Pte>,
                    space: nat, lo: nat, v: nat, hi: nat, g: nat)
    requires EntriesMapped(pt, mid, space, lo, v) && EntriesDropped(mid, pt', space, lo, hi, g) && v <= hi
    requires forall k :: k in pt ==> !(k.space == space && lo <= k.page < hi)
    ensures pt' == pt
  {
  }

  lemma EntriesDroppedNone(pt: map<Va, Pte>, space: nat, lo: nat, g: nat)
    ensures EntriesDropped(pt, pt, space, lo, lo, g)
  {
  }

  lemma EntriesDroppedOne(pt0: map<Va, Pte>, pt: map<Va, Pte>, pt': map<Va, Pte>, space: nat, lo: nat, v: nat, g: nat)
    requires lo <= v && EntriesDropped(pt0, pt, space, lo, v, g) && EntriesDropped(pt, pt', space, v, v + 1, g)
    ensures EntriesDropped(pt0, pt', space, lo, v + 1, g)
  {
  }

  lemma ReturnedIn(s: State, a: Memory, s': State, a': Memory, space: nat, lo: nat, hi: nat, g: nat)
    requires Sound(s, a) && Sound(s', a') && Accounted(s, s') && EntriesDropped(s.pt, s'.pt, space, lo, hi, g)
    ensures Returned(s, s', space, lo, hi, g)
  {
    hide Returned;
    FramesReturned(s, s', space, lo, hi, g);
  }

  /** What ForgetNull does to the entries. */
  ghost predicate NullForgotten(s: State, s': State, space: nat) {
    && s'.pt == s.pt - {Va(space, 0)} && s'.kern == s.kern && |s'.count| == |s.count|
    && s'.lost == s.lost + (if Va(space, 0) in s.pt then multiset{s.pt[Va(space, 0)].frame} else multiset{})
  }

  lemma SpaceEntries(s: State, mid: State, s': State, space: nat, hi: nat, g: nat)
    requires Accounted(s, mid) && EntriesDropped(s.pt, mid.pt, space, 0, hi, g) && NullForgotten(mid, s', space)
    requires 1 <= g < hi && forall k :: k in s'.pt <==> k in s.pt && k.space != space
    ensures s'.pt == (map k | k in s.pt && k.space != space :: s.pt[k])
    ensures s'.kern == s.kern && s'.lost == s.lost + NullRef(s, space) && |s'.count| == |s.count|
  {
  }

  lemma SpaceReturnedIn(s: State, a: Memory, mid: State, s': State, a': Memory, space: nat, hi: nat, g: nat)
    requires Sound(s, a) && Sound(s', a') && Vanished(a, a', space) && 1 <= g < hi
    requires Accounted(s, mid) && EntriesDropped(s.pt, mid.pt, space, 0, hi, g) && NullForgotten(mid, s', space)
    ensures SpaceReturned(s, s', space)
  {
    hide Covered, FreeOk, Apart, EntryOk, EntriesDropped, SpaceReturned, NullRef;
    SpaceEntries(s, mid, s', space, hi, g);
    SpaceFrames(s, s', space);
  }

  ghost predicate Dropped(a: Memory, a': Memory, space: nat, lo: nat, hi: nat, g: nat) {
    && a'.store == a.store
    && (forall k :: k in a'.mem ==> k in a.mem && a'.mem[k] == a.mem[k])
    && (forall k :: k in a.mem ==>
          (k !in a'.mem <==> k.space == space && lo <= k.page < hi && (a.mem[k].seen || k.page == g)))
  }

  lemma DroppedNone(a: Memory, space: nat, lo: nat, g: nat)
    ensures Dropped(a, a, space, lo, lo, g)
  {
  }

  lemma DroppedOne(a0: Memory, a: Memory, space: nat, lo: nat, v: nat, g: nat)
    requires Dropped(a0, a, space, lo, v, g) && lo <= v
    ensures Dropped(a0, ViewFree(a, Va(space, v), g), space, lo, v + 1, g)
  {
    var a' := ViewFree(a, Va(space, v), g);
    forall k | k in a0.mem
      ensures k !in a'.mem <==> k.space == space && lo <= k.page < v + 1 && (a0.mem[k].seen || k.page == g)
    {
      if k.space == space && k.page == v {
        assert k == Va(space, v) && k in a.mem;
      }
    }
  }

  /** The space is gone; every other page is as it was. */
  ghost predicate Vanished(a: Memory, a': Memory, space: nat) {
    && a'.store == a.store
    && (forall k :: k in a'.mem <==> k in a.mem && k.space != space)
    && (forall k :: k in a'.mem ==> a'.mem[k] == a.mem[k])
  }

  lemma OnlyNullLeft(area: map<nat, (nat, nat)>, lay: map<nat, Layout>, a: Memory, a': Memory, space: nat)
    requires Laid(area, lay, a) && space in lay
    requires Dropped(a, a', space, 0, lay[space].sz, lay[space].guard)
    ensures Vanished(a, ViewDrop(a', Va(space, 0)), space)
  {
    var a2 := ViewDrop(a', Va(space, 0));
    assert SpaceOk(a, space, lay[space]);
    forall k | k in a.mem && k.space == space ensures k !in a2.mem {
      assert k == Va(space, k.page);
    }
  }

  lemma Gone(area: map<nat, (nat, nat)>, lay: map<nat, Layout>, a: Memory, a': Memory, space: nat)
    requires Laid(area, lay, a) && Vanished(a, a', space)
    ensures Laid(area, lay - {space}, a')
  {
    hide SpaceOk;
    forall x | x in lay && x != space ensures SpaceOk(a', x, lay[x]) {
      SpaceKept(a, a', x, lay[x]);
    }
  }

  /** What the hardware asks of an entry before it stores. */
  predicate Writable(s: State, k: Va) {
    k in s.pt && s.pt[k].p && s.pt[k].u && s.pt[k].w
  }

  ghost predicate Stored(a: Memory, a': Memory, k: Va, off: nat, val: int) {
    && k in a.mem && off < PGSIZE && (a.mem[k].Shared? ==> a.mem[k].id in a.store)
    && a' == ViewStore(a, k, off, val)
  }

  predicate Seen(a: Memory, k: Va) { k in a.mem && a.mem[k].seen }

  /** Where a user store succeeds: on a page the process can reach, at or below the
      guard as far as the stack may grow, and on a guard page that can move no
      further but is shared copy-on-write. */
  predicate Succeeds(s: State, a: Memory, l: Layout, k: Va) {
    Seen(a, k) || l.last < k.page <= l.guard || (k.page == l.guard == l.last && CowShared(s, k))
  }

  /** The memory the byte goes to: the page is there, or it is the shared guard page,
      which the fault makes present without moving the guard, or the stack grows. */
  ghost predicate Reached(s: State, a: Memory, lay: map<nat, Layout>, a': Memory, lay': map<nat, Layout>, k: Va) {
    && k.space in lay
    && var l := lay[k.space];
       if Seen(a, k) then a' == a && lay' == lay
       else if CowShared(s, k) then k.page == l.guard && k in a.mem && a' == ViewSee(a, k, true) && lay' == lay
       else
         && l.last < k.page <= l.guard && Grown(a, a', k.space, l.guard, k.page - 1)
         && lay' == lay[k.space := l.(guard := k.page - 1)]
  }

  /** n faults into a store: none yet, one, or the guard page claimed from nobody
      else and then the stack grown over it. */
  ghost predicate Storing(s0: State, a0: Memory, lay0: map<nat, Layout>,
                          s: State, a: Memory, lay: map<nat, Layout>, k: Va, n: nat)
  {
    match n
    case 0 => s == s0 && a == a0 && lay == lay0
    case 1 => FaultDone(s0, a0, lay0, s, a, lay, k)
    case _ =>
      && n == 2 && k in s0.pt && s0.pt[k].cow && !CowShared(s0, k) && !s0.pt[k].p
      && FaultDone(Claim(s0, k), a0, lay0, s, a, lay, k)
  }

  /** After one fault the store goes through, unless the fault only claimed a page
      that is not present. */
  lemma AfterOne(s0: State, a0: Memory, lay0: map<nat, Layout>, s: State, a: Memory, lay: map<nat, Layout>, k: Va)
    requires Sound(s0, a0) && FaultDone(s0, a0, lay0, s, a, lay, k) && !Writable(s, k)
    ensures k in s0.pt && s0.pt[k].cow && !CowShared(s0, k) && !s0.pt[k].p
    ensures s == Claim(s0, k) && a == a0 && lay == lay0
  {
    if k in s0.pt {
      Held(s0, k);
      assert EntryOk(s0, k);
    }
  }

  lemma StoringNext(s0: State, a0: Memory, lay0: map<nat, Layout>, s: State, a: Memory, lay: map<nat, Layout>,
                    s': State, a': Memory, lay': map<nat, Layout>, k: Va, n: nat)
    requires Sound(s0, a0) && Sound(s, a) && Storing(s0, a0, lay0, s, a, lay, k, n) && !Writable(s, k)
    requires k.space in lay && |s.free| > lay[k.space].guard - lay[k.space].last
    requires FaultDone(s, a, lay, s', a', lay', k)
    ensures n < 2 && Storing(s0, a0, lay0, s', a', lay', k, n + 1)
    ensures Faults(s', k) < Faults(s, k)
    ensures !Writable(s', k) ==> s'.free == s.free && lay' == lay
  {
    hide Grew, Sound, StackFault;
    if n == 1 {
      AfterOne(s0, a0, lay0, s, a, lay, k);
    }
    if !Writable(s', k) {
      AfterOne(s, a, lay, s', a', lay', k);
    }
  }

  /** What keeps a store from being resolved also keeps it from succeeding. */
  lemma StoreKilled(s0: State, a0: Memory, lay0: map<nat, Layout>, s: State, a: Memory, lay: map<nat, Layout>,
                    space: nat, addr: nat, n: nat)
    requires Sound(s0, a0) && Laid(s0.area, lay0, a0) && space in lay0
    requires Storing(s0, a0, lay0, s, a, lay, Va(space, addr / PGSIZE), n) && !Writable(s, Va(space, addr / PGSIZE))
    requires space in lay && !Resolvable(s, lay[space], space, addr, true)
    ensures a == a0 && lay == lay0 && !Succeeds(s0, a0, lay0[space], Va(space, addr / PGSIZE))
  {
    hide Grew;
    var k := Va(space, addr / PGSIZE);
    if n == 1 {
      AfterOne(s0, a0, lay0, s, a, lay, k);
    }
    assert SpaceOk(a0, space, lay0[space]);
    if k in s0.pt {
      assert EntryOk(s0, k) && Shows(s0, a0, k);
    }
  }

  lemma EntrySeen(s: State, a: Memory, k: Va)
    requires Sound(s, a) && k in s.pt
    ensures Sized(s) && k in a.mem && a.mem[k].seen == s.pt[k].p && s.count[s.pt[k].frame] > 0
    ensures s.pt[k].p ==> s.pt[k].u
  {
    assert Shows(s, a, k) && EntryOk(s, k);
    Held(s, k);
  }

  /** A copy-on-write page that is not present is the guard page. */
  lemma CowUnseen(s: State, a: Memory, l: Layout, k: Va)
    requires Sound(s, a) && SpaceOk(a, k.space, l) && k in s.pt && s.pt[k].cow && !s.pt[k].p
    ensures k.page == l.guard && k in a.mem && !a.mem[k].seen
  {
    EntrySeen(s, a, k);
    assert k == Va(k.space, k.page);
  }

  lemma ReachedCow(s: State, a: Memory, lay: map<nat, Layout>, s': State, a': Memory, lay': map<nat, Layout>, k: Va)
    requires Sound(s, a) && k.space in lay && SpaceOk(a, k.space, lay[k.space])
    requires k in s.pt && s.pt[k].cow && FaultDone(s, a, lay, s', a', lay', k) && Writable(s', k)
    ensures Succeeds(s, a, lay[k.space], k) && Reached(s, a, lay, a', lay', k)
  {
    hide Sound, SpaceOk, Grew, StackFault;
    EntrySeen(s, a, k);
    if s.pt[k].p {
      assert ViewSee(a, k, true) == a;
    } else {
      CowUnseen(s, a, lay[k.space], k);
      GuardIn(a, k.space, lay[k.space]);
    }
  }

  lemma GuardIn(a: Memory, space: nat, l: Layout)
    requires SpaceOk(a, space, l)
    ensures l.last <= l.guard
  {
  }

  lemma ReachedStack(s: State, a: Memory, lay: map<nat, Layout>, s': State, a': Memory, lay': map<nat, Layout>, k: Va)
    requires Sound(s, a) && k.space in lay && SpaceOk(a, k.space, lay[k.space])
    requires k.space in s.area && s.area[k.space] == (lay[k.space].top, lay[k.space].shmtop)
    requires !(k in s.pt && s.pt[k].cow) && FaultDone(s, a, lay, s', a', lay', k)
    ensures Succeeds(s, a, lay[k.space], k) && Reached(s, a, lay, a', lay', k)
  {
    hide Sound, SpaceOk;
    InReserve(s, a, k, lay[k.space]);
    if k in s.pt {
      EntrySeen(s, a, k);
    } else {
      Unmapped(s, a, k);
    }
  }

  lemma Unmapped(s: State, a: Memory, k: Va)
    requires Sound(s, a) && k !in s.pt
    ensures k !in a.mem
  {
  }

  lemma ReachedTwice(s: State, a: Memory, lay: map<nat, Layout>, s': State, a': Memory, lay': map<nat, Layout>, k: Va)
    requires Sound(s, a) && k.space in lay && SpaceOk(a, k.space, lay[k.space])
    requires Storing(s, a, lay, s', a', lay', k, 2)
    ensures Succeeds(s, a, lay[k.space], k) && Reached(s, a, lay, a', lay', k)
  {
    hide Sound, SpaceOk, Grown;
    CowUnseen(s, a, lay[k.space], k);
  }

  lemma StoreReached(s0: State, a0: Memory, lay0: map<nat, Layout>, s: State, a: Memory, lay: map<nat, Layout>,
                     k: Va, n: nat)
    requires Sound(s0, a0) && Laid(s0.area, lay0, a0) && k.space in lay0
    requires Storing(s0, a0, lay0, s, a, lay, k, n) && Writable(s, k) && Sound(s, a)
    ensures Succeeds(s0, a0, lay0[k.space], k) && Reached(s0, a0, lay0, a, lay, k)
  {
    hide Sound, SpaceOk, Grew, StackFault, FaultDone;
    if n == 0 {
      EntrySeen(s, a, k);
    } else if n == 1 {
      if k in s0.pt && s0.pt[k].cow {
        ReachedCow(s0, a0, lay0, s, a, lay, k);
      } else {
        ReachedStack(s0, a0, lay0, s, a, lay, k);
      }
    } else {
      ReachedTwice(s0, a0, lay0, s, a, lay, k);
    }
  }

  lemma StoreSound(s: State, a: Memory, lay: map<nat, Layout>, k: Va, off: nat, val: int)
    requires Sound(s, a) && Laid(s.area, lay, a) && Writable(s, k) && off < PGSIZE
    ensures Sized(s) && k in a.mem && (a.mem[k].Shared? ==> a.mem[k].id in a.store)
    ensures Sound(StoreByte(s, k, off, val), ViewStore(a, k, off, val))
    ensures Laid(s.area, lay, ViewStore(a, k, off, val))
  {
    StoreKeeps(s, k, off, val);
    StoreRefines(s, a, k, off, val);
    StoreLaid(s.area, lay, a, k, off, val);
  }

  lemma StoreLaid(area: map<nat, (nat, nat)>, lay: map<nat, Layout>, a: Memory, k: Va, off: nat, val: int)
    requires Laid(area, lay, a) && k in a.mem && off < PGSIZE && (a.mem[k].Shared? ==> a.mem[k].id in a.store)
    ensures Laid(area, lay, ViewStore(a, k, off, val))
  {
    hide SpaceOk;
    var a' := ViewStore(a, k, off, val);
    forall x | x in lay ensures SpaceOk(a', x, lay[x]) {
      SpaceKept(a, a', x, lay[x]);
    }
  }

  /** A survived fault: a copy-on-write page resolved, or the stack grown down to
      the page. */
  ghost predicate FaultDone(s: State, a: Memory, lay: map<nat, Layout>,
                            s': State, a': Memory, lay': map<nat, Layout>, k: Va)
  {
    && k.space in lay
    && if k in s.pt && s.pt[k].cow then
         Sized(s) && s.free != [] && k in a.mem && s' == CowResolved(s, k) && a' == CowSeen(s, a, k) && lay' == lay
       else
         && StackFault(s, lay[k.space], k) && Grew(s, a, s', a', k.space, lay[k.space].guard, k.page - 1)
         && lay' == lay[k.space := lay[k.space].(guard := k.page - 1)]
         && Faults(s, k) == 1 && Faults(s', k) == 0
  }

  /** What a page fault does: nothing if the process is killed. */
  ghost predicate Faulted(s: State, a: Memory, lay: map<nat, Layout>,
                          s': State, a': Memory, lay': map<nat, Layout>, k: Va, r: Outcome)
  {
    if r.Killed? then s' == s && a' == a && lay' == lay else FaultDone(s, a, lay, s', a', lay', k)
  }

  lemma GuardAboveNull(area: map<nat, (nat, nat)>, lay: map<nat, Layout>, a: Memory, space: nat)
    requires Laid(area, lay, a) && space in lay
    ensures 1 <= lay[space].guard < lay[space].sz
  {
  }

  lemma RoomForGuard(area: map<nat, (nat, nat)>, lay: map<nat, Layout>, a: Memory, space: nat)
    requires Laid(area, lay, a) && space in lay
    ensures lay[space].last <= lay[space].guard
  {
  }

  /** A store to a private page is seen by that process alone; a store to shared
      memory by all who map the page, and by them only. */
  lemma StoreSeenBy(a: Memory, k: Va, off: nat, val: int, m: Va)
    requires k in a.mem && off < PGSIZE && (a.mem[k].Shared? ==> a.mem[k].id in a.store)
    requires a.mem[k].seen
    ensures ViewLoad(a, k).Some? && ViewLoad(ViewStore(a, k, off, val), k)
         == Some(ViewLoad(a, k).value[off := val])
    ensures m != k && !(m in a.mem && a.mem[m].Shared? && a.mem[k].Shared? && a.mem[m].id == a.mem[k].id)
      ==> ViewLoad(ViewStore(a, k, off, val), m) == ViewLoad(a, m)
    ensures m in a.mem && a.mem[m].seen && a.mem[m].Shared? && a.mem[k].Shared? && a.mem[m].id == a.mem[k].id
      ==> ViewLoad(ViewStore(a, k, off, val), m) == ViewLoad(ViewStore(a, k, off, val), k)
  {
  }

  // The calls and stores as steps on what processes see

  datatype View = View(mem: Memory, lay: map<nat, Layout>)

  /** exec is Makes of the new image and Ends of the old one. The results ok and r
      are those the caller sees. */
  datatype Step =
    | Makes(space: nat, data: seq<Page>)
    | Ends(space: nat)
    | Forks(parent: nat, child: nat)
    | Stores(space: nat, addr: nat, val: int, ok: bool)
    | Shms(space: nat, n: int, r: int)
    | Heaps(space: nat, n: int, ok: bool)

  ghost predicate Tidy(v: View) {
    && (forall k :: k in v.mem.mem ==> k.space in v.lay)
    && (forall x :: x in v.lay ==> SpaceOk(v.mem, x, v.lay[x]))
    && (forall x :: x in v.lay ==> Va(x, v.lay[x].guard) in v.mem.mem && v.mem.mem[Va(x, v.lay[x].guard)].Own?)
    && (forall k :: k in v.mem.mem && v.mem.mem[k].Shared? ==> v.mem.mem[k].id in v.mem.store)
  }

  /** The memory a store goes to, without a look at the reference counts: whether a
      store to the guard page moves the guard is left open. */
  ghost predicate MayReach(v: View, k: Va, mid: Memory, lay: map<nat, Layout>)
    requires k.space in v.lay
  {
    var l := v.lay[k.space];
    if Seen(v.mem, k) then mid == v.mem && lay == v.lay
    else
      || (k.page == l.guard && k in v.mem.mem && mid == ViewSee(v.mem, k, true) && lay == v.lay)
      || (&& l.last < k.page <= l.guard && Grown(v.mem, mid, k.space, l.guard, k.page - 1)
          && lay == v.lay[k.space := l.(guard := k.page - 1)])
  }

  ghost predicate StoresIn(v: View, v': View, k: Va, off: nat, val: int, ok: bool) {
    && k.space in v.lay
    && if ok then exists mid: Memory :: MayReach(v, k, mid, v'.lay) && Stored(mid, v'.mem, k, off, val)
       else v' == v && !Seen(v.mem, k) && !(v.lay[k.space].last < k.page <= v.lay[k.space].guard)
  }

  ghost predicate ShmsIn(v: View, v': View, space: nat, n: int, r: int)
    requires space in v.lay
  {
    var l := v.lay[space];
    if n == 0 then r == l.shmbreak && v' == v
    else if n < 0 then
      && r == l.shmbreak && v'.lay == v.lay[space := l.(shmbreak := l.top * PGSIZE, shmnext := l.top)]
      && Dropped(v.mem, v'.mem, space, l.top, l.shmtop, l.guard)
    else if l.shmbreak + n >= l.shmtop * PGSIZE then r == -1 && v' == v
    else
      && r == l.shmbreak
      && v'.lay == v.lay[space := l.(shmbreak := l.shmbreak + n, shmnext := RoundUp(l.shmbreak + n))]
      && Added(v.mem, v'.mem, space, l.shmnext, RoundUp(l.shmbreak + n))
  }

  ghost predicate HeapsIn(v: View, v': View, space: nat, n: int, ok: bool)
    requires space in v.lay
  {
    var l := v.lay[space];
    if ok then
      && l.brk + n >= 0 && v'.lay == v.lay[space := l.(sz := RoundUp(l.brk + n), brk := l.brk + n)]
      && if n >= 0 then AddedPrivate(v.mem, v'.mem, space, l.sz, RoundUp(l.brk + n))
         else l.shmtop <= RoundUp(l.brk + n) && Dropped(v.mem, v'.mem, space, RoundUp(l.brk + n), l.sz, l.guard)
    else n > 0 && v' == v
  }

  ghost predicate Takes(v: View, step: Step, v': View) {
    && Tidy(v) && Tidy(v')
    && match step
       case Makes(space, data) =>
         space !in v.lay && Created(v.mem, v'.mem, space, data) && v'.lay == v.lay[space := ExecLayout(|data| + 1)]
       case Ends(space) => space in v.lay && Vanished(v.mem, v'.mem, space) && v'.lay == v.lay - {space}
       case Forks(parent, child) =>
         && parent in v.lay && child !in v.lay && v'.lay == v.lay[child := v.lay[parent]]
         && Forked(v.mem, v'.mem, parent, child, v.lay[parent], v.lay[parent].sz)
       case Stores(space, addr, val, ok) => StoresIn(v, v', Va(space, addr / PGSIZE), addr % PGSIZE, val, ok)
       case Shms(space, n, r) => space in v.lay && ShmsIn(v, v', space, n, r)
       case Heaps(space, n, ok) => space in v.lay && HeapsIn(v, v', space, n, ok)
  }

  lemma LaidTidy(s: State, lay: map<nat, Layout>, a: Memory)
    requires Sound(s, a) && Laid(s.area, lay, a)
    ensures Tidy(View(a, lay))
  {
    forall x | x in lay ensures Va(x, lay[x].guard) in a.mem && a.mem[Va(x, lay[x].guard)].Own? {
      GuardOwn(s, lay, a, x);
    }
    forall k | k in a.mem && a.mem[k].Shared? ensures a.mem[k].id in a.store {
      assert Shows(s, a, k);
    }
  }

  lemma GuardOwn(s: State, lay: map<nat, Layout>, a: Memory, x: nat)
    requires Sound(s, a) && Laid(s.area, lay, a) && x in lay
    ensures Va(x, lay[x].guard) in a.mem && a.mem[Va(x, lay[x].guard)].Own?
  {
    assert SpaceOk(a, x, lay[x]) && Mapped(lay[x], lay[x].guard);
    assert Shows(s, a, Va(x, lay[x].guard));
  }

  lemma ReachedMay(s: State, a: Memory, lay: map<nat, Layout>, mid: Memory, lay': map<nat, Layout>, k: Va)
    requires k.space in lay && Reached(s, a, lay, mid, lay', k)
    ensures MayReach(View(a, lay), k, mid, lay')
  {
  }

  // What the callers of shmbrk and sbrk get

  lemma ByteIn(b: nat, lo: nat, hi: nat)
    requires lo * PGSIZE <= b < hi
    ensures lo <= b / PGSIZE < RoundUp(hi)
  {
  }

  /** shmbrk of n > 0 bytes that does not fail gives its caller the bytes from r to
      r + n, all of which it can reach and none of which an earlier call gave, and
      the next call gives what follows. It fails just when the area would not hold
      them; n < 0 gives the whole area back. */
  lemma ShmGives(v: View, space: nat, n: int, r: int, v': View, b: nat)
    requires Takes(v, Shms(space, n, r), v') && space in v.lay
    ensures space in v'.lay && (r == -1 <==> n > 0 && v.lay[space].shmbreak + n >= v.lay[space].shmtop * PGSIZE)
    ensures r != -1 ==> r == v.lay[space].shmbreak && (n >= 0 ==> v'.lay[space].shmbreak == r + n)
    ensures n > 0 && r != -1 && r <= b < r + n ==> Seen(v'.mem, Va(space, b / PGSIZE))
    ensures n < 0 && v.lay[space].top * PGSIZE <= b < v.lay[space].shmtop * PGSIZE ==>
              Va(space, b / PGSIZE) !in v'.mem.mem && v'.lay[space].shmbreak == v.lay[space].top * PGSIZE
  {
    hide Added, Dropped, RoundUp;
    assert SpaceOk(v.mem, space, v.lay[space]) && SpaceOk(v'.mem, space, v'.lay[space]);
    var l := v'.lay[space];
    if n > 0 && r != -1 && r <= b < r + n {
      ByteIn(b, l.top, l.shmbreak);
      assert Mapped(l, b / PGSIZE) && b / PGSIZE > l.guard;
    }
    if n < 0 && l.top * PGSIZE <= b < l.shmtop * PGSIZE {
      assert l.top <= b / PGSIZE < l.shmtop;
      assert !Mapped(l, b / PGSIZE);
    }
  }

  /** growproc that succeeds moves the break by n bytes: those below the new one, down
      to the shared memory, can be reached, and the pages above it are gone. */
  lemma HeapGives(v: View, space: nat, n: int, ok: bool, v': View, b: nat)
    requires Takes(v, Heaps(space, n, ok), v') && space in v.lay
    ensures space in v'.lay && v'.lay[space].brk == (if ok then v.lay[space].brk + n else v.lay[space].brk)
    ensures v'.lay[space].shmtop * PGSIZE <= b < v'.lay[space].brk ==> Seen(v'.mem, Va(space, b / PGSIZE))
    ensures b >= v'.lay[space].sz * PGSIZE ==> Va(space, b / PGSIZE) !in v'.mem.mem
    ensures v'.lay[space].brk <= v'.lay[space].sz * PGSIZE < v'.lay[space].brk + PGSIZE
  {
    hide AddedPrivate, Dropped;
    assert SpaceOk(v.mem, space, v.lay[space]) && SpaceOk(v'.mem, space, v'.lay[space]);
    var l := v'.lay[space];
    if l.shmtop * PGSIZE <= b < l.brk {
      ByteIn(b, l.shmtop, l.brk);
      assert Mapped(l, b / PGSIZE);
    }
    if b >= l.sz * PGSIZE {
      assert b / PGSIZE >= l.sz;
      assert !Mapped(l, b / PGSIZE);
    }
  }
}
