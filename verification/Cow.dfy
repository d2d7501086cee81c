/** What processes see through their page tables (vm.c): a memory in which nothing
    private is shared, whatever frames copy-on-write shares underneath, while shared
    memory is one store. Each page operation on frames and entries is matched by
    one on this memory; module Eager compares it with copying at fork. */
module Cow {
  import opened Frames
  import opened Wrappers

  /** A page as its process sees it: its own contents, or a page of the shared
      store. seen says whether the hardware lets the process reach it. */
  datatype APage =
    | Own(data: Page, seen: bool)
    | Shared(id: nat, seen: bool)

  datatype Memory = Memory(mem: map<Va, APage>, store: map<nat, Page>)

  ghost predicate Shows(s: State, a: Memory, k: Va)
    requires Sized(s) && k in s.pt && k in a.mem
  {
    var e := s.pt[k];
    if s.Shm(k) then
      && a.mem[k] == Shared(e.frame, e.p && e.u)
      && e.frame in a.store && a.store[e.frame] == s.page[e.frame]
    else
      a.mem[k] == Own(s.page[e.frame], e.p && e.u)
  }

  ghost predicate Refines(s: State, a: Memory) {
    && Sized(s)
    && a.mem.Keys == s.pt.Keys
    && forall k :: k in s.pt ==> Shows(s, a, k)
  }

  /** What a load through the page table gives. */
  function Load(s: State, k: Va): (r: Option<Page>)
    requires Sized(s)
  {
    if k in s.pt && s.pt[k].p && s.pt[k].u then Some(s.page[s.pt[k].frame]) else None
  }

  function ViewLoad(a: Memory, k: Va): (r: Option<Page>) {
    if k in a.mem && a.mem[k].seen then
      match a.mem[k]
      case Own(data, _) => Some(data)
      case Shared(id, _) => if id in a.store then Some(a.store[id]) else None
    else None
  }

  /** A load through the page table gives what the memory shows. */
  lemma LoadsAgree(s: State, a: Memory, k: Va)
    requires Refines(s, a)
    ensures Load(s, k) == ViewLoad(a, k)
  {
    if k in s.pt {
      assert Shows(s, a, k);
    }
  }

  // Operations on the memory.

  predicate Fresh(a: Memory, id: nat) {
    forall k :: k in a.mem && a.mem[k].Shared? ==> a.mem[k].id != id
  }

  function ViewNew(a: Memory, k: Va, data: Page, seen: bool): (a': Memory) {
    a.(mem := a.mem[k := Own(data, seen)])
  }

  function ViewNewShared(a: Memory, k: Va, id: nat, data: Page, seen: bool): (a': Memory) {
    Memory(a.mem[k := Shared(id, seen)], a.store[id := data])
  }

  /** copyuvm for one page: the child gets the contents, or the shared page. */
  function ViewCopy(a: Memory, k: Va, l: Va, seen: bool): (a': Memory)
    requires k in a.mem
  {
    a.(mem := a.mem[l := a.mem[k].(seen := seen)])
  }

  function ViewStore(a: Memory, k: Va, off: nat, val: int): (a': Memory)
    requires k in a.mem && off < PGSIZE
    requires a.mem[k].Shared? ==> a.mem[k].id in a.store
  {
    match a.mem[k]
    case Own(data, seen) => a.(mem := a.mem[k := Own(data[off := val], seen)])
    case Shared(id, _) => a.(store := a.store[id := a.store[id][off := val]])
  }

  function ViewSee(a: Memory, k: Va, seen: bool): (a': Memory)
    requires k in a.mem
  {
    a.(mem := a.mem[k := a.mem[k].(seen := seen)])
  }

  function ViewDrop(a: Memory, k: Va): (a': Memory) {
    a.(mem := a.mem - {k})
  }

  // Each page operation of vm.c does what its counterpart here does.

  function ViewMapNew(s: State, a: Memory, k: Va, data: Page, seen: bool): (a': Memory)
    requires s.free != []
  {
    if s.Shm(k) then ViewNewShared(a, k, s.free[0], data, seen) else ViewNew(a, k, data, seen)
  }

  lemma MapNewShows(s: State, a: Memory, k: Va, data: Page, p: bool, u: bool, m: Va)
    requires Inv(s) && Refines(s, a) && s.free != [] && k !in s.pt
    requires m in MapNew(s, k, data, p, u).pt && m in ViewMapNew(s, a, k, data, p && u).mem
    ensures Sized(MapNew(s, k, data, p, u))
    ensures Shows(MapNew(s, k, data, p, u), ViewMapNew(s, a, k, data, p && u), m)
  {
    Unused(s, s.free[0]);
    if m != k {
      assert Shows(s, a, m);
    }
  }

  /** A new page, in shared memory under a name no process uses. */
  lemma MapNewRefines(s: State, a: Memory, k: Va, data: Page, p: bool, u: bool)
    requires Inv(s) && Refines(s, a) && s.free != [] && k !in s.pt
    ensures Fresh(a, s.free[0])
    ensures Refines(MapNew(s, k, data, p, u), ViewMapNew(s, a, k, data, p && u))
  {
    var s', a' := MapNew(s, k, data, p, u), ViewMapNew(s, a, k, data, p && u);
    Unused(s, s.free[0]);
    forall m | m in a.mem && a.mem[m].Shared? ensures a.mem[m].id != s.free[0] {
      assert Shows(s, a, m);
    }
    assert a'.mem.Keys == s'.pt.Keys;
    hide Shows, Covered, FreeOk, EntryOk, Apart;
    forall m | m in s'.pt ensures Sized(s') && Shows(s', a', m) {
      MapNewShows(s, a, k, data, p, u, m);
    }
  }

  lemma SharePrivateShows(s: State, a: Memory, k: Va, l: Va, p: bool, u: bool, m: Va)
    requires Inv(s) && Refines(s, a) && k in s.pt && l !in s.pt && !s.Shm(k) && !s.Shm(l)
             && m in SharePrivate(s, k, l, p, u).pt && m in ViewCopy(a, k, l, p && u).mem
    ensures Sized(SharePrivate(s, k, l, p, u)) && Shows(SharePrivate(s, k, l, p, u), ViewCopy(a, k, l, p && u), m)
  {
    assert Shows(s, a, if m == l then k else m);
  }

  lemma SharePrivateRefines(s: State, a: Memory, k: Va, l: Va, p: bool, u: bool)
    requires Inv(s) && Refines(s, a) && k in s.pt && l !in s.pt && !s.Shm(k) && !s.Shm(l)
    ensures Refines(SharePrivate(s, k, l, p, u), ViewCopy(a, k, l, p && u))
  {
    var s', a' := SharePrivate(s, k, l, p, u), ViewCopy(a, k, l, p && u);
    assert a'.mem.Keys == s'.pt.Keys;
    hide Shows, Covered, FreeOk, EntryOk, Apart;
    forall m | m in s'.pt ensures Sized(s') && Shows(s', a', m) {
      SharePrivateShows(s, a, k, l, p, u, m);
    }
  }

  lemma ShareShmShows(s: State, a: Memory, k: Va, l: Va, m: Va)
    requires Inv(s) && Refines(s, a) && k in s.pt && l !in s.pt && s.Shm(k) && s.Shm(l) && m in ShareShm(s, k, l).pt
             && m in ViewCopy(a, k, l, s.pt[k].u).mem
    ensures Sized(ShareShm(s, k, l)) && Shows(ShareShm(s, k, l), ViewCopy(a, k, l, s.pt[k].u), m)
  {
    assert Shows(s, a, if m == l then k else m);
  }

  lemma ShareShmRefines(s: State, a: Memory, k: Va, l: Va)
    requires Inv(s) && Refines(s, a) && k in s.pt && l !in s.pt && s.Shm(k) && s.Shm(l)
    ensures Refines(ShareShm(s, k, l), ViewCopy(a, k, l, s.pt[k].u))
  {
    var s', a' := ShareShm(s, k, l), ViewCopy(a, k, l, s.pt[k].u);
    assert a'.mem.Keys == s'.pt.Keys;
    hide Shows, Covered, FreeOk, EntryOk, Apart;
    forall m | m in s'.pt ensures Sized(s') && Shows(s', a', m) {
      ShareShmShows(s, a, k, l, m);
    }
  }

  lemma CopyOutShows(s: State, a: Memory, k: Va, m: Va)
    requires Inv(s) && Refines(s, a) && k in s.pt && !s.Shm(k) && s.free != [] && s.count[s.pt[k].frame] > 1
             && m in CopyOut(s, k).pt && m in ViewSee(a, k, true).mem
    ensures Sized(CopyOut(s, k)) && Shows(CopyOut(s, k), ViewSee(a, k, true), m)
  {
    Unused(s, s.free[0]);
    assert Shows(s, a, m) && Shows(s, a, k);
  }

  /** A copy-on-write fault changes no contents; the page can be reached after it. */
  lemma CopyOutRefines(s: State, a: Memory, k: Va)
    requires Inv(s) && Refines(s, a) && k in s.pt && !s.Shm(k) && s.free != [] && s.count[s.pt[k].frame] > 1
    ensures Refines(CopyOut(s, k), ViewSee(a, k, true))
  {
    var s', a' := CopyOut(s, k), ViewSee(a, k, true);
    assert a'.mem.Keys == s'.pt.Keys;
    hide Shows, Covered, FreeOk, EntryOk, Apart;
    forall m | m in s'.pt ensures Sized(s') && Shows(s', a', m) {
      CopyOutShows(s, a, k, m);
    }
  }

  lemma ClaimRefines(s: State, a: Memory, k: Va)
    requires Inv(s) && Refines(s, a) && k in s.pt && !s.Shm(k)
    ensures Refines(Claim(s, k), a)
  {
    var s' := Claim(s, k);
    forall m | m in s'.pt ensures Shows(s', a, m) {
      assert Shows(s, a, m);
    }
  }

  lemma ReleaseShows(s: State, a: Memory, k: Va, m: Va)
    requires Inv(s) && Refines(s, a) && k in s.pt && s.count[s.pt[k].frame] > 0 && m in Release(s, k).pt
             && m in ViewDrop(a, k).mem
    ensures Sized(Release(s, k)) && Shows(Release(s, k), ViewDrop(a, k), m)
  {
    hide Covered, FreeOk, EntryOk;
    if s.count[s.pt[k].frame] == 1 {
      AloneForall(s, k);
    }
    assert Shows(s, a, m);
  }

  lemma ReleaseRefines(s: State, a: Memory, k: Va)
    requires Inv(s) && Refines(s, a) && k in s.pt && s.count[s.pt[k].frame] > 0
    ensures Refines(Release(s, k), ViewDrop(a, k))
  {
    var s', a' := Release(s, k), ViewDrop(a, k);
    assert a'.mem.Keys == s'.pt.Keys;
    hide Shows, Covered, FreeOk, EntryOk, Apart;
    forall m | m in s'.pt ensures Sized(s') && Shows(s', a', m) {
      ReleaseShows(s, a, k, m);
    }
  }

  lemma ForgetShows(s: State, a: Memory, k: Va, m: Va)
    requires Refines(s, a) && k in s.pt && m in Forget(s, k).pt && m in ViewDrop(a, k).mem
    ensures Sized(Forget(s, k)) && Shows(Forget(s, k), ViewDrop(a, k), m)
  {
    assert Shows(s, a, m);
  }

  lemma ForgetRefines(s: State, a: Memory, k: Va)
    requires Refines(s, a) && k in s.pt
    ensures Refines(Forget(s, k), ViewDrop(a, k))
  {
    var s', a' := Forget(s, k), ViewDrop(a, k);
    assert a'.mem.Keys == s'.pt.Keys;
    hide Shows, Covered, FreeOk, EntryOk, Apart;
    forall m | m in s'.pt ensures Sized(s') && Shows(s', a', m) {
      ForgetShows(s, a, k, m);
    }
  }

  lemma SetBitsShows(s: State, a: Memory, k: Va, p: bool, u: bool, m: Va)
    requires Refines(s, a) && k in s.pt && m in SetBits(s, k, p, u).pt && m in ViewSee(a, k, p && u).mem
    ensures Sized(SetBits(s, k, p, u)) && Shows(SetBits(s, k, p, u), ViewSee(a, k, p && u), m)
  {
    assert Shows(s, a, m);
  }

  lemma SetBitsRefines(s: State, a: Memory, k: Va, p: bool, u: bool)
    requires Refines(s, a) && k in s.pt
    ensures Refines(SetBits(s, k, p, u), ViewSee(a, k, p && u))
  {
    var s', a' := SetBits(s, k, p, u), ViewSee(a, k, p && u);
    assert a'.mem.Keys == s'.pt.Keys;
    hide Shows, Covered, FreeOk, EntryOk, Apart;
    forall m | m in s'.pt ensures Sized(s') && Shows(s', a', m) {
      SetBitsShows(s, a, k, p, u, m);
    }
  }

  /** The heart of it: a store through a writable entry changes the page of
      that process alone, or the one shared page. */
  lemma StoreRefines(s: State, a: Memory, k: Va, off: nat, val: int)
    requires Inv(s) && Refines(s, a) && k in s.pt && s.pt[k].w && off < PGSIZE
    ensures a.mem[k].Shared? ==> a.mem[k].id in a.store
    ensures Refines(StoreByte(s, k, off, val), ViewStore(a, k, off, val))
  {
    assert Shows(s, a, k) && EntryOk(s, k);
    var s', a' := StoreByte(s, k, off, val), ViewStore(a, k, off, val);
    if !s.Shm(k) {
      AloneForall(s, k);
    }
    forall m | m in s'.pt ensures Shows(s', a', m) {
      assert Shows(s, a, m);
    }
  }

  lemma KernelRefines(s: State, a: Memory)
    requires Inv(s) && Refines(s, a)
    ensures s.free != [] ==> Refines(KernelTake(s), a)
    ensures forall f :: f in s.kern ==> Refines(KernelGive(s, f), a)
  {
    if s.free != [] {
      forall m | m in s.pt ensures Shows(KernelTake(s), a, m) {
        assert Shows(s, a, m);
      }
    }
    forall f | f in s.kern ensures Refines(KernelGive(s, f), a) {
      forall m | m in s.pt ensures Shows(KernelGive(s, f), a, m) {
        assert Shows(s, a, m);
        NotKernel(s, m);
      }
    }
  }

  lemma OpenSpaceRefines(s: State, a: Memory, space: nat, lo: nat, hi: nat)
    requires Inv(s) && Refines(s, a) && forall k :: k in s.pt ==> k.space != space
    ensures Refines(OpenSpace(s, space, lo, hi), a)
  {
    OpenSpaceKeeps(s, space, lo, hi);
    forall m | m in s.pt ensures Shows(OpenSpace(s, space, lo, hi), a, m) {
      assert Shows(s, a, m);
    }
  }
}
