/** Physical frames, reference counts and page table entries (kalloc.c, vm.c):
    what copy-on-write shares, and the private copies it stands for. */
module Frames {
  import opened Counting

  const PGSIZE := 4096

  type Page = p: seq<int> | |p| == PGSIZE witness seq(PGSIZE, _ => 0)

  /** A page of an address space (a page directory and a page number). */
  datatype Va = Va(space: nat, page: nat)

  /** The frame, and the bits PTE_P, PTE_W, PTE_U and PTE_COW. */
  datatype Pte = Pte(frame: nat, p: bool, w: bool, u: bool, cow: bool)

  /** kmem.runs and kmem.freelist, physical memory, and all page tables. The
      frames of kern are those the kernel took with kalloc for itself; lost has one
      element per reference whose entry went without being counted down. area
      gives the shared-memory area of each address space, stacktop to shmtop. */
  datatype State = State(count: seq<nat>, free: seq<nat>, page: seq<Page>, kern: set<nat>, lost: multiset<nat>,
                         pt: map<Va, Pte>, area: map<nat, (nat, nat)>)
  {
    predicate Shm(k: Va) {
      k.space in area && area[k.space].0 <= k.page < area[k.space].1
    }
  }

  ghost function Refs(pt: map<Va, Pte>, f: nat): (r: set<Va>) {
    set k | k in pt && pt[k].frame == f
  }

  ghost predicate Sized(s: State) {
    && |s.count| == |s.page|
    && (forall k :: k in s.pt ==> s.pt[k].frame < |s.count|)
    && (forall f :: f in s.kern ==> f < |s.count|)
    && (forall i :: 0 <= i < |s.free| ==> s.free[i] < |s.count|)
  }

  function Kernel(kern: set<nat>, f: nat): (n: nat) { if f in kern then 1 else 0 }

  /** Who holds a frame: entries, the kernel, and references that were lost. */
  ghost function Uses(s: State, f: nat): (n: nat) { |Refs(s.pt, f)| + Kernel(s.kern, f) + s.lost[f] }

  /** Every count is the number of uses. */
  ghost predicate Covered(s: State)
    requires Sized(s)
  {
    forall f :: 0 <= f < |s.count| ==> Uses(s, f) == s.count[f]
  }

  /** The free list has exactly the frames of count 0, each once. */
  ghost predicate FreeOk(s: State)
    requires Sized(s)
  {
    && (forall i, j :: 0 <= i < j < |s.free| ==> s.free[i] != s.free[j])
    && (forall i :: 0 <= i < |s.free| ==> s.count[s.free[i]] == 0)
    && (forall f :: 0 <= f < |s.count| && s.count[f] == 0 ==> f in s.free)
  }

  /** A writable private entry is the only use of its frame; a private entry is
      writable or copy-on-write; a shared-memory entry is plainly writable. A
      present entry can be reached by the user. */
  ghost predicate EntryOk(s: State, k: Va)
    requires Sized(s) && k in s.pt
  {
    && (s.pt[k].p ==> s.pt[k].u)
    && (if s.Shm(k) then s.pt[k].w && !s.pt[k].cow
        else s.pt[k].w != s.pt[k].cow && (s.pt[k].w ==> s.count[s.pt[k].frame] == 1))
  }

  /** Frames of shared memory are not used privately. */
  ghost predicate Apart(s: State) {
    forall k, l :: k in s.pt && l in s.pt && s.pt[k].frame == s.pt[l].frame ==> (s.Shm(k) <==> s.Shm(l))
  }

  ghost predicate Inv(s: State) {
    && Sized(s) && Covered(s) && FreeOk(s) && Apart(s)
    && (forall f :: f in s.kern ==> s.count[f] == 1)
    && (forall k :: k in s.pt ==> EntryOk(s, k))
  }

  /** Every frame is free, mapped, the kernel's or lost. */
  lemma FreeIff(s: State, f: nat)
    requires Inv(s) && f < |s.count|
    ensures f in s.free <==> f !in s.kern && f !in s.lost && forall k :: k in s.pt ==> s.pt[k].frame != f
  {
    assert Uses(s, f) == s.count[f];
    if forall k :: k in s.pt ==> s.pt[k].frame != f {
      assert Refs(s.pt, f) == {};
    } else {
      var k :| k in s.pt && s.pt[k].frame == f;
      assert k in Refs(s.pt, f);
    }
  }

  // Counting references.

  lemma RefsSet(pt: map<Va, Pte>, k: Va, e: Pte, f: nat)
    ensures Refs(pt[k := e], f) == if e.frame == f then Refs(pt, f) + {k} else Refs(pt, f) - {k}
  {
  }

  lemma RefsSame(pt: map<Va, Pte>, k: Va, e: Pte, f: nat)
    requires k in pt && pt[k].frame == e.frame
    ensures Refs(pt[k := e], f) == Refs(pt, f)
  {
  }

  lemma RefsDrop(pt: map<Va, Pte>, k: Va, f: nat)
    ensures Refs(pt - {k}, f) == Refs(pt, f) - {k}
  {
  }

  /** An entry whose frame has count 1 is alone. */
  lemma Alone(s: State, k: Va)
    requires Sized(s) && Covered(s) && k in s.pt && s.count[s.pt[k].frame] == 1
    ensures Refs(s.pt, s.pt[k].frame) == {k} && s.pt[k].frame !in s.kern
  {
    var r := Refs(s.pt, s.pt[k].frame);
    assert k in r;
    SubsetSize({k}, r);
  }

  lemma AloneForall(s: State, k: Va)
    requires Sized(s) && Covered(s) && k in s.pt && s.count[s.pt[k].frame] == 1
    ensures forall l :: l in s.pt && l != k ==> s.pt[l].frame != s.pt[k].frame
  {
    Alone(s, k);
    forall l | l in s.pt && l != k ensures s.pt[l].frame != s.pt[k].frame {
      assert l !in Refs(s.pt, s.pt[k].frame);
    }
  }

  /** A frame with count 0 has no entry. */
  lemma Unused(s: State, f: nat)
    requires Sized(s) && Covered(s) && f < |s.count| && s.count[f] == 0
    ensures Refs(s.pt, f) == {} && f !in s.kern
    ensures forall k :: k in s.pt ==> s.pt[k].frame != f
  {
    forall k | k in s.pt ensures s.pt[k].frame != f {
      assert k !in Refs(s.pt, f);
    }
  }

  lemma Held(s: State, k: Va)
    requires Sized(s) && Covered(s) && k in s.pt
    ensures s.count[s.pt[k].frame] > 0
  {
    assert k in Refs(s.pt, s.pt[k].frame);
  }

  lemma NotKernel(s: State, k: Va)
    requires Inv(s) && k in s.pt
    ensures s.pt[k].frame !in s.kern
  {
    assert k in Refs(s.pt, s.pt[k].frame);
  }

  // allocuvm's kalloc, memset or load, and mappages, for one page.

  function MapNew(s: State, k: Va, data: Page, p: bool, u: bool): (s': State)
    requires Sized(s) && s.free != [] && k !in s.pt
  {
    var f := s.free[0];
    s.(free := s.free[1..], count := s.count[f := 1], page := s.page[f := data],
       pt := s.pt[k := Pte(f, p, true, u, false)])
  }

  lemma MapNewCovered(s: State, k: Va, data: Page, p: bool, u: bool)
    requires Inv(s) && s.free != [] && k !in s.pt && (p ==> u)
    ensures Sized(MapNew(s, k, data, p, u)) && Covered(MapNew(s, k, data, p, u))
  {
    var s' := MapNew(s, k, data, p, u);
    Unused(s, s.free[0]);
    forall g | 0 <= g < |s'.count| ensures Uses(s', g) == s'.count[g] {
      RefsSet(s.pt, k, s'.pt[k], g);
      assert k !in Refs(s.pt, g);
    }
  }

  lemma MapNewEntries(s: State, k: Va, data: Page, p: bool, u: bool)
    requires Inv(s) && s.free != [] && k !in s.pt && (p ==> u)
    ensures Sized(MapNew(s, k, data, p, u))
    ensures forall m :: m in MapNew(s, k, data, p, u).pt ==> EntryOk(MapNew(s, k, data, p, u), m)
  {
    var s' := MapNew(s, k, data, p, u);
    Unused(s, s.free[0]);
    forall l | l in s'.pt ensures EntryOk(s', l) {
      if l != k {
        assert EntryOk(s, l);
      }
    }
  }

  lemma MapNewKeeps(s: State, k: Va, data: Page, p: bool, u: bool)
    requires Inv(s) && s.free != [] && k !in s.pt && (p ==> u)
    ensures Inv(MapNew(s, k, data, p, u))
  {
    MapNewCovered(s, k, data, p, u);
    MapNewEntries(s, k, data, p, u);
    hide Covered, EntryOk;
    Unused(s, s.free[0]);
  }

  // cowuvm, for one page.

  /** A private page: both entries become read-only and copy-on-write. */
  function SharePrivate(s: State, k: Va, l: Va, p: bool, u: bool): (s': State)
    requires Sized(s) && k in s.pt && l !in s.pt
  {
    var e := s.pt[k];
    s.(count := s.count[e.frame := s.count[e.frame] + 1],
       pt := s.pt[k := e.(w := false, cow := true)][l := Pte(e.frame, p, false, u, true)])
  }

  /** A shared-memory page: the child maps the same frame. */
  function ShareShm(s: State, k: Va, l: Va): (s': State)
    requires Sized(s) && k in s.pt && l !in s.pt
  {
    var e := s.pt[k];
    s.(count := s.count[e.frame := s.count[e.frame] + 1], pt := s.pt[l := e.(p := true)])
  }

  lemma SharePrivateCovered(s: State, k: Va, l: Va, p: bool, u: bool)
    requires Inv(s) && k in s.pt && l !in s.pt && !s.Shm(k) && !s.Shm(l) && (p ==> u)
    ensures Sized(SharePrivate(s, k, l, p, u)) && Covered(SharePrivate(s, k, l, p, u))
  {
    var f, s' := s.pt[k].frame, SharePrivate(s, k, l, p, u);
    var mid := s.pt[k := s.pt[k].(w := false, cow := true)];
    hide EntryOk, FreeOk, Apart;
    assert k in Refs(s.pt, f);
    forall g | 0 <= g < |s'.count| ensures Uses(s', g) == s'.count[g] {
      RefsSame(s.pt, k, mid[k], g);
      RefsSet(mid, l, s'.pt[l], g);
      assert l !in Refs(s.pt, g);
    }
  }

  lemma SharePrivateEntries(s: State, k: Va, l: Va, p: bool, u: bool)
    requires Inv(s) && k in s.pt && l !in s.pt && !s.Shm(k) && !s.Shm(l) && (p ==> u)
    ensures Sized(SharePrivate(s, k, l, p, u))
    ensures forall m :: m in SharePrivate(s, k, l, p, u).pt ==> EntryOk(SharePrivate(s, k, l, p, u), m)
  {
    var s' := SharePrivate(s, k, l, p, u);
    forall m | m in s'.pt ensures EntryOk(s', m) {
      if m != k && m != l {
        PrivateAlone(s, k, m);
      }
    }
  }

  lemma SharePrivateKeeps(s: State, k: Va, l: Va, p: bool, u: bool)
    requires Inv(s) && k in s.pt && l !in s.pt && !s.Shm(k) && !s.Shm(l) && (p ==> u)
    ensures Inv(SharePrivate(s, k, l, p, u))
  {
    SharePrivateCovered(s, k, l, p, u);
    SharePrivateEntries(s, k, l, p, u);
    hide Covered, EntryOk;
    Held(s, k);
    NotKernel(s, k);
  }

  /** Another private entry of the same frame is not writable. */
  lemma PrivateAlone(s: State, k: Va, m: Va)
    requires Inv(s) && k in s.pt && m in s.pt && m != k
    ensures EntryOk(s, m)
    ensures s.pt[m].frame == s.pt[k].frame && !s.Shm(m) ==> !s.pt[m].w
  {
    assert EntryOk(s, m);
    if s.count[s.pt[m].frame] == 1 {
      AloneForall(s, m);
    }
  }

  lemma ShareShmCovered(s: State, k: Va, l: Va)
    requires Inv(s) && k in s.pt && l !in s.pt && s.Shm(k) && s.Shm(l) && s.pt[k].u
    ensures Sized(ShareShm(s, k, l)) && Covered(ShareShm(s, k, l))
  {
    var s' := ShareShm(s, k, l);
    assert k in Refs(s.pt, s.pt[k].frame);
    forall g | 0 <= g < |s'.count| ensures Uses(s', g) == s'.count[g] {
      RefsSet(s.pt, l, s'.pt[l], g);
      assert l !in Refs(s.pt, g);
    }
  }

  lemma ShareShmEntries(s: State, k: Va, l: Va)
    requires Inv(s) && k in s.pt && l !in s.pt && s.Shm(k) && s.Shm(l) && s.pt[k].u
    ensures Sized(ShareShm(s, k, l))
    ensures forall m :: m in ShareShm(s, k, l).pt ==> EntryOk(ShareShm(s, k, l), m)
  {
    var s' := ShareShm(s, k, l);
    forall m | m in s'.pt ensures EntryOk(s', m) {
      assert EntryOk(s, if m == l then k else m);
    }
  }

  lemma ShareShmKeeps(s: State, k: Va, l: Va)
    requires Inv(s) && k in s.pt && l !in s.pt && s.Shm(k) && s.Shm(l) && s.pt[k].u
    ensures Inv(ShareShm(s, k, l))
  {
    ShareShmCovered(s, k, l);
    ShareShmEntries(s, k, l);
    hide Covered, EntryOk;
    Held(s, k);
    NotKernel(s, k);
  }

  // pagefault on a copy-on-write entry.

  /** More than one reference: copy into a new frame. */
  function CopyOut(s: State, k: Va): (s': State)
    requires Sized(s) && k in s.pt && s.free != [] && s.count[s.pt[k].frame] > 0
  {
    var f, g := s.free[0], s.pt[k].frame;
    s.(free := s.free[1..], count := s.count[f := 1][g := s.count[g] - 1], page := s.page[f := s.page[g]],
       pt := s.pt[k := Pte(f, true, true, true, false)])
  }

  /** The only reference: let it have the frame. */
  function Claim(s: State, k: Va): (s': State)
    requires k in s.pt
  {
    s.(pt := s.pt[k := s.pt[k].(w := true, cow := false)])
  }

  lemma CopyOutCovered(s: State, k: Va)
    requires Inv(s) && k in s.pt && !s.Shm(k) && s.free != [] && s.count[s.pt[k].frame] > 1
    ensures Sized(CopyOut(s, k)) && Covered(CopyOut(s, k))
  {
    var f, g, s' := s.free[0], s.pt[k].frame, CopyOut(s, k);
    Unused(s, f);
    assert k in Refs(s.pt, g) && f != g;
    forall h | 0 <= h < |s'.count| ensures Uses(s', h) == s'.count[h] {
      RefsSet(s.pt, k, s'.pt[k], h);
      if h != g && h != f {
        assert k !in Refs(s.pt, h);
      }
    }
  }

  lemma CopyOutEntries(s: State, k: Va)
    requires Inv(s) && k in s.pt && !s.Shm(k) && s.free != [] && s.count[s.pt[k].frame] > 1
    ensures Sized(CopyOut(s, k))
    ensures forall m :: m in CopyOut(s, k).pt ==> EntryOk(CopyOut(s, k), m)
  {
    var s' := CopyOut(s, k);
    Unused(s, s.free[0]);
    forall m | m in s'.pt ensures EntryOk(s', m) {
      if m != k {
        PrivateAlone(s, k, m);
      }
    }
  }

  lemma CopyOutKeeps(s: State, k: Va)
    requires Inv(s) && k in s.pt && !s.Shm(k) && s.free != [] && s.count[s.pt[k].frame] > 1
    ensures Inv(CopyOut(s, k))
  {
    CopyOutCovered(s, k);
    CopyOutEntries(s, k);
    hide Covered, EntryOk;
    Unused(s, s.free[0]);
    NotKernel(s, k);
  }

  lemma ClaimCovered(s: State, k: Va)
    requires Inv(s) && k in s.pt && !s.Shm(k) && s.count[s.pt[k].frame] == 1
    ensures Sized(Claim(s, k)) && Covered(Claim(s, k))
  {
    var s' := Claim(s, k);
    forall h | 0 <= h < |s'.count| ensures Uses(s', h) == s'.count[h] {
      RefsSame(s.pt, k, s'.pt[k], h);
    }
  }

  lemma ClaimEntries(s: State, k: Va)
    requires Inv(s) && k in s.pt && !s.Shm(k) && s.count[s.pt[k].frame] == 1
    ensures Sized(Claim(s, k))
    ensures forall m :: m in Claim(s, k).pt ==> EntryOk(Claim(s, k), m)
  {
    var s' := Claim(s, k);
    forall m | m in s'.pt ensures EntryOk(s', m) {
      assert EntryOk(s, m);
    }
  }

  lemma ClaimKeeps(s: State, k: Va)
    requires Inv(s) && k in s.pt && !s.Shm(k) && s.count[s.pt[k].frame] == 1
    ensures Inv(Claim(s, k))
  {
    ClaimCovered(s, k);
    ClaimEntries(s, k);
    hide Covered, EntryOk;
  }

  // deallocuvm, for one page.

  /** kfree fills the page to catch dangling references. */
  function Junk(): (p: Page) { seq(PGSIZE, _ => 1) }

  /** kfree if this is the last reference, declRefCount otherwise. */
  function Release(s: State, k: Va): (s': State)
    requires Sized(s) && k in s.pt && s.count[s.pt[k].frame] > 0
  {
    var f := s.pt[k].frame;
    if s.count[f] == 1 then
      s.(free := [f] + s.free, count := s.count[f := 0], page := s.page[f := Junk()], pt := s.pt - {k})
    else
      s.(count := s.count[f := s.count[f] - 1], pt := s.pt - {k})
  }

  lemma ReleaseCovered(s: State, k: Va)
    requires Inv(s) && k in s.pt && s.count[s.pt[k].frame] > 0
    ensures Sized(Release(s, k)) && Covered(Release(s, k))
  {
    var f, s' := s.pt[k].frame, Release(s, k);
    assert k in Refs(s.pt, f);
    if s.count[f] == 1 {
      Alone(s, k);
    }
    forall h | 0 <= h < |s'.count| ensures Uses(s', h) == s'.count[h] {
      RefsDrop(s.pt, k, h);
      if h != f {
        assert k !in Refs(s.pt, h);
      }
    }
  }

  lemma ReleaseEntries(s: State, k: Va)
    requires Inv(s) && k in s.pt && s.count[s.pt[k].frame] > 0
    ensures Sized(Release(s, k))
    ensures forall m :: m in Release(s, k).pt ==> EntryOk(Release(s, k), m)
  {
    var s' := Release(s, k);
    if s.count[s.pt[k].frame] == 1 {
      AloneForall(s, k);
    }
    forall m | m in s'.pt ensures EntryOk(s', m) {
      PrivateAlone(s, k, m);
    }
  }

  lemma ReleaseKeeps(s: State, k: Va)
    requires Inv(s) && k in s.pt && s.count[s.pt[k].frame] > 0
    ensures Inv(Release(s, k))
  {
    ReleaseCovered(s, k);
    ReleaseEntries(s, k);
    hide Covered, EntryOk;
    NotKernel(s, k);
  }

  /** An entry that goes with its page table while its frame stays behind:
      what freevm does with page 0, which exec marked not present. */
  function Forget(s: State, k: Va): (s': State)
    requires k in s.pt
  {
    s.(pt := s.pt - {k}, lost := s.lost + multiset{s.pt[k].frame})
  }

  lemma ForgetKeeps(s: State, k: Va)
    requires Inv(s) && k in s.pt
    ensures Inv(Forget(s, k))
  {
    var s' := Forget(s, k);
    forall h | 0 <= h < |s'.count| ensures Uses(s', h) == s'.count[h] {
      RefsDrop(s.pt, k, h);
      assert k in Refs(s.pt, h) <==> s.pt[k].frame == h;
    }
    forall m | m in s'.pt ensures EntryOk(s', m) {
      assert EntryOk(s, m);
    }
  }

  // What becomes of the frames of a range

  /** The frames that the kernel owns, and those lost, are the same. */
  ghost predicate Accounted(s: State, s': State) {
    s'.kern == s.kern && s'.lost == s.lost && |s'.count| == |s.count|
  }

  /** deallocuvm takes an entry of the range that is present, and the guard's. */
  predicate Drops(k: Va, e: Pte, space: nat, lo: nat, hi: nat, g: nat) {
    k.space == space && lo <= k.page < hi && (e.p || k.page == g)
  }

  ghost predicate EntriesDropped(pt: map<Va, Pte>, pt': map<Va, Pte>, space: nat, lo: nat, hi: nat, g: nat) {
    && (forall k :: k in pt' <==> k in pt && !Drops(k, pt[k], space, lo, hi, g))
    && (forall k :: k in pt' ==> pt'[k] == pt[k])
  }

  ghost function Going(pt: map<Va, Pte>, space: nat, lo: nat, hi: nat, g: nat, f: nat): (r: set<Va>) {
    set k | k in pt && pt[k].frame == f && Drops(k, pt[k], space, lo, hi, g)
  }

  /** Exactly the dropped entries are counted down, and a frame is free afterwards if
      it was before or nobody uses it any more. */
  ghost predicate Returned(s: State, s': State, space: nat, lo: nat, hi: nat, g: nat) {
    && EntriesDropped(s.pt, s'.pt, space, lo, hi, g) && |s'.count| == |s.count|
    && (forall f :: 0 <= f < |s.count| ==> s'.count[f] == s.count[f] - |Going(s.pt, space, lo, hi, g, f)|)
    && (forall f :: f in s'.free <==> f in s.free || (0 <= f < |s.count| && s'.count[f] == 0))
  }

  lemma FewerRefs(pt: map<Va, Pte>, pt': map<Va, Pte>, space: nat, lo: nat, hi: nat, g: nat, f: nat)
    requires EntriesDropped(pt, pt', space, lo, hi, g)
    ensures |Refs(pt, f)| == |Refs(pt', f)| + |Going(pt, space, lo, hi, g, f)|
  {
    assert Refs(pt, f) == Refs(pt', f) + Going(pt, space, lo, hi, g, f);
    assert Refs(pt', f) !! Going(pt, space, lo, hi, g, f);
  }

  lemma FramesReturned(s: State, s': State, space: nat, lo: nat, hi: nat, g: nat)
    requires Inv(s) && Inv(s') && Accounted(s, s') && EntriesDropped(s.pt, s'.pt, space, lo, hi, g)
    ensures Returned(s, s', space, lo, hi, g)
  {
    hide Apart, EntryOk, EntriesDropped, Going;
    forall f | 0 <= f < |s.count| ensures s'.count[f] == s.count[f] - |Going(s.pt, space, lo, hi, g, f)| {
      FewerRefs(s.pt, s'.pt, space, lo, hi, g, f);
      assert Uses(s, f) == s.count[f] && Uses(s', f) == s'.count[f];
    }
  }

  /** The same entries, owners and losses make the same counts and free frames. */
  lemma SameFrames(s: State, s': State)
    requires Inv(s) && Inv(s') && Accounted(s, s') && s'.pt == s.pt
    ensures s'.count == s.count && forall f :: f in s'.free <==> f in s.free
  {
    hide Apart, EntryOk;
    forall f | 0 <= f < |s.count| ensures s'.count[f] == s.count[f] {
      assert Uses(s, f) == s.count[f] && Uses(s', f) == s'.count[f];
    }
  }

  /** Mapping new pages in an empty range and dropping the range gives every frame
      back. */
  lemma GivenBack(s: State, mid: State, s': State, space: nat, lo: nat, hi: nat, g: nat)
    requires Inv(s) && Inv(s') && Accounted(s, mid) && Accounted(mid, s') && EntriesMapped(s.pt, mid.pt, space, lo, hi)
    requires EntriesDropped(mid.pt, s'.pt, space, lo, hi, g)
    ensures s'.pt == s.pt && s'.count == s.count && forall f :: f in s'.free <==> f in s.free
  {
    assert s'.pt == s.pt;
    SameFrames(s, s');
  }

  /** Present entries for the pages lo to hi, which had none. */
  ghost predicate EntriesMapped(pt: map<Va, Pte>, pt': map<Va, Pte>, space: nat, lo: nat, hi: nat) {
    && (forall k :: k in pt' <==> k in pt || (k.space == space && lo <= k.page < hi))
    && (forall k :: k in pt ==> pt'[k] == pt[k] && !(k.space == space && lo <= k.page < hi))
    && (forall k :: k in pt' && k !in pt ==> pt'[k].p)
  }

  // What becomes of the frames of an address space

  /** The reference of page 0, which is not present. */
  function NullRef(s: State, space: nat): (r: multiset<nat>) {
    if Va(space, 0) in s.pt && !s.pt[Va(space, 0)].p then multiset{s.pt[Va(space, 0)].frame} else multiset{}
  }

  ghost function RefsOf(pt: map<Va, Pte>, space: nat, f: nat): (r: set<Va>) {
    set k | k in pt && pt[k].frame == f && k.space == space
  }

  /** All entries of the space are gone and counted down, but for the one of page 0. */
  ghost predicate SpaceReturned(s: State, s': State, space: nat) {
    && s'.pt == (map k | k in s.pt && k.space != space :: s.pt[k])
    && s'.kern == s.kern && s'.lost == s.lost + NullRef(s, space) && |s'.count| == |s.count|
    && (forall f :: 0 <= f < |s.count| ==>
          s'.count[f] == s.count[f] - |RefsOf(s.pt, space, f)| + NullRef(s, space)[f])
    && (forall f :: f in s'.free <==> f in s.free || (0 <= f < |s.count| && s'.count[f] == 0))
  }

  lemma SpaceFrames(s: State, s': State, space: nat)
    requires Inv(s) && Inv(s') && |s'.count| == |s.count|
    requires s'.pt == (map k | k in s.pt && k.space != space :: s.pt[k])
    requires s'.kern == s.kern && s'.lost == s.lost + NullRef(s, space)
    ensures SpaceReturned(s, s', space)
  {
    hide Apart, EntryOk, NullRef;
    forall f | 0 <= f < |s.count|
      ensures s'.count[f] == s.count[f] - |RefsOf(s.pt, space, f)| + NullRef(s, space)[f]
      ensures s.count[f] == 0 ==> s'.count[f] == 0
    {
      assert Refs(s.pt, f) == Refs(s'.pt, f) + RefsOf(s.pt, space, f);
      assert Refs(s'.pt, f) !! RefsOf(s.pt, space, f);
      assert Uses(s, f) == s.count[f] && Uses(s', f) == s'.count[f];
      NullCounted(s, space, f);
    }
  }

  lemma NullCounted(s: State, space: nat, f: nat)
    ensures NullRef(s, space)[f] <= |RefsOf(s.pt, space, f)|
  {
    if NullRef(s, space)[f] > 0 {
      assert Va(space, 0) in RefsOf(s.pt, space, f);
    }
  }

  // A user store, and the bits that do not matter to sharing.

  function StoreByte(s: State, k: Va, off: nat, val: int): (s': State)
    requires Sized(s) && k in s.pt && off < PGSIZE
  {
    var f := s.pt[k].frame;
    s.(page := s.page[f := s.page[f][off := val]])
  }

  lemma StoreKeeps(s: State, k: Va, off: nat, val: int)
    requires Inv(s) && k in s.pt && off < PGSIZE
    ensures Inv(StoreByte(s, k, off, val))
  {
    var s' := StoreByte(s, k, off, val);
    forall m | m in s'.pt ensures EntryOk(s', m) {
      assert EntryOk(s, m);
    }
  }

  /** clearptep, clearpteu and markpteup. */
  function SetBits(s: State, k: Va, p: bool, u: bool): (s': State)
    requires k in s.pt
  {
    s.(pt := s.pt[k := s.pt[k].(p := p, u := u)])
  }

  lemma SetBitsCovered(s: State, k: Va, p: bool, u: bool)
    requires Inv(s) && k in s.pt && (p ==> u)
    ensures Sized(SetBits(s, k, p, u)) && Covered(SetBits(s, k, p, u))
  {
    var s' := SetBits(s, k, p, u);
    forall h | 0 <= h < |s'.count| ensures Uses(s', h) == s'.count[h] {
      RefsSame(s.pt, k, s'.pt[k], h);
    }
  }

  lemma SetBitsEntries(s: State, k: Va, p: bool, u: bool)
    requires Inv(s) && k in s.pt && (p ==> u)
    ensures Sized(SetBits(s, k, p, u))
    ensures forall m :: m in SetBits(s, k, p, u).pt ==> EntryOk(SetBits(s, k, p, u), m)
  {
    var s' := SetBits(s, k, p, u);
    forall m | m in s'.pt ensures EntryOk(s', m) {
      assert EntryOk(s, m);
    }
  }

  lemma SetBitsKeeps(s: State, k: Va, p: bool, u: bool)
    requires Inv(s) && k in s.pt && (p ==> u)
    ensures Inv(SetBits(s, k, p, u))
  {
    SetBitsCovered(s, k, p, u);
    SetBitsEntries(s, k, p, u);
    hide Covered, EntryOk;
  }

  // kalloc and kfree by the kernel itself.

  function KernelTake(s: State): (s': State)
    requires Sized(s) && s.free != []
  {
    var f := s.free[0];
    s.(free := s.free[1..], count := s.count[f := 1], kern := s.kern + {f})
  }

  function KernelGive(s: State, f: nat): (s': State)
    requires Sized(s) && f in s.kern
  {
    s.(free := [f] + s.free, count := s.count[f := 0], page := s.page[f := Junk()], kern := s.kern - {f})
  }

  lemma KernelTakeKeeps(s: State)
    requires Inv(s) && s.free != []
    ensures Inv(KernelTake(s))
  {
    var s' := KernelTake(s);
    Unused(s, s.free[0]);
    forall m | m in s'.pt ensures EntryOk(s', m) {
      assert EntryOk(s, m);
    }
  }

  /** The assertion of kfree holds, and the frame is free to be used again. */
  lemma KernelGiveKeeps(s: State, f: nat)
    requires Inv(s) && f in s.kern
    ensures s.count[f] == 1 && Inv(KernelGive(s, f))
  {
    var s' := KernelGive(s, f);
    assert Refs(s.pt, f) == {};
    forall m | m in s'.pt ensures EntryOk(s', m) {
      assert EntryOk(s, m) && m !in Refs(s.pt, f);
    }
  }

  // A new address space, with nothing mapped yet.

  function OpenSpace(s: State, space: nat, lo: nat, hi: nat): (s': State) {
    s.(area := s.area[space := (lo, hi)])
  }

  lemma OpenSpaceKeeps(s: State, space: nat, lo: nat, hi: nat)
    requires Inv(s) && forall k :: k in s.pt ==> k.space != space
    ensures Inv(OpenSpace(s, space, lo, hi))
    ensures forall k :: k in s.pt ==> OpenSpace(s, space, lo, hi).Shm(k) == s.Shm(k)
  {
    var s' := OpenSpace(s, space, lo, hi);
    forall m | m in s'.pt ensures EntryOk(s', m) {
      assert EntryOk(s, m);
    }
  }
}
