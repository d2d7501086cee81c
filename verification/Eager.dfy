/** Eager copying as a reference of its own: fork copies every page a process can
    reach, as copyuvm does, and a store below the stack grows it. Nothing here
    knows of frames, counts or copy-on-write. The theorems say on which runs vm.c
    gives every process what this reference gives it, and exactly where it fails. */
module Eager {
  import opened Frames
  import opened Cow
  import opened Vm
  import opened Kalloc
  import opened Wrappers

  /** The pages that processes can reach, and each layout with its own guard, which
      is never reached. */
  datatype Eager = Eager(mem: Memory, lay: map<nat, Layout>)

  // What the calls do when fork copies

  ghost predicate CopiesAll(a: Memory, a': Memory, parent: nat, child: nat) {
    && a'.store == a.store
    && (forall k :: k in a'.mem <==> k in a.mem || (k.space == child && Va(parent, k.page) in a.mem))
    && (forall k :: k in a.mem && k.space != child ==> a'.mem[k] == a.mem[k])
    && (forall v: nat :: Va(parent, v) in a.mem ==> a'.mem[Va(child, v)] == a.mem[Va(parent, v)])
  }

  /** Pages lo to hi of the stack become zero pages. */
  ghost predicate StackAdded(a: Memory, a': Memory, space: nat, lo: nat, hi: nat) {
    && a'.store == a.store
    && (forall k :: k in a'.mem <==> k in a.mem || (k.space == space && lo <= k.page <= hi))
    && (forall k :: k in a.mem ==> a'.mem[k] == a.mem[k])
    && (forall v: nat :: lo <= v <= hi && Va(space, v) !in a.mem ==> a'.mem[Va(space, v)] == Own(Zero(), true))
  }

  ghost predicate MadeEagerly(a: Memory, a': Memory, space: nat, data: seq<Page>) {
    var n, top := |data| + 1, ExecLayout(|data| + 1).top;
    && a'.store == a.store
    && (forall k :: k in a'.mem <==> k in a.mem || (k.space == space && (0 < k.page < n || k.page == top - 1)))
    && (forall k :: k in a.mem && k.space != space ==> a'.mem[k] == a.mem[k])
    && (forall v: nat :: 0 < v < n ==> Va(space, v) in a'.mem && a'.mem[Va(space, v)] == Own(data[v - 1], true))
    && Va(space, top - 1) in a'.mem && a'.mem[Va(space, top - 1)] == Own(Zero(), true)
  }

  ghost predicate Cleared(a: Memory, a': Memory, space: nat, lo: nat, hi: nat) {
    && a'.store == a.store
    && (forall k :: k in a'.mem <==> k in a.mem && !(k.space == space && lo <= k.page < hi))
    && (forall k :: k in a'.mem ==> a'.mem[k] == a.mem[k])
  }

  ghost predicate EagerStores(e: Eager, e': Eager, k: Va, off: nat, val: int, ok: bool) {
    && k.space in e.lay
    && var l := e.lay[k.space];
       if k in e.mem.mem then ok && e'.lay == e.lay && Stored(e.mem, e'.mem, k, off, val)
       else if l.last < k.page <= l.guard then
         && ok && e'.lay == e.lay[k.space := l.(guard := k.page - 1)]
         && exists mid: Memory :: StackAdded(e.mem, mid, k.space, k.page, l.guard) && Stored(mid, e'.mem, k, off, val)
       else !ok && e' == e
  }

  ghost predicate EagerShms(e: Eager, e': Eager, space: nat, n: int, r: int)
    requires space in e.lay
  {
    var l := e.lay[space];
    if n == 0 then r == l.shmbreak && e' == e
    else if n < 0 then
      && r == l.shmbreak && e'.lay == e.lay[space := l.(shmbreak := l.top * PGSIZE, shmnext := l.top)]
      && Cleared(e.mem, e'.mem, space, l.top, l.shmtop)
    else if l.shmbreak + n >= l.shmtop * PGSIZE then r == -1 && e' == e
    else
      && r == l.shmbreak
      && e'.lay == e.lay[space := l.(shmbreak := l.shmbreak + n, shmnext := RoundUp(l.shmbreak + n))]
      && Added(e.mem, e'.mem, space, l.shmnext, RoundUp(l.shmbreak + n))
  }

  ghost predicate EagerHeaps(e: Eager, e': Eager, space: nat, n: int, ok: bool)
    requires space in e.lay
  {
    var l := e.lay[space];
    if ok then
      && l.brk + n >= 0 && e'.lay == e.lay[space := l.(sz := RoundUp(l.brk + n), brk := l.brk + n)]
      && if n >= 0 then AddedPrivate(e.mem, e'.mem, space, l.sz, RoundUp(l.brk + n))
         else Cleared(e.mem, e'.mem, space, RoundUp(l.brk + n), l.sz)
    else n > 0 && e' == e
  }

  ghost predicate EagerTakes(e: Eager, step: Step, e': Eager) {
    match step
    case Makes(space, data) =>
      space !in e.lay && MadeEagerly(e.mem, e'.mem, space, data) && e'.lay == e.lay[space := ExecLayout(|data| + 1)]
    case Ends(space) => space in e.lay && Vanished(e.mem, e'.mem, space) && e'.lay == e.lay - {space}
    case Forks(parent, child) =>
      && parent in e.lay && child !in e.lay && e'.lay == e.lay[child := e.lay[parent]]
      && CopiesAll(e.mem, e'.mem, parent, child)
    case Stores(space, addr, val, ok) => EagerStores(e, e', Va(space, addr / PGSIZE), addr % PGSIZE, val, ok)
    case Shms(space, n, r) => space in e.lay && EagerShms(e, e', space, n, r)
    case Heaps(space, n, ok) => space in e.lay && EagerHeaps(e, e', space, n, ok)
  }

  // What vm.c shows, as eager copying would have it

  ghost function Reach(a: Memory): (r: Memory) {
    Memory(map k | k in a.mem && a.mem[k].seen :: a.mem[k], a.store)
  }

  predicate GuardSeen(v: View, x: nat)
    requires x in v.lay
  {
    Seen(v.mem, Va(x, v.lay[x].guard))
  }

  /** A guard page that has become reachable is a page of the stack. */
  function OwnGuard(v: View, x: nat): (l: Layout)
    requires x in v.lay
  {
    if GuardSeen(v, x) && v.lay[x].guard > 0 then v.lay[x].(guard := v.lay[x].guard - 1) else v.lay[x]
  }

  ghost function Shown(v: View): (e: Eager) {
    Eager(Reach(v.mem), map x | x in v.lay :: OwnGuard(v, x))
  }

  /** The guard page of x, while it is out of reach, is still zero. */
  ghost predicate HiddenIn(v: View, x: nat)
    requires x in v.lay
  {
    var g := Va(x, v.lay[x].guard);
    GuardSeen(v, x) || (g in v.mem.mem && v.mem.mem[g] == Own(Zero(), false))
  }

  ghost predicate Hidden(v: View) { forall x :: x in v.lay ==> HiddenIn(v, x) }

  /** Every load is the same through either. */
  lemma ShownLoads(v: View, k: Va)
    ensures ViewLoad(Shown(v).mem, k) == ViewLoad(v.mem, k)
  {
  }

  // Step by step

  /** The condition under which a step is what eager copying does. Both cases ask
      something the caller can see: a fork must not find the guard page reachable,
      and a store must not get through on a guard page at the end of the reserve. */
  predicate Fair(v: View, step: Step) {
    match step
    case Forks(parent, child) => parent in v.lay ==> !GuardSeen(v, parent)
    case Stores(space, addr, val, ok) => !(ok && LastGuard(v, Va(space, addr / PGSIZE)))
    case _ => true
  }

  /** k is a guard page out of reach with no room left below it. */
  predicate LastGuard(v: View, k: Va) {
    k.space in v.lay && !Seen(v.mem, k) && k.page == v.lay[k.space].guard == v.lay[k.space].last
  }

  /** The guard of x is where it was, and as it was. */
  ghost predicate Still(v: View, v': View, x: nat) {
    && x in v.lay && x in v'.lay && v'.lay[x].guard == v.lay[x].guard
    && var g := Va(x, v.lay[x].guard);
       (g in v'.mem.mem <==> g in v.mem.mem) && (g in v.mem.mem ==> v'.mem.mem[g] == v.mem.mem[g])
  }

  lemma StillHidden(v: View, v': View, x: nat)
    requires Still(v, v', x)
    ensures GuardSeen(v', x) == GuardSeen(v, x)
    ensures HiddenIn(v, x) ==> HiddenIn(v', x)
    ensures v'.lay[x] == v.lay[x] ==> OwnGuard(v', x) == OwnGuard(v, x)
  {
  }

  /** All spaces but one are as they were. */
  lemma OthersStill(v: View, v': View, space: nat)
    requires forall x :: x in v.lay && x != space ==> Still(v, v', x)
    requires v'.lay.Keys == v.lay.Keys + {space} && forall x :: x in v.lay && x != space ==> v'.lay[x] == v.lay[x]
    requires Hidden(v) && HiddenIn(v', space)
    ensures Hidden(v') && Shown(v').lay == Shown(v).lay[space := OwnGuard(v', space)]
  {
    hide HiddenIn, OwnGuard;
    forall x | x in v'.lay && x != space ensures HiddenIn(v', x) && OwnGuard(v', x) == OwnGuard(v, x) {
      StillHidden(v, v', x);
    }
  }

  // exec

  lemma CreatedReach(a: Memory, a': Memory, space: nat, data: seq<Page>)
    requires Created(a, a', space, data) && forall k :: k in a.mem ==> k.space != space
    ensures MadeEagerly(Reach(a), Reach(a'), space, data)
  {
  }

  lemma MakesAgree(v: View, space: nat, data: seq<Page>, v': View)
    requires Takes(v, Makes(space, data), v') && Hidden(v)
    ensures EagerTakes(Shown(v), Makes(space, data), Shown(v')) && Hidden(v')
  {
    hide SpaceOk, MadeEagerly, Reach, OwnGuard, Shown, Hidden;
    CreatedReach(v.mem, v'.mem, space, data);
    MadeOthers(v, space, data, v');
    OthersStill(v, v', space);
    ShownParts(v);
    ShownParts(v');
  }

  lemma ShownParts(v: View)
    ensures Shown(v).mem == Reach(v.mem) && Shown(v).lay.Keys == v.lay.Keys
    ensures forall x :: x in v.lay ==> Shown(v).lay[x] == OwnGuard(v, x)
  {
  }

  lemma MadeOthers(v: View, space: nat, data: seq<Page>, v': View)
    requires Takes(v, Makes(space, data), v')
    ensures forall x :: x in v.lay && x != space ==> Still(v, v', x)
    ensures HiddenIn(v', space) && OwnGuard(v', space) == ExecLayout(|data| + 1)
  {
    hide SpaceOk;
    assert v'.lay[space] == ExecLayout(|data| + 1);
  }

  // exit

  lemma VanishedReach(a: Memory, a': Memory, space: nat)
    requires Vanished(a, a', space)
    ensures Vanished(Reach(a), Reach(a'), space)
  {
  }

  lemma EndsAgree(v: View, space: nat, v': View)
    requires Takes(v, Ends(space), v') && Hidden(v)
    ensures EagerTakes(Shown(v), Ends(space), Shown(v')) && Hidden(v')
  {
    hide SpaceOk, Reach, OwnGuard, HiddenIn;
    VanishedReach(v.mem, v'.mem, space);
    forall x | x in v'.lay ensures HiddenIn(v', x) && OwnGuard(v', x) == OwnGuard(v, x) {
      assert Still(v, v', x);
      StillHidden(v, v', x);
    }
    assert Shown(v').lay == Shown(v).lay - {space};
  }

  // fork

  lemma ForkedReach(a: Memory, a': Memory, parent: nat, child: nat, l: Layout)
    requires Forked(a, a', parent, child, l, l.sz) && SpaceOk(a, parent, l) && parent != child
    requires !Seen(a, Va(parent, l.guard)) && forall k :: k in a.mem ==> k.space != child
    ensures CopiesAll(Reach(a), Reach(a'), parent, child)
  {
    forall v: nat | Va(parent, v) in Reach(a).mem
      ensures Va(child, v) in Reach(a').mem && Reach(a').mem[Va(child, v)] == Reach(a).mem[Va(parent, v)]
    {
      assert v != 0 && v != l.guard && Mapped(l, v);
    }
    forall k | k in Reach(a').mem && k !in Reach(a).mem ensures k.space == child && Va(parent, k.page) in Reach(a).mem {
      assert Va(parent, k.page) in a.mem;
    }
  }

  lemma ChildLoads(v: View, parent: nat, child: nat, v': View, p: nat)
    requires Takes(v, Forks(parent, child), v')
    ensures p != v.lay[parent].guard || !GuardSeen(v, parent) ==>
              ViewLoad(v'.mem, Va(child, p)) == ViewLoad(v.mem, Va(parent, p))
    ensures ViewLoad(v'.mem, Va(child, v.lay[parent].guard)) == None
    ensures GuardSeen(v, parent) ==> ViewLoad(v.mem, Va(parent, v.lay[parent].guard)).Some?
  {
    hide SpaceOk, Forked;
    ForkKnown(v, parent, child, v');
    ChildPage(v.mem, v'.mem, parent, child, v.lay[parent], p);
    ChildPage(v.mem, v'.mem, parent, child, v.lay[parent], v.lay[parent].guard);
  }

  lemma ChildPage(a: Memory, a': Memory, parent: nat, child: nat, l: Layout, p: nat)
    requires Forked(a, a', parent, child, l, l.sz) && SpaceOk(a, parent, l)
    requires forall k :: k in a.mem ==> k.space != child
    ensures p != l.guard || !Seen(a, Va(parent, p)) ==> ViewLoad(a', Va(child, p)) == ViewLoad(a, Va(parent, p))
    ensures p == l.guard ==> ViewLoad(a', Va(child, p)) == None
  {
    assert Va(child, p) !in a.mem;
  }

  /** The child reads at every page what the parent reads just when the parent's
      guard page was out of reach. */
  lemma ForkReadsIff(v: View, parent: nat, child: nat, v': View)
    requires Takes(v, Forks(parent, child), v')
    ensures (forall p: nat :: ViewLoad(v'.mem, Va(child, p)) == ViewLoad(v.mem, Va(parent, p)))
            <==> !GuardSeen(v, parent)
  {
    hide Takes, GuardSeen;
    ForkKnown(v, parent, child, v');
    var g := v.lay[parent].guard;
    ChildLoads(v, parent, child, v', g);
    if !GuardSeen(v, parent) {
      forall p: nat ensures ViewLoad(v'.mem, Va(child, p)) == ViewLoad(v.mem, Va(parent, p)) {
        ChildLoads(v, parent, child, v', p);
      }
    }
  }

  lemma ForkKnown(v: View, parent: nat, child: nat, v': View)
    requires Takes(v, Forks(parent, child), v')
    ensures parent in v.lay && child !in v.lay && parent != child && SpaceOk(v.mem, parent, v.lay[parent])
    ensures v'.lay == v.lay[child := v.lay[parent]] && forall k :: k in v.mem.mem ==> k.space != child
    ensures Forked(v.mem, v'.mem, parent, child, v.lay[parent], v.lay[parent].sz)
  {
  }

  lemma ForkOthers(v: View, parent: nat, child: nat, v': View)
    requires Takes(v, Forks(parent, child), v') && Hidden(v) && !GuardSeen(v, parent)
    ensures forall x :: x in v.lay && x != child ==> Still(v, v', x)
    ensures HiddenIn(v', child) && OwnGuard(v', child) == v.lay[parent] == OwnGuard(v, parent)
  {
    hide SpaceOk;
    assert HiddenIn(v, parent);
    ChildLoads(v, parent, child, v', v.lay[parent].guard);
    GuardMapped(v, parent);
  }

  lemma GuardMapped(v: View, x: nat)
    requires Tidy(v) && x in v.lay
    ensures var l := v.lay[x]; Mapped(l, l.guard) && 1 <= l.last <= l.guard < l.top <= l.shmnext <= l.shmtop <= l.sz
  {
    assert SpaceOk(v.mem, x, v.lay[x]);
  }

  lemma ForksAgree(v: View, parent: nat, child: nat, v': View)
    requires Takes(v, Forks(parent, child), v') && Hidden(v) && !GuardSeen(v, parent)
    ensures EagerTakes(Shown(v), Forks(parent, child), Shown(v')) && Hidden(v')
  {
    hide Takes, Hidden, HiddenIn, GuardSeen, SpaceOk, CopiesAll, Forked, Reach, Shown, OwnGuard, Still;
    ForkKnown(v, parent, child, v');
    NotSeen(v, parent);
    ForkedReach(v.mem, v'.mem, parent, child, v.lay[parent]);
    ForkOthers(v, parent, child, v');
    OthersStill(v, v', child);
    ShownParts(v);
    ShownParts(v');
  }

  lemma NotSeen(v: View, x: nat)
    requires x in v.lay && !GuardSeen(v, x)
    ensures !Seen(v.mem, Va(x, v.lay[x].guard))
  {
  }

  /** With the guard page reachable, no eager copy of the parent is what the child
      gets: reading that page gives the parent's data there and kills it here. */
  lemma ForkDiffers(v: View, parent: nat, child: nat, v': View, e: Eager)
    requires Takes(v, Forks(parent, child), v') && GuardSeen(v, parent)
    requires EagerTakes(Shown(v), Forks(parent, child), e)
    ensures var g := Va(child, v.lay[parent].guard);
            ViewLoad(e.mem, g) == ViewLoad(v.mem, Va(parent, g.page)) && ViewLoad(e.mem, g).Some?
            && ViewLoad(v'.mem, g) == None
  {
    hide SpaceOk;
    ChildLoads(v, parent, child, v', v.lay[parent].guard);
  }

  // A user store

  lemma StoredReach(a: Memory, a': Memory, k: Va, off: nat, val: int)
    requires Seen(a, k) && Stored(a, a', k, off, val)
    ensures Stored(Reach(a), Reach(a'), k, off, val)
  {
  }

  /** The store itself changes no guard that is out of reach, and no layout. */
  lemma StoredStill(v: View, a: Memory, k: Va, off: nat, val: int)
    requires Seen(v.mem, k) && Stored(v.mem, a, k, off, val) && Hidden(v)
    ensures Hidden(View(a, v.lay)) && Shown(View(a, v.lay)).lay == Shown(v).lay
  {
    var v' := View(a, v.lay);
    forall x | x in v.lay ensures HiddenIn(v', x) && OwnGuard(v', x) == OwnGuard(v, x) {
      assert HiddenIn(v, x);
    }
  }

  /** A guard page that becomes reachable where it is: the stack grown by one page. */
  lemma PeekReach(v: View, k: Va)
    requires Hidden(v) && k.space in v.lay && k.page == v.lay[k.space].guard && !Seen(v.mem, k) && k in v.mem.mem
    ensures StackAdded(Reach(v.mem), Reach(ViewSee(v.mem, k, true)), k.space, k.page, k.page)
  {
    assert HiddenIn(v, k.space);
  }

  lemma PeekOthers(v: View, k: Va, v': View)
    requires Hidden(v) && k.space in v.lay && k.page == v.lay[k.space].guard > 0 && k in v.mem.mem
    requires v' == View(ViewSee(v.mem, k, true), v.lay)
    ensures forall x :: x in v.lay && x != k.space ==> Still(v, v', x)
    ensures HiddenIn(v', k.space) && OwnGuard(v', k.space) == v.lay[k.space].(guard := k.page - 1)
  {
  }

  lemma GrownReach(v: View, mid: Memory, k: Va)
    requires Hidden(v) && k.space in v.lay && !Seen(v.mem, k)
    requires 0 < k.page <= v.lay[k.space].guard && Grown(v.mem, mid, k.space, v.lay[k.space].guard, k.page - 1)
    ensures StackAdded(Reach(v.mem), Reach(mid), k.space, k.page, OwnGuard(v, k.space).guard)
  {
    assert HiddenIn(v, k.space);
    var g := Va(k.space, v.lay[k.space].guard);
    assert k == Va(k.space, k.page);
    forall m | m in Reach(mid).mem && m !in Reach(v.mem).mem
      ensures m.space == k.space && k.page <= m.page <= OwnGuard(v, k.space).guard
    {
      assert m == Va(m.space, m.page);
    }
  }

  lemma GrownOthers(v: View, mid: Memory, k: Va, v': View)
    requires Hidden(v) && k.space in v.lay && 0 < k.page <= v.lay[k.space].guard
    requires Grown(v.mem, mid, k.space, v.lay[k.space].guard, k.page - 1)
    requires v' == View(mid, v.lay[k.space := v.lay[k.space].(guard := k.page - 1)])
    ensures forall x :: x in v.lay && x != k.space ==> Still(v, v', x)
    ensures HiddenIn(v', k.space) && OwnGuard(v', k.space) == v.lay[k.space].(guard := k.page - 1)
  {
    assert Va(k.space, k.page - 1) in mid.mem;
    forall x | x in v.lay && x != k.space ensures Still(v, v', x) {
      assert Va(x, v.lay[x].guard).space != k.space;
    }
  }

  /** What the reference does once the stack has been grown to page k. */
  lemma GrowAgrees(v: View, mid: View, v': View, k: Va, off: nat, val: int)
    requires Hidden(v) && k.space in v.lay && !Seen(v.mem, k) && mid.lay == v'.lay
    requires OwnGuard(v, k.space).last < k.page <= OwnGuard(v, k.space).guard
    requires StackAdded(Reach(v.mem), Reach(mid.mem), k.space, k.page, OwnGuard(v, k.space).guard)
    requires mid.lay.Keys == v.lay.Keys && forall x :: x in v.lay && x != k.space ==> mid.lay[x] == v.lay[x]
    requires forall x :: x in v.lay && x != k.space ==> Still(v, mid, x)
    requires HiddenIn(mid, k.space) && OwnGuard(mid, k.space) == OwnGuard(v, k.space).(guard := k.page - 1)
    requires Seen(mid.mem, k) && Stored(mid.mem, v'.mem, k, off, val)
    ensures EagerStores(Shown(v), Shown(v'), k, off, val, true) && Hidden(v')
  {
    hide Still, HiddenIn, OwnGuard, StackAdded, Stored, Hidden;
    OthersStill(v, mid, k.space);
    StoredReach(mid.mem, v'.mem, k, off, val);
    StoredStill(mid, v'.mem, k, off, val);
    assert v' == View(v'.mem, mid.lay);
  }

  lemma SeenAgrees(v: View, v': View, k: Va, off: nat, val: int)
    requires Hidden(v) && k.space in v.lay && Seen(v.mem, k) && Stored(v.mem, v'.mem, k, off, val) && v'.lay == v.lay
    ensures EagerStores(Shown(v), Shown(v'), k, off, val, true) && Hidden(v')
  {
    hide HiddenIn, OwnGuard, Stored, Hidden;
    StoredReach(v.mem, v'.mem, k, off, val);
    StoredStill(v, v'.mem, k, off, val);
    assert v' == View(v'.mem, v.lay);
  }

  lemma PeekAgrees(v: View, v': View, k: Va, off: nat, val: int)
    requires Tidy(v) && Hidden(v) && k.space in v.lay && !Seen(v.mem, k) && k in v.mem.mem
    requires v.lay[k.space].last < k.page == v.lay[k.space].guard && v'.lay == v.lay
    requires Stored(ViewSee(v.mem, k, true), v'.mem, k, off, val)
    ensures EagerStores(Shown(v), Shown(v'), k, off, val, true) && Hidden(v')
  {
    hide Tidy, Still, HiddenIn, StackAdded, Stored, Hidden;
    var mid := View(ViewSee(v.mem, k, true), v.lay);
    assert k == Va(k.space, v.lay[k.space].guard);
    PeekReach(v, k);
    PeekOthers(v, k, mid);
    GrowAgrees(v, mid, v', k, off, val);
  }

  lemma StackAgrees(v: View, mid: Memory, v': View, k: Va, off: nat, val: int)
    requires Hidden(v) && k.space in v.lay && !Seen(v.mem, k)
    requires v.lay[k.space].last < k.page <= v.lay[k.space].guard
    requires v'.lay == v.lay[k.space := v.lay[k.space].(guard := k.page - 1)]
    requires Grown(v.mem, mid, k.space, v.lay[k.space].guard, k.page - 1) && Stored(mid, v'.mem, k, off, val)
    ensures EagerStores(Shown(v), Shown(v'), k, off, val, true) && Hidden(v')
  {
    hide Still, HiddenIn, StackAdded, Stored, Hidden;
    var m := View(mid, v'.lay);
    GrownReach(v, mid, k);
    GrownOthers(v, mid, k, m);
    assert k == Va(k.space, k.page) && Seen(mid, k);
    assert GuardSeen(v, k.space) ==> k.page != v.lay[k.space].guard;
    GrowAgrees(v, m, v', k, off, val);
  }

  lemma KilledAgrees(v: View, k: Va, off: nat, val: int)
    requires k.space in v.lay && !Seen(v.mem, k) && !(v.lay[k.space].last < k.page <= v.lay[k.space].guard)
    ensures EagerStores(Shown(v), Shown(v), k, off, val, false)
  {
  }

  lemma StoresAgree(v: View, space: nat, addr: nat, val: int, ok: bool, v': View)
    requires Takes(v, Stores(space, addr, val, ok), v') && Hidden(v) && Fair(v, Stores(space, addr, val, ok))
    ensures EagerTakes(Shown(v), Stores(space, addr, val, ok), Shown(v')) && Hidden(v')
  {
    hide Tidy, Still, HiddenIn, StackAdded, Stored, Hidden, Shown, Grown, EagerStores;
    var k, off := Va(space, addr / PGSIZE), addr % PGSIZE;
    if ok {
      var mid: Memory :| MayReach(v, k, mid, v'.lay) && Stored(mid, v'.mem, k, off, val);
      if Seen(v.mem, k) {
        SeenAgrees(v, v', k, off, val);
      } else if k.page == v.lay[space].guard && k in v.mem.mem && mid == ViewSee(v.mem, k, true) && v'.lay == v.lay {
        GuardMapped(v, space);
        PeekAgrees(v, v', k, off, val);
      } else {
        StackAgrees(v, mid, v', k, off, val);
      }
    } else {
      KilledAgrees(v, k, off, val);
    }
  }

  /** A store is what eager copying does unless it gets through on a guard page at
      the end of the reserve, where eager copying kills the process. */
  lemma StoreAgreesIff(v: View, space: nat, addr: nat, val: int, ok: bool, v': View)
    requires Takes(v, Stores(space, addr, val, ok), v') && Hidden(v)
    ensures (exists e :: EagerTakes(Shown(v), Stores(space, addr, val, ok), e))
            <==> !(ok && LastGuard(v, Va(space, addr / PGSIZE)))
  {
    var step, k := Stores(space, addr, val, ok), Va(space, addr / PGSIZE);
    if ok && LastGuard(v, k) {
      LastKilled(v, k);
    } else {
      StoresAgree(v, space, addr, val, ok, v');
    }
  }

  /** The same before the store: it will not be one of eager copying just when it is
      to the last guard page, out of reach, while that page is shared copy-on-write. */
  lemma StoreAgreesBefore(s: State, v: View, space: nat, addr: nat, val: int, ok: bool, v': View)
    requires Takes(v, Stores(space, addr, val, ok), v') && Hidden(v) && space in v.lay
    requires ok <==> Succeeds(s, v.mem, v.lay[space], Va(space, addr / PGSIZE))
    ensures (exists e :: EagerTakes(Shown(v), Stores(space, addr, val, ok), e))
            <==> !(LastGuard(v, Va(space, addr / PGSIZE)) && CowShared(s, Va(space, addr / PGSIZE)))
    ensures Fair(v, Stores(space, addr, val, ok))
            <==> !(LastGuard(v, Va(space, addr / PGSIZE)) && CowShared(s, Va(space, addr / PGSIZE)))
  {
    hide Takes, EagerTakes, Hidden, CowShared;
    StoreAgreesIff(v, space, addr, val, ok, v');
  }

  /** On the machine. */
  method StoreOn(m: Machine, space: nat, addr: nat, val: int) returns (ok: bool)
    requires m.Valid() && space in m.lay && |m.st.free| > m.lay[space].guard - m.lay[space].last && Hidden(m.Now())
    modifies m, m.kmem, m.kmem.next, m.kmem.count
    ensures m.Valid() && Takes(old(m.Now()), Stores(space, addr, val, ok), m.Now())
    ensures (exists e :: EagerTakes(Shown(old(m.Now())), Stores(space, addr, val, ok), e))
            <==> !(old(LastGuard(m.Now(), Va(space, addr / PGSIZE))) && old(CowShared(m.st, Va(space, addr / PGSIZE))))
  {
    hide Takes, EagerTakes, Hidden, CowShared, LastGuard, Succeeds, Laid, Sound, Threaded;
    ghost var s, v := m.st, m.Now();
    var faults;
    ghost var mid;
    ok, faults, mid := m.UserStore(space, addr, val);
    StoreAgreesBefore(s, v, space, addr, val, ok, m.Now());
  }

  lemma LastKilled(v: View, k: Va)
    requires LastGuard(v, k)
    ensures forall e, off, val, ok :: EagerStores(Shown(v), e, k, off, val, ok) ==> !ok
  {
  }

  // shmbrk and sbrk

  lemma DroppedReach(a: Memory, a': Memory, space: nat, lo: nat, hi: nat, g: nat)
    requires Dropped(a, a', space, lo, hi, g)
    ensures Cleared(Reach(a), Reach(a'), space, lo, hi)
  {
  }

  lemma AddedReach(a: Memory, a': Memory, space: nat, lo: nat, hi: nat)
    requires Added(a, a', space, lo, hi) && forall k :: k in a.mem && a.mem[k].Shared? ==> a.mem[k].id in a.store
    ensures Added(Reach(a), Reach(a'), space, lo, hi)
  {
    var r, r' := Reach(a), Reach(a');
    forall k | k in r.mem ensures Kept(r, r', k) {
      assert Kept(a, a', k);
    }
    forall v: nat | lo <= v < hi ensures ViewLoad(r', Va(space, v)) == Some(Zero()) {
      assert ViewLoad(a', Va(space, v)) == Some(Zero());
    }
    forall k | k in r'.mem ensures k in r.mem || (k.space == space && lo <= k.page < hi) {
      if k in a.mem {
        assert Kept(a, a', k);
      }
    }
    forall k: Va | k.space == space && lo <= k.page < hi ensures k in r'.mem {
      assert ViewLoad(a', Va(space, k.page)) == Some(Zero());
    }
  }

  lemma PrivateReach(a: Memory, a': Memory, space: nat, lo: nat, hi: nat)
    requires AddedPrivate(a, a', space, lo, hi) && forall v: nat :: lo <= v ==> Va(space, v) !in a.mem
    ensures AddedPrivate(Reach(a), Reach(a'), space, lo, hi)
  {
    forall k: Va | k.space == space && lo <= k.page < hi ensures k in Reach(a').mem {
      assert k == Va(space, k.page);
    }
  }

  ghost predicate GuardKept(v: View, v': View, x: nat)
    requires x in v.lay
  {
    var g := Va(x, v.lay[x].guard);
    g in v'.mem.mem && g in v.mem.mem && v'.mem.mem[g] == v.mem.mem[g]
  }

  /** One space has a new layout with the guard where it was, and no guard changed. */
  ghost predicate Relaid(v: View, v': View, space: nat) {
    && space in v.lay && space in v'.lay && v'.lay == v.lay[space := v'.lay[space]]
    && v'.lay[space].guard == v.lay[space].guard
    && forall x :: x in v.lay ==> GuardKept(v, v', x)
  }

  lemma RelaidShown(v: View, v': View, space: nat)
    requires Relaid(v, v', space) && Hidden(v)
    ensures Hidden(v') && Shown(v').lay == Shown(v).lay[space := OwnGuard(v', space)]
    ensures GuardSeen(v', space) == GuardSeen(v, space)
  {
    hide HiddenIn, OwnGuard;
    forall x | x in v.lay ensures Still(v, v', x) {
      assert GuardKept(v, v', x);
    }
    StillHidden(v, v', space);
    OthersStill(v, v', space);
  }

  lemma KeptBy(v: View, v': View, space: nat, lo: nat, hi: nat, x: nat)
    requires Tidy(v) && x in v.lay
    requires || Added(v.mem, v'.mem, space, lo, hi) || AddedPrivate(v.mem, v'.mem, space, lo, hi)
             || (space in v.lay && v.lay[space].top <= lo && Dropped(v.mem, v'.mem, space, lo, hi, v.lay[space].guard))
    ensures GuardKept(v, v', x)
  {
    hide SpaceOk;
    GuardMapped(v, x);
    if Added(v.mem, v'.mem, space, lo, hi) {
      assert Kept(v.mem, v'.mem, Va(x, v.lay[x].guard));
    }
  }

  lemma ShmsKnown(v: View, space: nat, n: int, r: int, v': View)
    requires Takes(v, Shms(space, n, r), v')
    ensures Tidy(v) && space in v.lay && ShmsIn(v, v', space, n, r)
    ensures forall k :: k in v.mem.mem && v.mem.mem[k].Shared? ==> v.mem.mem[k].id in v.mem.store
  {
  }

  lemma ShmDown(v: View, space: nat, n: int, r: int, v': View)
    requires Takes(v, Shms(space, n, r), v') && Hidden(v) && n < 0
    ensures EagerShms(Shown(v), Shown(v'), space, n, r) && Hidden(v')
  {
    hide Takes, Tidy, SpaceOk, Dropped, Reach, Hidden, Cleared, HiddenIn;
    ShmsKnown(v, space, n, r, v');
    var l := v.lay[space];
    forall x | x in v.lay ensures GuardKept(v, v', x) {
      KeptBy(v, v', space, l.top, l.shmtop, x);
    }
    RelaidShown(v, v', space);
    DroppedReach(v.mem, v'.mem, space, l.top, l.shmtop, l.guard);
  }

  lemma ShmUp(v: View, space: nat, n: int, r: int, v': View)
    requires Takes(v, Shms(space, n, r), v') && Hidden(v) && n > 0
    requires space in v.lay && v.lay[space].shmbreak + n < v.lay[space].shmtop * PGSIZE
    ensures EagerShms(Shown(v), Shown(v'), space, n, r) && Hidden(v')
  {
    hide Takes, Tidy, SpaceOk, Added, Reach, Hidden, HiddenIn, RoundUp;
    ShmsKnown(v, space, n, r, v');
    var l := v.lay[space];
    forall x | x in v.lay ensures GuardKept(v, v', x) {
      KeptBy(v, v', space, l.shmnext, RoundUp(l.shmbreak + n), x);
    }
    RelaidShown(v, v', space);
    AddedReach(v.mem, v'.mem, space, l.shmnext, RoundUp(l.shmbreak + n));
  }

  lemma ShmsAgree(v: View, space: nat, n: int, r: int, v': View)
    requires Takes(v, Shms(space, n, r), v') && Hidden(v)
    ensures EagerTakes(Shown(v), Shms(space, n, r), Shown(v')) && Hidden(v')
  {
    hide Takes, Tidy, SpaceOk, Added, Dropped, Reach, Hidden, HiddenIn, RoundUp;
    ShmsKnown(v, space, n, r, v');
    if n < 0 {
      ShmDown(v, space, n, r, v');
    } else if n > 0 && v.lay[space].shmbreak + n < v.lay[space].shmtop * PGSIZE {
      ShmUp(v, space, n, r, v');
    }
  }

  lemma HeapsKnown(v: View, space: nat, n: int, ok: bool, v': View)
    requires Takes(v, Heaps(space, n, ok), v')
    ensures Tidy(v) && space in v.lay && HeapsIn(v, v', space, n, ok) && v.lay[space].top <= v.lay[space].shmtop
  {
    GuardMapped(v, space);
  }

  lemma HeapUp(v: View, space: nat, n: int, v': View)
    requires Takes(v, Heaps(space, n, true), v') && Hidden(v) && n >= 0
    ensures space in v.lay && EagerHeaps(Shown(v), Shown(v'), space, n, true) && Hidden(v')
  {
    hide Takes, Tidy, SpaceOk, AddedPrivate, Reach, Hidden, HiddenIn, RoundUp;
    HeapsKnown(v, space, n, true, v');
    var l := v.lay[space];
    forall x | x in v.lay ensures GuardKept(v, v', x) {
      KeptBy(v, v', space, l.sz, RoundUp(l.brk + n), x);
    }
    RelaidShown(v, v', space);
    AboveHeap(v, space);
    PrivateReach(v.mem, v'.mem, space, l.sz, RoundUp(l.brk + n));
  }

  lemma HeapDown(v: View, space: nat, n: int, v': View)
    requires Takes(v, Heaps(space, n, true), v') && Hidden(v) && n < 0
    ensures space in v.lay && EagerHeaps(Shown(v), Shown(v'), space, n, true) && Hidden(v')
  {
    hide Takes, Tidy, SpaceOk, Dropped, Cleared, Reach, Hidden, HiddenIn, RoundUp;
    HeapsKnown(v, space, n, true, v');
    var l := v.lay[space];
    forall x | x in v.lay ensures GuardKept(v, v', x) {
      KeptBy(v, v', space, RoundUp(l.brk + n), l.sz, x);
    }
    RelaidShown(v, v', space);
    DroppedReach(v.mem, v'.mem, space, RoundUp(l.brk + n), l.sz, l.guard);
  }

  lemma HeapsAgree(v: View, space: nat, n: int, ok: bool, v': View)
    requires Takes(v, Heaps(space, n, ok), v') && Hidden(v)
    ensures EagerTakes(Shown(v), Heaps(space, n, ok), Shown(v')) && Hidden(v')
  {
    hide Takes, Tidy, SpaceOk, AddedPrivate, Dropped, Cleared, Reach, Hidden, HiddenIn, RoundUp;
    HeapsKnown(v, space, n, ok, v');
    if ok && n >= 0 {
      HeapUp(v, space, n, v');
    } else if ok {
      HeapDown(v, space, n, v');
    }
  }

  lemma AboveHeap(v: View, space: nat)
    requires Tidy(v) && space in v.lay
    ensures forall p: nat :: v.lay[space].sz <= p ==> Va(space, p) !in v.mem.mem
  {
    assert SpaceOk(v.mem, space, v.lay[space]);
  }

  // Whole runs

  lemma StepAgrees(v: View, step: Step, v': View)
    requires Takes(v, step, v') && Hidden(v) && Fair(v, step)
    ensures EagerTakes(Shown(v), step, Shown(v')) && Hidden(v')
  {
    hide Takes, EagerTakes, Hidden, Shown;
    match step
    case Makes(space, data) => MakesAgree(v, space, data, v');
    case Ends(space) => EndsAgree(v, space, v');
    case Forks(parent, child) => ForkKnown(v, parent, child, v'); ForksAgree(v, parent, child, v');
    case Stores(space, addr, val, ok) => StoresAgree(v, space, addr, val, ok, v');
    case Shms(space, n, r) => ShmsAgree(v, space, n, r, v');
    case Heaps(space, n, ok) => HeapsAgree(v, space, n, ok, v');
  }

  ghost predicate Run(views: seq<View>, steps: seq<Step>) {
    && |views| == |steps| + 1 && views[0].mem.mem == map[] && views[0].lay == map[]
    && forall i :: 0 <= i < |steps| ==> Takes(views[i], steps[i], views[i + 1])
  }

  ghost predicate EagerRun(es: seq<Eager>, steps: seq<Step>) {
    && |es| == |steps| + 1 && es[0].mem.mem == map[] && es[0].lay == map[]
    && forall i :: 0 <= i < |steps| ==> EagerTakes(es[i], steps[i], es[i + 1])
  }

  lemma {:induction false} RunHidden(views: seq<View>, steps: seq<Step>, n: nat)
    requires Run(views, steps) && n < |views| && forall i :: 0 <= i < n ==> Fair(views[i], steps[i])
    ensures Hidden(views[n])
    decreases n
  {
    hide Takes, EagerTakes, Fair, HiddenIn;
    if n > 0 {
      RunHidden(views, steps, n - 1);
      StepAgrees(views[n - 1], steps[n - 1], views[n]);
    }
  }

  /** Copy-on-write refines eager copying: over every run in which no fork finds the
      guard page reachable and no store gets through on a guard page at the end of
      the reserve, some run of the reference with the same calls, stores and results
      lets every process read the same at every page, all along. */
  lemma RunRefines(views: seq<View>, steps: seq<Step>) returns (es: seq<Eager>)
    requires Run(views, steps) && forall i :: 0 <= i < |steps| ==> Fair(views[i], steps[i])
    ensures EagerRun(es, steps)
    ensures forall i, k :: 0 <= i < |es| ==> ViewLoad(es[i].mem, k) == ViewLoad(views[i].mem, k)
  {
    hide Takes, EagerTakes, Fair, Hidden, Shown;
    es := seq(|views|, i requires 0 <= i < |views| => Shown(views[i]));
    forall i | 0 <= i < |steps| ensures EagerTakes(es[i], steps[i], es[i + 1]) {
      RunHidden(views, steps, i);
      StepAgrees(views[i], steps[i], views[i + 1]);
    }
    forall i, k | 0 <= i < |es| ensures ViewLoad(es[i].mem, k) == ViewLoad(views[i].mem, k) {
      ShownLoads(views[i], k);
    }
    ShownEmpty(views[0]);
  }

  lemma ShownEmpty(v: View)
    requires v.mem.mem == map[] && v.lay == map[]
    ensures Shown(v).mem.mem == map[] && Shown(v).lay == map[]
  {
  }

  // The condition is exact

  ghost predicate AllSeen(e: Eager) { forall k :: k in e.mem.mem ==> ViewLoad(e.mem, k).Some? }

  /** Both know the same spaces, and where their stacks must end. */
  ghost predicate SameEnds(v: View, e: Eager) {
    v.lay.Keys == e.lay.Keys && forall x :: x in v.lay ==> v.lay[x].last == e.lay[x].last
  }

  lemma AddedSeen(a: Memory, a': Memory, space: nat, lo: nat, hi: nat)
    requires Added(a, a', space, lo, hi) && forall k :: k in a.mem ==> ViewLoad(a, k).Some?
    ensures forall k :: k in a'.mem ==> ViewLoad(a', k).Some?
  {
    forall k | k in a'.mem ensures ViewLoad(a', k).Some? {
      if k in a.mem {
        assert Kept(a, a', k);
      } else {
        assert ViewLoad(a', Va(space, k.page)) == Some(Zero());
      }
    }
  }

  lemma StackSeen(a: Memory, a': Memory, space: nat, lo: nat, hi: nat)
    requires forall k :: k in a.mem ==> ViewLoad(a, k).Some?
    requires StackAdded(a, a', space, lo, hi) || AddedPrivate(a, a', space, lo, hi)
    ensures forall k :: k in a'.mem ==> ViewLoad(a', k).Some?
  {
    forall k | k in a'.mem ensures ViewLoad(a', k).Some? {
      assert k == Va(k.space, k.page);
    }
  }

  lemma CopiesSeen(a: Memory, a': Memory, parent: nat, child: nat)
    requires CopiesAll(a, a', parent, child) && forall k :: k in a.mem ==> ViewLoad(a, k).Some? && k.space != child
    ensures forall k :: k in a'.mem ==> ViewLoad(a', k).Some?
  {
    forall k | k in a'.mem ensures ViewLoad(a', k).Some? {
      if k.space == child && Va(parent, k.page) in a.mem {
        assert k == Va(child, k.page);
      }
    }
  }

  lemma MadeSeen(a: Memory, a': Memory, space: nat, data: seq<Page>)
    requires MadeEagerly(a, a', space, data) && forall k :: k in a.mem ==> ViewLoad(a, k).Some? && k.space != space
    ensures forall k :: k in a'.mem ==> ViewLoad(a', k).Some?
  {
    forall k | k in a'.mem ensures ViewLoad(a', k).Some? {
      assert k == Va(k.space, k.page);
    }
  }

  lemma StoreSeen(e: Eager, e': Eager, k: Va, off: nat, val: int, ok: bool)
    requires AllSeen(e) && EagerStores(e, e', k, off, val, ok)
    ensures AllSeen(e')
  {
    var l := e.lay[k.space];
    if k !in e.mem.mem && l.last < k.page <= l.guard {
      var mid: Memory :| StackAdded(e.mem, mid, k.space, k.page, l.guard) && Stored(mid, e'.mem, k, off, val);
      StackSeen(e.mem, mid, k.space, k.page, l.guard);
    }
  }

  /** Every page of the reference belongs to a space it knows. */
  ghost predicate Housed(e: Eager) { forall k :: k in e.mem.mem ==> k.space in e.lay }

  lemma StepHoused(e: Eager, step: Step, e': Eager)
    requires Housed(e) && EagerTakes(e, step, e')
    ensures Housed(e')
  {
    hide ExecLayout, RoundUp;
    if step.Stores? {
      var k := Va(step.space, step.addr / PGSIZE);
      if step.ok && k !in e.mem.mem {
        var mid: Memory :| StackAdded(e.mem, mid, k.space, k.page, e.lay[k.space].guard)
          && Stored(mid, e'.mem, k, step.addr % PGSIZE, step.val);
      }
    }
  }

  lemma StepSeen(e: Eager, step: Step, e': Eager)
    requires AllSeen(e) && Housed(e) && EagerTakes(e, step, e')
    ensures AllSeen(e')
  {
    hide Added, AddedPrivate, StackAdded, CopiesAll, MadeEagerly, EagerStores;
    match step
    case Makes(space, data) => MadeSeen(e.mem, e'.mem, space, data);
    case Forks(parent, child) => CopiesSeen(e.mem, e'.mem, parent, child);
    case Stores(space, addr, val, ok) => StoreSeen(e, e', Va(space, addr / PGSIZE), addr % PGSIZE, val, ok);
    case Shms(space, n, r) =>
      var l := e.lay[space];
      if n > 0 && l.shmbreak + n < l.shmtop * PGSIZE {
        AddedSeen(e.mem, e'.mem, space, l.shmnext, RoundUp(l.shmbreak + n));
      }
    case Heaps(space, n, ok) =>
      if ok && n >= 0 {
        StackSeen(e.mem, e'.mem, space, e.lay[space].sz, RoundUp(e.lay[space].brk + n));
      }
    case Ends(space) =>
  }

  lemma StepEnds(v: View, step: Step, v': View, e: Eager, e': Eager)
    requires Takes(v, step, v') && EagerTakes(e, step, e') && SameEnds(v, e)
    ensures SameEnds(v', e')
  {
    hide Tidy, Created, Vanished, Forked, Stored, Added, AddedPrivate, Dropped, MadeEagerly, CopiesAll, Cleared,
         StackAdded, Grown, RoundUp;
  }

  ghost predicate SameLoads(v: View, e: Eager) { forall k :: ViewLoad(e.mem, k) == ViewLoad(v.mem, k) }

  /** Whatever the reference does, it shows where an unfair step leads elsewhere. */
  lemma UnfairForkShows(v: View, v': View, e: Eager, e': Eager, parent: nat, child: nat)
    requires Takes(v, Forks(parent, child), v') && EagerTakes(e, Forks(parent, child), e')
    requires SameLoads(v, e) && SameLoads(v', e')
    ensures Fair(v, Forks(parent, child))
  {
    hide SpaceOk;
    var g := v.lay[parent].guard;
    ChildLoads(v, parent, child, v', g);
    assert ViewLoad(e.mem, Va(parent, g)) == ViewLoad(v.mem, Va(parent, g));
    assert ViewLoad(e'.mem, Va(child, g)) == ViewLoad(v'.mem, Va(child, g));
  }

  lemma UnfairStoreShows(v: View, v': View, e: Eager, e': Eager, space: nat, addr: nat, val: int, ok: bool)
    requires Takes(v, Stores(space, addr, val, ok), v') && EagerTakes(e, Stores(space, addr, val, ok), e')
    requires SameLoads(v, e) && AllSeen(e) && SameEnds(v, e)
    ensures Fair(v, Stores(space, addr, val, ok))
  {
    hide Tidy;
    var k := Va(space, addr / PGSIZE);
    assert ViewLoad(e.mem, k) == ViewLoad(v.mem, k);
  }

  lemma {:induction false} RunKnown(views: seq<View>, steps: seq<Step>, es: seq<Eager>, n: nat)
    requires Run(views, steps) && EagerRun(es, steps) && n < |views|
    ensures AllSeen(es[n]) && Housed(es[n]) && SameEnds(views[n], es[n])
    decreases n
  {
    hide Takes, EagerTakes;
    if n > 0 {
      RunKnown(views, steps, es, n - 1);
      StepHoused(es[n - 1], steps[n - 1], es[n]);
      StepSeen(es[n - 1], steps[n - 1], es[n]);
      StepEnds(views[n - 1], steps[n - 1], views[n], es[n - 1], es[n]);
    }
  }

  lemma RunFair(views: seq<View>, steps: seq<Step>, es: seq<Eager>, n: nat)
    requires Run(views, steps) && EagerRun(es, steps) && n < |steps|
    requires forall i :: 0 <= i < |es| ==> SameLoads(views[i], es[i])
    ensures Fair(views[n], steps[n])
  {
    hide Takes, EagerTakes, SameLoads;
    RunKnown(views, steps, es, n);
    match steps[n]
    case Forks(parent, child) => UnfairForkShows(views[n], views[n + 1], es[n], es[n + 1], parent, child);
    case Stores(space, addr, val, ok) =>
      UnfairStoreShows(views[n], views[n + 1], es[n], es[n + 1], space, addr, val, ok);
    case _ =>
  }

  ghost predicate Follows(views: seq<View>, steps: seq<Step>, es: seq<Eager>) {
    EagerRun(es, steps) && |es| == |views| && forall i :: 0 <= i < |es| ==> SameLoads(views[i], es[i])
  }

  /** Processes read all along what some eager copying of the same calls and stores
      gives them if and only if every fork and every store is fair. */
  lemma RefinesIff(views: seq<View>, steps: seq<Step>)
    requires Run(views, steps)
    ensures (exists es: seq<Eager> :: Follows(views, steps, es))
            <==> forall i :: 0 <= i < |steps| ==> Fair(views[i], steps[i])
  {
    hide Takes, EagerTakes, Fair, EagerRun;
    if forall i :: 0 <= i < |steps| ==> Fair(views[i], steps[i]) {
      var es := RunRefines(views, steps);
      RunSize(views, steps, es);
      assert Follows(views, steps, es);
    }
    forall es: seq<Eager>, i | Follows(views, steps, es) && 0 <= i < |steps| ensures Fair(views[i], steps[i]) {
      RunFair(views, steps, es, i);
    }
  }

  lemma RunSize(views: seq<View>, steps: seq<Step>, es: seq<Eager>)
    requires Run(views, steps) && EagerRun(es, steps)
    ensures |es| == |views| == |steps| + 1
  {
  }

  // Where it fails: exec, fork, a store to the guard page, fork

  /** The guard page of a process that exec has just made. */
  const GUARD := ExecLayout(1).guard

  function Seven(): (p: Page) { Zero()[0 := 7] }

  function GuardSteps(): (r: seq<Step>) {
    [Makes(0, []), Forks(0, 1), Stores(0, GUARD * PGSIZE, 7, true), Forks(0, 2)]
  }

  lemma EagerGuardStore(e: Eager, e': Eager)
    requires EagerStores(e, e', Va(0, GUARD), 0, 7, true) && Va(0, GUARD) !in e.mem.mem
    ensures ViewLoad(e'.mem, Va(0, GUARD)) == Some(Seven())
  {
    var k := Va(0, GUARD);
    var mid: Memory :| StackAdded(e.mem, mid, 0, GUARD, e.lay[0].guard) && Stored(mid, e'.mem, k, 0, 7);
  }

  lemma GuardAddress()
    ensures GUARD * PGSIZE / PGSIZE == GUARD && GUARD * PGSIZE % PGSIZE == 0
  {
  }

  /** Under eager copying the second child reads what its parent stored there. */
  lemma EagerGuardRun(es: seq<Eager>)
    requires EagerRun(es, GuardSteps())
    ensures ViewLoad(es[4].mem, Va(2, GUARD)) == Some(Seven())
  {
    hide EagerStores, MadeEagerly;
    var steps := GuardSteps();
    assert EagerTakes(es[0], steps[0], es[1]) && EagerTakes(es[1], steps[1], es[2]);
    assert EagerTakes(es[2], steps[2], es[3]) && EagerTakes(es[3], steps[3], es[4]);
    EagerMade(es[0].mem, es[1].mem);
    GuardAddress();
    EagerGuardStore(es[2], es[3]);
  }

  lemma EagerMade(a: Memory, a': Memory)
    requires MadeEagerly(a, a', 0, []) && a.mem == map[]
    ensures Va(0, GUARD) !in a'.mem
  {
  }

  /** exec and a first fork: the guard page is shared copy-on-write. */
  method GuardShared() returns (m: Machine, ghost v0: View, ghost v1: View)
    ensures fresh(m) && fresh(m.kmem) && fresh(m.kmem.next) && fresh(m.kmem.count)
    ensures m.Valid() && m.lay == map[0 := ExecLayout(1), 1 := ExecLayout(1)]
    ensures v0.mem.mem == map[] && v0.lay == map[]
    ensures Takes(v0, Makes(0, []), v1) && Takes(v1, Forks(0, 1), m.Now())
    ensures Va(0, GUARD) in m.abs.mem && m.abs.mem[Va(0, GUARD)] == Own(Zero(), false)
    ensures CowShared(m.st, Va(0, GUARD)) && |m.st.free| == 997
  {
    hide Takes, Laid, Sound, Threaded, CowShared;
    m := new Machine(1000);
    v0 := m.Now();
    m.Create(0, []);
    v1 := m.Now();
    GuardMade(v0.mem, m.abs);
    m.Fork(0, 1);
  }

  /** The parent's store makes its guard page reachable, and the guard stays. */
  method GuardStored(m: Machine)
    requires m.Valid() && 0 in m.lay && m.lay[0] == ExecLayout(1) && CowShared(m.st, Va(0, GUARD)) && |m.st.free| == 997
    requires Va(0, GUARD) in m.abs.mem && m.abs.mem[Va(0, GUARD)] == Own(Zero(), false)
    modifies m, m.kmem, m.kmem.next, m.kmem.count
    ensures m.Valid() && m.lay == old(m.lay) && Takes(old(m.Now()), Stores(0, GUARD * PGSIZE, 7, true), m.Now())
    ensures Va(0, GUARD) in m.abs.mem && m.abs.mem[Va(0, GUARD)] == Own(Seven(), true)
  {
    hide Takes, Laid, Sound, Threaded, CowShared;
    GuardAddress();
    var ok, faults;
    ghost var mid;
    ok, faults, mid := m.UserStore(0, GUARD * PGSIZE, 7);
  }

  /** The run on the machine itself: afterwards the second child is killed where it
      would have read its parent's data. */
  method GuardLost() returns (m: Machine, ghost views: seq<View>)
    ensures fresh(m) && m.Valid() && Run(views, GuardSteps()) && views[4] == m.Now() && !Fair(views[3], GuardSteps()[3])
    ensures ViewLoad(m.abs, Va(0, GUARD)) == Some(Seven()) && ViewLoad(m.abs, Va(2, GUARD)) == None
  {
    hide Takes, Laid, Sound, Threaded, CowShared, Forked;
    ghost var v0, v1;
    m, v0, v1 := GuardShared();
    ghost var v2 := m.Now();
    GuardStored(m);
    ghost var v3 := m.Now();
    m.Fork(0, 2);
    ghost var v4 := m.Now();
    ChildLoads(v3, 0, 2, v4, GUARD);
    GuardCopied(v3.mem, v4.mem, 0, 2, ExecLayout(1));
    views := [v0, v1, v2, v3, v4];
  }

  lemma GuardCopied(a: Memory, a': Memory, parent: nat, child: nat, l: Layout)
    requires Forked(a, a', parent, child, l, l.sz) && Va(parent, l.guard) in a.mem
    ensures Va(parent, l.guard) in a'.mem && a'.mem[Va(parent, l.guard)] == a.mem[Va(parent, l.guard)]
  {
  }

  lemma GuardMade(a: Memory, a': Memory)
    requires Created(a, a', 0, []) && a.mem == map[]
    ensures Va(0, GUARD) in a'.mem && a'.mem[Va(0, GUARD)] == Own(Zero(), false)
  {
  }
}
