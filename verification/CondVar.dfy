/** The user mutex and condition variable over futexes (ulib.c, sysproc.c,
    proc.c): every interleaving of any number of processes that lock and unlock
    one mutex, wait on one condition variable and broadcast on it. Each step is
    one access to shared memory, or one entry to or exit from a section under
    ptable.lock. */
module CondVar {
  import opened Counting

  /** The two lock words: the client's mutex, and cv->cvslock. */
  datatype Lock = M | C

  /** On whose behalf a lock or unlock routine runs, so where it returns to. */
  datatype Caller = Client | Waiter | Caster(held: bool)

  /** mutex_lock and sys_futex_wait. */
  datatype LockAt =
    | Tas         // __sync_lock_test_and_set
    | WaitSys     // acquire(&ptable.lock)
    | WaitTest    // if (*loc == val)
    | WaitSleep   // sleep(loc, &ptable.lock)
    | Asleep
    | Awake       // RUNNABLE again, in sched()
    | WaitRet     // release(&ptable.lock)

  /** mutex_unlock and sys_futex_wake. */
  datatype UnlockAt =
    | Store       // __sync_lock_release
    | WakeSys     // acquire(&ptable.lock)
    | WakeAll     // wakeupfutex1
    | WakeRet     // release(&ptable.lock)

  /** cv_wait after its mutex_unlock(mutex), with sys_futex_wait2. */
  datatype WaitAt =
    | Read        // cv->cvnum
    | Add         // cv->cvnum = v + 1
    | Arg         // the argument cv->cvnum
    | Sys2        // acquire(&ptable.lock)
    | Free        // lk->lock = 0
    | WakeC       // wakeupfutex2(&lk->lock)
    | Test2       // if (*loc == val)
    | Sleep2      // sleep(loc, &ptable.lock)
    | Asleep2
    | Awake2
    | Ret2        // release(&ptable.lock); return 0
    | Fail2       // release(&ptable.lock); return -1

  /** cv_bcast with cvslock held. */
  datatype CastAt =
    | CastSys     // futex_wake: acquire(&ptable.lock)
    | CastWake    // numwake + wakeupfutex1(&cv->cvnum)
    | CastRet     // release(&ptable.lock)
    | CastTest    // while (cv->cvnum != numwake)
    | CastLoad    // cv->cvnum
    | CastStore   // cv->cvnum = v - numwake

  datatype Pc =
    | Idle
    | Hold                                           // the client's critical section
    | Locking(la: LockAt, l: Lock, k: Caller)
    | Unlocking(ua: UnlockAt, l: Lock, k: Caller)
    | Waiting(wa: WaitAt, val: int)
    | Casting(ca: CastAt, numwake: int, v: int, h: bool)

  /** The shared words, and whether ptable.lock is taken. */
  datatype Mem = Mem(m: bool, c: bool, cvnum: int, pt: bool) {
    function Word(l: Lock): bool { if l.M? then m else c }

    function SetWord(l: Lock, b: bool): Mem {
      if l.M? then this.(m := b) else this.(c := b)
    }
  }

  datatype State = State(mem: Mem, pcs: seq<Pc>)

  function Initial(n: nat): (s: State) {
    State(Mem(false, false, 0, false), seq(n, _ => Idle))
  }

  /** What a step does: move its process, set the words, wake sleepers. */
  datatype Rouse = Nobody | OnLock(l: Lock) | OnCv

  datatype Effect = Effect(pc: Pc, mem: Mem, rouse: Rouse)

  /** wakeupfutex1 as one process sees it. */
  function Roused(pc: Pc, r: Rouse): (pc': Pc) {
    match pc
    case Locking(Asleep, l, k) => if r == OnLock(l) then Locking(Awake, l, k) else pc
    case Waiting(Asleep2, val) => if r == OnCv then Waiting(Awake2, val) else pc
    case _ => pc
  }

  function RouseAll(pcs: seq<Pc>, r: Rouse): (pcs': seq<Pc>)
    ensures |pcs'| == |pcs|
  {
    seq(|pcs|, i requires 0 <= i < |pcs| => Roused(pcs[i], r))
  }

  predicate AsleepOnCv(pc: Pc) { pc.Waiting? && pc.wa.Asleep2? }

  ghost function SleepersCv(pcs: seq<Pc>): (r: set<nat>) {
    set i | 0 <= i < |pcs| && AsleepOnCv(pcs[i])
  }

  /** Where mutex_lock returns to, the lock taken. */
  function Locked(l: Lock, k: Caller): (pc: Pc) {
    if l.M? then Hold
    else if k.Caster? then Casting(CastSys, 0, 0, k.held)
    else Unlocking(Store, M, Waiter)
  }

  /** Where mutex_unlock returns to. */
  function Unlocked(l: Lock, k: Caller): (pc: Pc) {
    match k
    case Client => Idle
    case Waiter => Waiting(Read, 0)
    case Caster(h) => if h then Hold else Idle
  }

  /** A client starts an operation: it locks when it does not hold the mutex,
      unlocks or waits when it does, and broadcasts either way. */
  ghost predicate Starts(pc: Pc, pc': Pc) {
    match pc
    case Idle => pc' == Locking(Tas, M, Client) || pc' == Locking(Tas, C, Caster(false))
    case Hold =>
      || pc' == Unlocking(Store, M, Client)
      || pc' == Locking(Tas, C, Waiter)
      || pc' == Locking(Tas, C, Caster(true))
    case _ => false
  }

  /** The steps that take ptable.lock, and where they lead. */
  function Entered(pc: Pc): (r: Pc) {
    match pc
    case Locking(WaitSys, l, k) => Locking(WaitTest, l, k)
    case Locking(Awake, l, k) => Locking(WaitRet, l, k)
    case Unlocking(WakeSys, l, k) => Unlocking(WakeAll, l, k)
    case Waiting(Sys2, val) => Waiting(Free, val)
    case Waiting(Awake2, val) => Waiting(Ret2, val)
    case Casting(CastSys, n, v, h) => Casting(CastWake, n, v, h)
    case _ => pc
  }

  function LockAct(at: LockAt, l: Lock, k: Caller, mem: Mem): (e: Effect)
    requires at.Tas? || at.WaitTest? || at.WaitSleep? || at.WaitRet?
  {
    match at
    case Tas => Effect(if mem.Word(l) then Locking(WaitSys, l, k) else Locked(l, k), mem.SetWord(l, true), Nobody)
    case WaitTest => Effect(Locking(if mem.Word(l) then WaitSleep else WaitRet, l, k), mem, Nobody)
    case WaitSleep => Effect(Locking(Asleep, l, k), mem.(pt := false), Nobody)
    case WaitRet => Effect(Locking(Tas, l, k), mem.(pt := false), Nobody)
  }

  function UnlockAct(at: UnlockAt, l: Lock, k: Caller, mem: Mem): (e: Effect)
    requires !at.WakeSys?
  {
    match at
    case Store => Effect(Unlocking(WakeSys, l, k), mem.SetWord(l, false), Nobody)
    case WakeAll => Effect(Unlocking(WakeRet, l, k), mem, OnLock(l))
    case WakeRet => Effect(Unlocked(l, k), mem.(pt := false), Nobody)
  }

  function WaitAct(at: WaitAt, val: int, mem: Mem): (e: Effect)
    requires !at.Sys2? && !at.Asleep2? && !at.Awake2?
  {
    match at
    case Read => Effect(Waiting(Add, mem.cvnum), mem, Nobody)
    case Add => Effect(Waiting(Arg, val), mem.(cvnum := val + 1), Nobody)
    case Arg => Effect(Waiting(Sys2, mem.cvnum), mem, Nobody)
    case Free => Effect(Waiting(WakeC, val), mem.(c := false), Nobody)
    case WakeC => Effect(Waiting(Test2, val), mem, OnLock(C))
    case Test2 => Effect(Waiting(if mem.cvnum == val then Sleep2 else Fail2, val), mem, Nobody)
    case Sleep2 => Effect(Waiting(Asleep2, val), mem.(pt := false), Nobody)
    case Ret2 => Effect(Locking(Tas, M, Waiter), mem.(pt := false), Nobody)
    case Fail2 => Effect(Locking(Tas, M, Waiter), mem.(pt := false), Nobody)
  }

  /** n is the number of processes asleep on &cv->cvnum. */
  function CastAct(at: CastAt, w: int, v: int, h: bool, mem: Mem, n: nat): (e: Effect)
    requires !at.CastSys?
  {
    match at
    case CastWake => Effect(Casting(CastRet, w + n, v, h), mem, OnCv)
    case CastRet => Effect(Casting(CastTest, w, v, h), mem.(pt := false), Nobody)
    case CastTest => Effect(Casting(if mem.cvnum != w then CastSys else CastLoad, w, v, h), mem, Nobody)
    case CastLoad => Effect(Casting(CastStore, w, mem.cvnum, h), mem, Nobody)
    case CastStore => Effect(Unlocking(Store, C, Caster(h)), mem.(cvnum := v - w), Nobody)
  }

  ghost predicate Acts(pc: Pc, mem: Mem, n: nat, e: Effect) {
    match pc
    case Locking(at, l, k) =>
      (at.Tas? || at.WaitTest? || at.WaitSleep? || at.WaitRet?) && e == LockAct(at, l, k, mem)
    case Unlocking(at, l, k) => !at.WakeSys? && e == UnlockAct(at, l, k, mem)
    case Waiting(at, val) => !at.Sys2? && !at.Asleep2? && !at.Awake2? && e == WaitAct(at, val, mem)
    case Casting(at, w, v, h) => !at.CastSys? && e == CastAct(at, w, v, h, mem, n)
    case _ => false
  }

  ghost predicate Moves(pc: Pc, mem: Mem, n: nat, e: Effect) {
    || (Starts(pc, e.pc) && e.mem == mem && e.rouse.Nobody?)
    || (!mem.pt && Entered(pc) != pc && e == Effect(Entered(pc), mem.(pt := true), Nobody))
    || Acts(pc, mem, n, e)
  }

  ghost predicate Next(s: State, s': State, p: nat, e: Effect) {
    && p < |s.pcs|
    && Moves(s.pcs[p], s.mem, |SleepersCv(s.pcs)|, e)
    && s' == State(e.mem, RouseAll(s.pcs, e.rouse)[p := e.pc])
  }

  ghost predicate Run(states: seq<State>, who: seq<nat>, what: seq<Effect>, n: nat) {
    && |states| == |who| + 1 == |what| + 1
    && states[0] == Initial(n)
    && forall k :: 0 <= k < |who| ==> Next(states[k], states[k + 1], who[k], what[k])
  }

  // Mutual exclusion.

  predicate HoldsM(pc: Pc) {
    match pc
    case Idle => false
    case Hold => true
    case Locking(_, l, k) => l.C? && k != Caster(false)
    case Unlocking(at, l, k) => if l.M? then at.Store? else k == Caster(true)
    case Waiting(_, _) => false
    case Casting(_, _, _, h) => h
  }

  predicate HoldsC(pc: Pc) {
    match pc
    case Unlocking(at, l, k) => if l.M? then k.Waiter? else at.Store?
    case Waiting(at, _) => at.Read? || at.Add? || at.Arg? || at.Sys2? || at.Free?
    case Casting(_, _, _, _) => true
    case _ => false
  }

  predicate InPt(pc: Pc) {
    match pc
    case Locking(at, _, _) => at.WaitTest? || at.WaitSleep? || at.WaitRet?
    case Unlocking(at, _, _) => at.WakeAll? || at.WakeRet?
    case Waiting(at, _) => at.Free? || at.WakeC? || at.Test2? || at.Sleep2? || at.Ret2? || at.Fail2?
    case Casting(at, _, _, _) => at.CastWake? || at.CastRet?
    case _ => false
  }

  /** The combinations of lock and caller that occur. */
  predicate Sensible(pc: Pc) {
    match pc
    case Locking(_, l, k) => if l.M? then !k.Caster? else !k.Client?
    case Unlocking(_, l, k) => l.M? <==> !k.Caster?
    case _ => true
  }

  ghost predicate Holder(H: Pc -> bool, pcs: seq<Pc>, taken: bool) {
    && (forall i, j :: 0 <= i < j < |pcs| ==> !(H(pcs[i]) && H(pcs[j])))
    && (taken <==> exists i :: 0 <= i < |pcs| && H(pcs[i]))
  }

  /** At most one process holds each lock word and ptable.lock, and the word
      says whether one does. */
  ghost predicate Exclusive(s: State) {
    && (forall i :: 0 <= i < |s.pcs| ==> Sensible(s.pcs[i]))
    && Holder(HoldsM, s.pcs, s.mem.m)
    && Holder(HoldsC, s.pcs, s.mem.c)
    && Holder(InPt, s.pcs, s.mem.pt)
  }

  /** A token is kept, taken from nobody, or given up. */
  predicate Trade(had: bool, has: bool, taken: bool, taken': bool) {
    (has == had && taken' == taken) || (has && !taken && taken') || (had && !has && !taken')
  }

  lemma HolderStep(H: Pc -> bool, pcs: seq<Pc>, pcs': seq<Pc>, p: nat, taken: bool, taken': bool)
    requires Holder(H, pcs, taken) && p < |pcs| == |pcs'|
    requires forall i :: 0 <= i < |pcs| && i != p ==> H(pcs'[i]) == H(pcs[i])
    requires Trade(H(pcs[p]), H(pcs'[p]), taken, taken')
    ensures Holder(H, pcs', taken')
  {
    if taken' && H(pcs'[p]) == H(pcs[p]) {
      var i :| 0 <= i < |pcs| && H(pcs[i]);
      assert H(pcs'[i]);
    }
    if H(pcs'[p]) && !H(pcs[p]) {
      assert H(pcs'[p]);
    }
  }

  lemma MoveM(pc: Pc, mem: Mem, n: nat, e: Effect)
    requires Moves(pc, mem, n, e) && Sensible(pc) && (HoldsM(pc) ==> mem.m)
    ensures Trade(HoldsM(pc), HoldsM(e.pc), mem.m, e.mem.m)
  {
  }

  lemma MoveC(pc: Pc, mem: Mem, n: nat, e: Effect)
    requires Moves(pc, mem, n, e) && Sensible(pc) && (HoldsC(pc) ==> mem.c)
    ensures Trade(HoldsC(pc), HoldsC(e.pc), mem.c, e.mem.c)
  {
  }

  lemma MovePt(pc: Pc, mem: Mem, n: nat, e: Effect)
    requires Moves(pc, mem, n, e) && (InPt(pc) ==> mem.pt)
    ensures Trade(InPt(pc), InPt(e.pc), mem.pt, e.mem.pt)
  {
  }

  lemma MoveSensible(pc: Pc, mem: Mem, n: nat, e: Effect)
    requires Moves(pc, mem, n, e) && Sensible(pc)
    ensures Sensible(e.pc)
  {
  }

  lemma RousedHolds(pc: Pc, r: Rouse)
    ensures HoldsM(Roused(pc, r)) == HoldsM(pc)
    ensures HoldsC(Roused(pc, r)) == HoldsC(pc)
    ensures InPt(Roused(pc, r)) == InPt(pc)
    ensures Sensible(pc) ==> Sensible(Roused(pc, r))
  {
  }

  lemma ExclusiveStep(s: State, s': State, p: nat, e: Effect)
    requires Exclusive(s) && Next(s, s', p, e)
    ensures Exclusive(s')
  {
    var n := |SleepersCv(s.pcs)|;
    MoveM(s.pcs[p], s.mem, n, e);
    MoveC(s.pcs[p], s.mem, n, e);
    MovePt(s.pcs[p], s.mem, n, e);
    MoveSensible(s.pcs[p], s.mem, n, e);
    hide Moves, HoldsM, HoldsC, InPt, Sensible, Roused;
    forall i | 0 <= i < |s.pcs| && i != p
      ensures HoldsM(s'.pcs[i]) == HoldsM(s.pcs[i])
      ensures HoldsC(s'.pcs[i]) == HoldsC(s.pcs[i])
      ensures InPt(s'.pcs[i]) == InPt(s.pcs[i])
      ensures Sensible(s'.pcs[i])
    {
      RousedHolds(s.pcs[i], e.rouse);
    }
    HolderStep(HoldsM, s.pcs, s'.pcs, p, s.mem.m, s'.mem.m);
    HolderStep(HoldsC, s.pcs, s'.pcs, p, s.mem.c, s'.mem.c);
    HolderStep(InPt, s.pcs, s'.pcs, p, s.mem.pt, s'.mem.pt);
  }

  // No lost wakeup.

  /** Asleep on the lock word, or about to be, having seen it taken. */
  predicate Drowsy(pc: Pc, l: Lock) { pc.Locking? && pc.l == l && (pc.la.WaitSleep? || pc.la.Asleep?) }

  /** Has cleared the lock word and is on its way to wake the sleepers. */
  predicate WakeComing(pc: Pc, l: Lock) {
    match pc
    case Unlocking(at, m, _) => m == l && (at.WakeSys? || at.WakeAll?)
    case Waiting(at, _) => l.C? && at.WakeC?
    case _ => false
  }

  ghost predicate SomeWakeComing(pcs: seq<Pc>, l: Lock) {
    exists j :: 0 <= j < |pcs| && WakeComing(pcs[j], l)
  }

  /** A process sleeps on a lock word only while the word is set, or while its
      last holder is still on the way to the wake call. */
  ghost predicate NoLostWakeup(s: State, l: Lock) {
    forall i :: 0 <= i < |s.pcs| && Drowsy(s.pcs[i], l) ==> s.mem.Word(l) || SomeWakeComing(s.pcs, l)
  }

  lemma MoveWake(pc: Pc, mem: Mem, n: nat, e: Effect, l: Lock)
    requires Moves(pc, mem, n, e)
    ensures Drowsy(e.pc, l) ==> Drowsy(pc, l) || e.mem.Word(l)
    ensures mem.Word(l) ==> e.mem.Word(l) || WakeComing(e.pc, l)
    ensures WakeComing(pc, l) ==> WakeComing(e.pc, l) || e.rouse == OnLock(l)
    ensures e.rouse == OnLock(l) ==> InPt(pc) && !Drowsy(e.pc, l)
  {
  }

  lemma RousedWake(pc: Pc, r: Rouse, l: Lock)
    ensures WakeComing(pc, l) ==> WakeComing(Roused(pc, r), l)
    ensures Drowsy(Roused(pc, r), l) ==> Drowsy(pc, l) && (r == OnLock(l) ==> InPt(pc))
  {
  }

  lemma NoLostWakeupStep(s: State, s': State, p: nat, e: Effect, l: Lock)
    requires Exclusive(s) && NoLostWakeup(s, l) && Next(s, s', p, e)
    ensures NoLostWakeup(s', l)
  {
    MoveWake(s.pcs[p], s.mem, |SleepersCv(s.pcs)|, e, l);
    hide Moves, Drowsy, WakeComing, InPt, Roused;
    forall i | 0 <= i < |s'.pcs| && Drowsy(s'.pcs[i], l)
      ensures s'.mem.Word(l) || SomeWakeComing(s'.pcs, l)
    {
      if i != p {
        RousedWake(s.pcs[i], e.rouse, l);
      }
      if !s'.mem.Word(l) {
        assert Drowsy(s.pcs[i], l);
        StillComing(s, s', p, e, l);
      }
    }
  }

  lemma StillComing(s: State, s': State, p: nat, e: Effect, l: Lock)
    requires Next(s, s', p, e) && (s.mem.Word(l) || SomeWakeComing(s.pcs, l))
    requires e.rouse != OnLock(l) && !s'.mem.Word(l)
    ensures SomeWakeComing(s'.pcs, l)
  {
    MoveWake(s.pcs[p], s.mem, |SleepersCv(s.pcs)|, e, l);
    hide Moves, Drowsy, WakeComing, InPt, Roused;
    if s.mem.Word(l) {
      assert WakeComing(s'.pcs[p], l);
    } else {
      var j :| 0 <= j < |s.pcs| && WakeComing(s.pcs[j], l);
      RousedWake(s.pcs[j], e.rouse, l);
      assert WakeComing(s'.pcs[j], l);
    }
  }

  // The count.

  /** Has counted itself in cv->cvnum and not been woken since. */
  predicate Counted(pc: Pc) {
    pc.Waiting? && !pc.wa.Read? && !pc.wa.Add? && !pc.wa.Awake2? && !pc.wa.Ret2? && !pc.wa.Fail2?
  }

  /** A broadcast that has woken its sleepers and not yet taken them off the count. */
  predicate PostWake(pc: Pc) { pc.Casting? && !pc.ca.CastSys? && !pc.ca.CastWake? }

  /** Has released cvslock and is, under ptable.lock, on its way to sleep. */
  predicate HandingOver(pc: Pc) { pc.Waiting? && (pc.wa.WakeC? || pc.wa.Test2? || pc.wa.Sleep2?) }

  /** Holds cvslock and has still to pass through ptable.lock before it can
      touch cv->cvnum. */
  predicate AtGate(pc: Pc) {
    || (pc.Unlocking? && pc.l.M? && pc.k.Waiter? && (pc.ua.Store? || pc.ua.WakeSys?))
    || (pc.Casting? && pc.ca.CastSys?)
  }

  /** What the process remembers of cv->cvnum. */
  predicate Remembers(pc: Pc, cvnum: int) {
    match pc
    case Waiting(at, val) =>
      && !at.Fail2?
      && (at.Add? || at.Sys2? || at.Free? || at.WakeC? || at.Test2? || at.Sleep2? ==> val == cvnum)
    case Casting(at, n, v, _) =>
      if at.CastSys? || at.CastWake? then n == 0 else n == cvnum && (at.CastStore? ==> v == cvnum)
    case _ => true
  }

  ghost function CountedSet(pcs: seq<Pc>): (r: set<nat>) {
    set i | 0 <= i < |pcs| && Counted(pcs[i])
  }

  ghost predicate SomePostWake(pcs: seq<Pc>) {
    exists i :: 0 <= i < |pcs| && PostWake(pcs[i])
  }

  ghost predicate Gated(pcs: seq<Pc>) {
    forall i, j :: 0 <= i < |pcs| && 0 <= j < |pcs| && HandingOver(pcs[i]) && HoldsC(pcs[j]) ==> AtGate(pcs[j])
  }

  ghost predicate Tallied(s: State) {
    && (forall i :: 0 <= i < |s.pcs| ==> Remembers(s.pcs[i], s.mem.cvnum))
    && Gated(s.pcs)
    && (if SomePostWake(s.pcs) then CountedSet(s.pcs) == {} else s.mem.cvnum == |CountedSet(s.pcs)|)
  }

  ghost predicate Inv(s: State) {
    Exclusive(s) && NoLostWakeup(s, M) && NoLostWakeup(s, C) && Tallied(s)
  }

  // Gated.

  lemma MoveGate(pc: Pc, mem: Mem, n: nat, e: Effect)
    requires Moves(pc, mem, n, e) && Sensible(pc)
    ensures HandingOver(e.pc) ==> HandingOver(pc) || HoldsC(pc)
    ensures HandingOver(e.pc) ==> !HoldsC(e.pc) && InPt(e.pc)
    ensures HoldsC(e.pc) && !HoldsC(pc) ==> AtGate(e.pc)
    ensures HoldsC(e.pc) && AtGate(pc) && mem.pt ==> AtGate(e.pc)
    ensures e.mem.cvnum != mem.cvnum ==> HoldsC(pc) && !AtGate(pc)
  {
  }

  lemma RousedGate(pc: Pc, r: Rouse)
    ensures HandingOver(Roused(pc, r)) == HandingOver(pc)
    ensures AtGate(Roused(pc, r)) == AtGate(pc)
    ensures HoldsC(Roused(pc, r)) == HoldsC(pc)
    ensures PostWake(Roused(pc, r)) == PostWake(pc)
    ensures Counted(Roused(pc, r)) == (Counted(pc) && !(r.OnCv? && AsleepOnCv(pc)))
    ensures forall c :: Remembers(pc, c) ==> Remembers(Roused(pc, r), c)
  {
  }

  lemma HandingOverInPt(pc: Pc)
    requires HandingOver(pc)
    ensures InPt(pc) && !HoldsC(pc)
  {
  }

  lemma GatedStep(s: State, s': State, p: nat, e: Effect)
    requires Exclusive(s) && Gated(s.pcs) && Next(s, s', p, e)
    ensures Gated(s'.pcs)
  {
    MoveGate(s.pcs[p], s.mem, |SleepersCv(s.pcs)|, e);
    hide Moves, HandingOver, AtGate, InPt, HoldsC, Roused;
    forall i, j | 0 <= i < |s'.pcs| && 0 <= j < |s'.pcs| && HandingOver(s'.pcs[i]) && HoldsC(s'.pcs[j])
      ensures AtGate(s'.pcs[j])
    {
      RousedGate(s.pcs[i], e.rouse);
      RousedGate(s.pcs[j], e.rouse);
      if j != p {
        assert HoldsC(s.pcs[j]);
      }
      if i != p {
        HandingOverInPt(s.pcs[i]);
        assert s.mem.pt;
      }
    }
  }

  // What processes remember of the count.

  /** A process other than the one that changes cv->cvnum remembers no value of it. */
  predicate Indifferent(pc: Pc) {
    match pc
    case Waiting(at, _) => !(at.Add? || at.Sys2? || at.Free? || at.WakeC? || at.Test2? || at.Sleep2?)
    case Casting(at, _, _, _) => at.CastSys? || at.CastWake?
    case _ => true
  }

  lemma Remembering(pc: Pc)
    ensures Indifferent(pc) || HoldsC(pc) || HandingOver(pc)
    ensures Indifferent(pc) ==> forall c, d :: Remembers(pc, c) ==> Remembers(pc, d)
  {
  }

  lemma MoveRemembers(pc: Pc, mem: Mem, n: nat, e: Effect)
    requires Moves(pc, mem, n, e) && Remembers(pc, mem.cvnum)
    requires pc.Casting? && pc.ca.CastWake? ==> n == mem.cvnum
    ensures Remembers(e.pc, e.mem.cvnum)
  {
  }

  lemma RemembersStep(s: State, s': State, p: nat, e: Effect)
    requires Exclusive(s) && Tallied(s) && Next(s, s', p, e)
    requires s.pcs[p].Casting? && s.pcs[p].ca.CastWake? ==> |SleepersCv(s.pcs)| == s.mem.cvnum
    ensures forall i :: 0 <= i < |s'.pcs| ==> Remembers(s'.pcs[i], s'.mem.cvnum)
  {
    MoveGate(s.pcs[p], s.mem, |SleepersCv(s.pcs)|, e);
    MoveRemembers(s.pcs[p], s.mem, |SleepersCv(s.pcs)|, e);
    hide Moves, HandingOver, AtGate, HoldsC, InPt, Roused, Remembers, Indifferent, Sensible, SomePostWake;
    forall i | 0 <= i < |s'.pcs| && i != p ensures Remembers(s'.pcs[i], s'.mem.cvnum) {
      RousedGate(s.pcs[i], e.rouse);
      if s'.mem.cvnum != s.mem.cvnum {
        Remembering(s.pcs[i]);
        assert HoldsC(s.pcs[p]) && !HoldsC(s.pcs[i]) && !HandingOver(s.pcs[i]);
      }
    }
  }

  // The tally itself.

  predicate IsAdd(pc: Pc) { pc.Waiting? && pc.wa.Add? }

  predicate IsCastWake(pc: Pc) { pc.Casting? && pc.ca.CastWake? }

  predicate IsCastStore(pc: Pc) { pc.Casting? && pc.ca.CastStore? }

  lemma PlainMove(pc: Pc, mem: Mem, n: nat, e: Effect)
    requires Moves(pc, mem, n, e) && Remembers(pc, mem.cvnum)
    requires !IsAdd(pc) && !IsCastWake(pc) && !IsCastStore(pc)
    ensures Counted(e.pc) == Counted(pc) && PostWake(e.pc) == PostWake(pc)
    ensures e.mem.cvnum == mem.cvnum && !e.rouse.OnCv?
  {
  }

  lemma AddMove(pc: Pc, mem: Mem, n: nat, e: Effect)
    requires Moves(pc, mem, n, e) && IsAdd(pc) && Remembers(pc, mem.cvnum)
    ensures !Counted(pc) && Counted(e.pc) && !PostWake(e.pc) && HoldsC(pc)
    ensures e.mem.cvnum == mem.cvnum + 1 && !e.rouse.OnCv?
  {
  }

  lemma CastWakeMove(pc: Pc, mem: Mem, n: nat, e: Effect)
    requires Moves(pc, mem, n, e) && IsCastWake(pc)
    ensures !Counted(e.pc) && PostWake(e.pc) && e.rouse.OnCv? && e.mem == mem
    ensures HoldsC(pc) && InPt(pc) && !Counted(pc)
  {
  }

  lemma CastStoreMove(pc: Pc, mem: Mem, n: nat, e: Effect)
    requires Moves(pc, mem, n, e) && IsCastStore(pc) && Remembers(pc, mem.cvnum)
    ensures !Counted(e.pc) && !PostWake(e.pc) && e.mem.cvnum == 0 && !e.rouse.OnCv?
    ensures PostWake(pc) && HoldsC(pc)
  {
  }

  lemma PostWakeHoldsC(pc: Pc)
    ensures PostWake(pc) ==> HoldsC(pc)
  {
  }

  lemma CountedWhere(pc: Pc)
    requires Counted(pc)
    ensures AsleepOnCv(pc) || HoldsC(pc) || InPt(pc)
  {
  }

  lemma AsleepCounted(pc: Pc)
    requires AsleepOnCv(pc)
    ensures Counted(pc)
  {
  }

  /** When a broadcaster reaches wakeupfutex1, the sleepers are all who are counted. */
  lemma AllAsleep(s: State, p: nat)
    requires Exclusive(s) && p < |s.pcs| && HoldsC(s.pcs[p]) && InPt(s.pcs[p]) && !Counted(s.pcs[p])
    ensures CountedSet(s.pcs) == SleepersCv(s.pcs)
  {
    hide Counted, AsleepOnCv, HoldsC, InPt;
    forall i | 0 <= i < |s.pcs| ensures Counted(s.pcs[i]) <==> AsleepOnCv(s.pcs[i]) {
      if Counted(s.pcs[i]) {
        CountedWhere(s.pcs[i]);
      }
      if AsleepOnCv(s.pcs[i]) {
        AsleepCounted(s.pcs[i]);
      }
    }
  }

  ghost predicate TallyOk(s: State) {
    if SomePostWake(s.pcs) then CountedSet(s.pcs) == {} else s.mem.cvnum == |CountedSet(s.pcs)|
  }

  lemma TallyPlain(s: State, s': State, p: nat, e: Effect)
    requires TallyOk(s) && Next(s, s', p, e)
    requires Counted(e.pc) == Counted(s.pcs[p]) && PostWake(e.pc) == PostWake(s.pcs[p])
    requires e.mem.cvnum == s.mem.cvnum && !e.rouse.OnCv?
    ensures TallyOk(s')
  {
    hide Moves, Counted, PostWake, Roused;
    forall i | 0 <= i < |s.pcs|
      ensures Counted(s'.pcs[i]) == Counted(s.pcs[i]) && PostWake(s'.pcs[i]) == PostWake(s.pcs[i])
    {
      RousedGate(s.pcs[i], e.rouse);
    }
    assert CountedSet(s'.pcs) == CountedSet(s.pcs);
    SamePostWake(s.pcs, s'.pcs);
  }

  lemma SamePostWake(pcs: seq<Pc>, pcs': seq<Pc>)
    requires |pcs| == |pcs'| && forall i :: 0 <= i < |pcs| ==> PostWake(pcs'[i]) == PostWake(pcs[i])
    ensures SomePostWake(pcs) == SomePostWake(pcs')
  {
    hide PostWake;
    if SomePostWake(pcs) {
      var i :| 0 <= i < |pcs| && PostWake(pcs[i]);
      assert PostWake(pcs'[i]);
    }
    if SomePostWake(pcs') {
      var i :| 0 <= i < |pcs| && PostWake(pcs'[i]);
      assert PostWake(pcs[i]);
    }
  }

  /** No other process is past its wake call while p holds cvslock. */
  lemma NoOtherPostWake(s: State, s': State, p: nat, e: Effect)
    requires Exclusive(s) && Next(s, s', p, e) && HoldsC(s.pcs[p])
    ensures SomePostWake(s'.pcs) <==> PostWake(e.pc)
    ensures SomePostWake(s.pcs) <==> PostWake(s.pcs[p])
  {
    hide Moves, PostWake, Roused, HoldsC, InPt, Sensible;
    forall i | 0 <= i < |s.pcs| && i != p ensures !PostWake(s.pcs[i]) && !PostWake(s'.pcs[i]) {
      RousedGate(s.pcs[i], e.rouse);
      PostWakeHoldsC(s.pcs[i]);
    }
    assert s'.pcs[p] == e.pc;
  }

  lemma TallyAdd(s: State, s': State, p: nat, e: Effect)
    requires Exclusive(s) && TallyOk(s) && Next(s, s', p, e) && IsAdd(s.pcs[p])
    requires Remembers(s.pcs[p], s.mem.cvnum)
    ensures TallyOk(s')
  {
    AddMove(s.pcs[p], s.mem, |SleepersCv(s.pcs)|, e);
    NoOtherPostWake(s, s', p, e);
    assert !PostWake(s.pcs[p]);
    hide Moves, Counted, PostWake, Roused, HoldsC, Exclusive;
    forall i | 0 <= i < |s.pcs| && i != p ensures Counted(s'.pcs[i]) == Counted(s.pcs[i]) {
      RousedGate(s.pcs[i], e.rouse);
    }
    assert CountedSet(s'.pcs) == CountedSet(s.pcs) + {p};
  }

  lemma TallyCast(s: State, s': State, p: nat, e: Effect)
    requires Exclusive(s) && TallyOk(s) && Next(s, s', p, e)
    requires IsCastWake(s.pcs[p]) || (IsCastStore(s.pcs[p]) && Remembers(s.pcs[p], s.mem.cvnum))
    ensures TallyOk(s')
    ensures IsCastWake(s.pcs[p]) ==> |SleepersCv(s.pcs)| == s.mem.cvnum
  {
    var n := |SleepersCv(s.pcs)|;
    if IsCastWake(s.pcs[p]) {
      CastWakeMove(s.pcs[p], s.mem, n, e);
      AllAsleep(s, p);
    } else {
      CastStoreMove(s.pcs[p], s.mem, n, e);
    }
    NoOtherPostWake(s, s', p, e);
    var wakes := IsCastWake(s.pcs[p]);
    assert wakes ==> !PostWake(s.pcs[p]);
    hide Moves, Counted, PostWake, Roused, HoldsC, InPt, Exclusive, AsleepOnCv;
    forall i | 0 <= i < |s.pcs| ensures !Counted(s'.pcs[i]) {
      RousedGate(s.pcs[i], e.rouse);
      if i != p {
        assert Counted(s.pcs[i]) ==> i in CountedSet(s.pcs);
        assert wakes && i in SleepersCv(s.pcs) ==> AsleepOnCv(s.pcs[i]);
      }
    }
    assert CountedSet(s'.pcs) == {};
  }

  lemma TalliedStep(s: State, s': State, p: nat, e: Effect)
    requires Exclusive(s) && Tallied(s) && Next(s, s', p, e)
    ensures Tallied(s')
  {
    assert TallyOk(s);
    var pc := s.pcs[p];
    if IsCastWake(pc) || IsCastStore(pc) {
      TallyCast(s, s', p, e);
    } else if IsAdd(pc) {
      TallyAdd(s, s', p, e);
    } else {
      PlainMove(pc, s.mem, |SleepersCv(s.pcs)|, e);
      TallyPlain(s, s', p, e);
    }
    RemembersStep(s, s', p, e);
    GatedStep(s, s', p, e);
  }

  lemma InvStep(s: State, s': State, p: nat, e: Effect)
    requires Inv(s) && Next(s, s', p, e)
    ensures Inv(s')
  {
    ExclusiveStep(s, s', p, e);
    NoLostWakeupStep(s, s', p, e, M);
    NoLostWakeupStep(s, s', p, e, C);
    TalliedStep(s, s', p, e);
  }

  lemma InvInitially(n: nat)
    ensures Inv(Initial(n))
  {
    assert CountedSet(Initial(n).pcs) == {};
  }

  /** The invariant in every state of every run. */
  lemma {:induction false} RunInvariant(states: seq<State>, who: seq<nat>, what: seq<Effect>, n: nat)
    requires Run(states, who, what, n)
    ensures forall k :: 0 <= k < |states| ==> Inv(states[k])
    decreases |who|
  {
    hide Inv, Next;
    if who == [] {
      InvInitially(n);
    } else {
      var m := |who|;
      assert Run(states[..m], who[..m - 1], what[..m - 1], n);
      RunInvariant(states[..m], who[..m - 1], what[..m - 1], n);
      assert Inv(states[..m][m - 1]);
      InvStep(states[m - 1], states[m], who[m - 1], what[m - 1]);
    }
  }

  // What this means for the callers.

  /** Mutual exclusion: no two processes are in the client's critical section,
      and no two hold cvslock. */
  lemma MutualExclusion(states: seq<State>, who: seq<nat>, what: seq<Effect>, n: nat, k: nat, i: nat, j: nat)
    requires Run(states, who, what, n) && k < |states| && i < |states[k].pcs| && j < |states[k].pcs| && i != j
    ensures !(HoldsM(states[k].pcs[i]) && HoldsM(states[k].pcs[j]))
    ensures !(HoldsC(states[k].pcs[i]) && HoldsC(states[k].pcs[j]))
  {
    RunInvariant(states, who, what, n);
    assert Exclusive(states[k]);
    hide HoldsM, HoldsC, InPt, Sensible;
    var lo, hi := if i < j then i else j, if i < j then j else i;
    assert !(HoldsM(states[k].pcs[lo]) && HoldsM(states[k].pcs[hi]));
    assert !(HoldsC(states[k].pcs[lo]) && HoldsC(states[k].pcs[hi]));
  }

  /** Nobody sleeps on a free lock, except while a wake call is on its way. */
  lemma NobodyForgotten(states: seq<State>, who: seq<nat>, what: seq<Effect>, n: nat, k: nat, i: nat, l: Lock)
    requires Run(states, who, what, n) && k < |states| && i < |states[k].pcs|
    requires !states[k].mem.Word(l)
    requires states[k].pcs[i].Locking? && states[k].pcs[i].la.Asleep? && states[k].pcs[i].l == l
    ensures SomeWakeComing(states[k].pcs, l)
  {
    RunInvariant(states, who, what, n);
    assert NoLostWakeup(states[k], l);
  }

  /** futex_wait2 finds *loc == val in every interleaving, although it frees
      cvslock before it looks: whoever takes cvslock then must pass through
      ptable.lock before it can change cv->cvnum. So it never returns -1. */
  lemma Wait2AlwaysSleeps(states: seq<State>, who: seq<nat>, what: seq<Effect>, n: nat, k: nat, i: nat)
    requires Run(states, who, what, n) && k < |states| && i < |states[k].pcs| && states[k].pcs[i].Waiting?
    ensures states[k].pcs[i].wa.Test2? ==> states[k].mem.cvnum == states[k].pcs[i].val
    ensures !states[k].pcs[i].wa.Fail2?
  {
    RunInvariant(states, who, what, n);
    assert Tallied(states[k]);
  }

  /** cv_bcast enters wakeupfutex1 with numwake == 0 and exactly cv->cvnum
      sleepers, and the test after it ends the loop. */
  lemma BroadcastRunsOnce(states: seq<State>, who: seq<nat>, what: seq<Effect>, n: nat, k: nat, i: nat)
    requires Run(states, who, what, n) && k < |states| && i < |states[k].pcs| && states[k].pcs[i].Casting?
    ensures states[k].pcs[i].ca.CastWake? ==>
      states[k].pcs[i].numwake == 0 && |SleepersCv(states[k].pcs)| == states[k].mem.cvnum
    ensures states[k].pcs[i].ca.CastTest? ==> states[k].mem.cvnum == states[k].pcs[i].numwake
  {
    RunInvariant(states, who, what, n);
    var s := states[k];
    assert Tallied(s) && Exclusive(s);
    if s.pcs[i].ca.CastWake? {
      AllAsleep(s, i);
      forall j | 0 <= j < |s.pcs| ensures !PostWake(s.pcs[j]) {
        PostWakeHoldsC(s.pcs[j]);
      }
    }
  }

  /** A waiter from the moment it released the mutex until it is woken. */
  predicate WaitsForCast(pc: Pc) {
    match pc
    case Unlocking(at, l, k) => l.M? && k.Waiter? && !at.Store?
    case Waiting(at, _) => !at.Awake2? && !at.Ret2? && !at.Fail2?
    case _ => false
  }

  lemma WaitersWhere(pc: Pc)
    requires WaitsForCast(pc)
    ensures AsleepOnCv(pc) || HoldsC(pc) || InPt(pc)
  {
  }

  lemma RousedWaiter(pc: Pc, r: Rouse)
    ensures WaitsForCast(Roused(pc, r)) == (WaitsForCast(pc) && !(r.OnCv? && AsleepOnCv(pc)))
  {
  }

  lemma CastPc(pc: Pc)
    requires IsCastWake(pc)
    ensures !WaitsForCast(pc) && HoldsC(pc) && InPt(pc)
  {
  }

  lemma CastMoved(pc: Pc, mem: Mem, n: nat, e: Effect)
    requires Moves(pc, mem, n, e) && IsCastWake(pc)
    ensures e.rouse.OnCv? && !WaitsForCast(e.pc)
  {
  }

  /** Every waiter that had released the mutex before the wake call of a
      broadcast is awake after it: no wakeup is lost between cv_wait's
      mutex_unlock and its sleep. */
  lemma BroadcastWakesAll(states: seq<State>, who: seq<nat>, what: seq<Effect>, n: nat, k: nat, i: nat)
    requires Run(states, who, what, n) && k < |who|
    requires who[k] < |states[k].pcs| && IsCastWake(states[k].pcs[who[k]]) && i < |states[k + 1].pcs|
    ensures !WaitsForCast(states[k + 1].pcs[i])
  {
    RunInvariant(states, who, what, n);
    var s, s', p, e := states[k], states[k + 1], who[k], what[k];
    assert Exclusive(s) && Next(s, s', p, e);
    CastPc(s.pcs[p]);
    CastMoved(s.pcs[p], s.mem, |SleepersCv(s.pcs)|, e);
    hide Moves, WaitsForCast, AsleepOnCv, HoldsC, InPt, HoldsM, Sensible, Roused, Inv, Run;
    if i != p {
      RousedWaiter(s.pcs[i], e.rouse);
      if WaitsForCast(s.pcs[i]) {
        WaitersWhere(s.pcs[i]);
      }
    }
  }

  // The system calls themselves, from any state

  /** futex_wait goes to sleep if and only if the word is still what the caller saw,
      futex_wait2 too; cv_bcast wakes again if and only if somebody is missing. A wake
      call wakes exactly the sleepers on its word. */
  lemma FutexCalls(pc: Pc, mem: Mem, n: nat, e: Effect, q: Pc, r: Rouse)
    requires Moves(pc, mem, n, e)
    ensures pc.Locking? && pc.la.WaitTest? ==> e.mem == mem && (Drowsy(e.pc, pc.l) <==> mem.Word(pc.l))
    ensures pc.Waiting? && pc.wa.Test2? ==> e.pc.Waiting? && (e.pc.wa.Sleep2? <==> mem.cvnum == pc.val)
    ensures pc.Casting? && pc.ca.CastTest? ==> e.pc.Casting? && (e.pc.ca.CastSys? <==> mem.cvnum != pc.numwake)
    ensures Roused(q, r) != q <==> (q.Locking? && q.la.Asleep? && r == OnLock(q.l)) || (AsleepOnCv(q) && r == OnCv)
    ensures !Drowsy(Roused(q, r), M) || Roused(q, r) == q
  {
  }

  // What each call does, seen from outside: the changes of the shared words, the wake
  // calls and the sleeps between its start and its return.

  datatype Act = Tau | Take(l: Lock) | Give(l: Lock) | Wake(l: Lock) | Count | Cast | Uncount | Sleep | Woken

  /** What p's own step looks like. */
  function ActOf(pc: Pc, mem: Mem, e: Effect): (a: Act) {
    if e.rouse.OnCv? then Cast
    else if e.rouse.OnLock? then Wake(e.rouse.l)
    else if e.mem.m != mem.m then if e.mem.m then Take(M) else Give(M)
    else if e.mem.c != mem.c then if e.mem.c then Take(C) else Give(C)
    else if e.mem.cvnum != mem.cvnum then if e.mem.cvnum == mem.cvnum + 1 then Count else Uncount
    else if AsleepOnCv(e.pc) && !AsleepOnCv(pc) then Sleep
    else Tau
  }

  /** What a step of anybody is to process i. */
  function Seen(s: State, s': State, p: nat, e: Effect, i: nat): (a: Act)
    requires i < |s.pcs| && i < |s'.pcs|
  {
    if i == p then ActOf(s.pcs[i], s.mem, e)
    else if e.rouse.OnCv? && AsleepOnCv(s.pcs[i]) && !AsleepOnCv(s'.pcs[i]) then Woken
    else Tau
  }

  function AddAct(w: seq<Act>, a: Act): (r: seq<Act>) { if a.Tau? then w else w + [a] }

  const Unlocks := [Give(M), Wake(M)]
  const Waits := [Take(C), Give(M), Wake(M), Count, Give(C), Wake(C), Sleep, Woken]

  predicate AtRest(pc: Pc) { pc.Idle? || pc.Hold? }

  /** Process i is at rest at step a and at step b, and in a call in between. */
  ghost predicate Calls(states: seq<State>, i: nat, a: nat, b: nat) {
    && a < b < |states| && i < |states[a].pcs|
    && (forall k :: a <= k <= b ==> i < |states[k].pcs|)
    && AtRest(states[a].pcs[i]) && AtRest(states[b].pcs[i])
    && forall k :: a < k < b ==> !AtRest(states[k].pcs[i])
  }

  /** The acts that i sees from step a to step b. */
  ghost function Acted(states: seq<State>, who: seq<nat>, what: seq<Effect>, i: nat, a: nat, b: nat): (w: seq<Act>)
    requires a <= b <= |who| && |states| == |who| + 1 == |what| + 1
    requires forall k :: a <= k <= b ==> i < |states[k].pcs|
    decreases b
  {
    if a == b then []
    else AddAct(Acted(states, who, what, i, a, b - 1), Seen(states[b - 1], states[b], who[b - 1], what[b - 1], i))
  }

  /** What a process has done of its call when it is at pc. */
  predicate Did(pc: Pc, w: seq<Act>) {
    match pc
    case Locking(_, l, k) => w == (if l.M? && k.Waiter? then Waits else [])
    case Unlocking(at, l, k) =>
      var n := if at.Store? then 0 else if at.WakeRet? then 2 else 1;
      if k.Client? then w == Unlocks[..n]
      else if k.Waiter? then w == Waits[..1 + n]
      else var done := [Give(C), Wake(C)][..n];
           w == [Take(C), Cast] + done || w == [Take(C), Cast, Uncount] + done
    case Waiting(at, _) =>
      w == (match at
            case Read => Waits[..3]
            case Add => Waits[..3]
            case Arg => Waits[..4]
            case Sys2 => Waits[..4]
            case Free => Waits[..4]
            case WakeC => Waits[..5]
            case Test2 => Waits[..6]
            case Sleep2 => Waits[..6]
            case Asleep2 => Waits[..7]
            case _ => Waits)
    case Casting(at, _, _, _) => w == if at.CastSys? || at.CastWake? then [Take(C)] else [Take(C), Cast]
    case _ => true
  }

  /** Whose call it is: where it started, and what its start leads to. */
  datatype Call = LockCall | UnlockCall | WaitCall | CastCall(held: bool)

  predicate InCall(pc: Pc, c: Call) {
    match pc
    case Locking(_, l, k) =>
      if k.Client? then c.LockCall? else if k.Waiter? then c.WaitCall? else c == CastCall(k.held)
    case Unlocking(_, l, k) =>
      if k.Client? then c.UnlockCall? else if k.Waiter? then c.WaitCall? else c == CastCall(k.held)
    case Waiting(_, _) => c.WaitCall?
    case Casting(_, _, _, h) => c == CastCall(h)
    case _ => false
  }

  /** What a whole call does, from rest to rest. */
  predicate Complete(c: Call, from: Pc, to: Pc, w: seq<Act>) {
    match c
    case LockCall => from.Idle? && to.Hold? && w == [Take(M)]
    case UnlockCall => from.Hold? && to.Idle? && w == [Give(M), Wake(M)]
    case WaitCall =>
      && from.Hold? && to.Hold?
      && w == [Take(C), Give(M), Wake(M), Count, Give(C), Wake(C), Sleep, Woken, Take(M)]
    case CastCall(held) =>
      && from == to == (if held then Hold else Idle)
      && (w == [Take(C), Cast, Give(C), Wake(C)] || w == [Take(C), Cast, Uncount, Give(C), Wake(C)])
  }

  /** A step out of rest. */
  lemma StartDid(pc: Pc, mem: Mem, n: nat, e: Effect)
    requires Moves(pc, mem, n, e) && AtRest(pc)
    ensures !AtRest(e.pc) && ActOf(pc, mem, e) == Tau && Did(e.pc, [])
    ensures exists c :: InCall(e.pc, c) && (c.LockCall? ==> pc.Idle?) && (c.UnlockCall? || c.WaitCall? ==> pc.Hold?)
                        && (c.CastCall? ==> pc == if c.held then Hold else Idle)
  {
    var c := if e.pc.Unlocking? then UnlockCall
             else if e.pc.k.Client? then LockCall
             else if e.pc.k.Waiter? then WaitCall else CastCall(e.pc.k.held);
    assert InCall(e.pc, c);
  }

  /** A step inside a call, and the one that ends it. */
  lemma LockDid(pc: Pc, mem: Mem, n: nat, e: Effect, c: Call, w: seq<Act>)
    requires pc.Locking? && Moves(pc, mem, n, e) && Sensible(pc) && InCall(pc, c) && Did(pc, w)
    ensures var w' := AddAct(w, ActOf(pc, mem, e));
            if AtRest(e.pc) then Complete(c, if c.LockCall? then Idle else Hold, e.pc, w')
            else InCall(e.pc, c) && Did(e.pc, w')
  {
  }

  lemma UnlockDid(pc: Pc, mem: Mem, n: nat, e: Effect, c: Call, w: seq<Act>)
    requires pc.Unlocking? && Moves(pc, mem, n, e) && Sensible(pc) && InCall(pc, c) && Did(pc, w)
    requires (HoldsM(pc) ==> mem.m) && (HoldsC(pc) ==> mem.c)
    ensures var w' := AddAct(w, ActOf(pc, mem, e));
            if AtRest(e.pc) then Complete(c, if c.UnlockCall? || c == CastCall(true) then Hold else Idle, e.pc, w')
            else InCall(e.pc, c) && Did(e.pc, w')
  {
  }

  lemma WaitDid(pc: Pc, mem: Mem, n: nat, e: Effect, c: Call, w: seq<Act>)
    requires pc.Waiting? && Moves(pc, mem, n, e) && InCall(pc, c) && Did(pc, w)
    requires (HoldsC(pc) ==> mem.c) && Remembers(pc, mem.cvnum)
    ensures !AtRest(e.pc) && InCall(e.pc, c) && Did(e.pc, AddAct(w, ActOf(pc, mem, e)))
  {
  }

  lemma CastDid(pc: Pc, mem: Mem, n: nat, e: Effect, c: Call, w: seq<Act>)
    requires pc.Casting? && Moves(pc, mem, n, e) && InCall(pc, c) && Did(pc, w)
    requires Remembers(pc, mem.cvnum) && mem.cvnum >= 0
    ensures !AtRest(e.pc) && InCall(e.pc, c) && Did(e.pc, AddAct(w, ActOf(pc, mem, e)))
  {
  }

  lemma RousedDid(s: State, s': State, p: nat, e: Effect, i: nat, c: Call, w: seq<Act>)
    requires Next(s, s', p, e) && i < |s.pcs| && i != p && InCall(s.pcs[i], c) && Did(s.pcs[i], w)
    ensures !AtRest(s'.pcs[i]) && InCall(s'.pcs[i], c) && Did(s'.pcs[i], AddAct(w, Seen(s, s', p, e, i)))
  {
    hide Moves;
    assert s'.pcs[i] == Roused(s.pcs[i], e.rouse);
    if s.pcs[i].Waiting? && s.pcs[i].wa.Asleep2? && e.rouse.OnCv? {
      assert Waits[..7] + [Woken] == Waits;
    }
  }

  lemma CvnumStep(s: State, s': State, p: nat, e: Effect)
    requires Inv(s) && Next(s, s', p, e) && s.mem.cvnum >= 0
    ensures s'.mem.cvnum >= 0
  {
    hide Moves, Exclusive, NoLostWakeup, Gated, SomePostWake, CountedSet;
    var pc, n := s.pcs[p], |SleepersCv(s.pcs)|;
    if IsAdd(pc) {
      AddMove(pc, s.mem, n, e);
    } else if IsCastWake(pc) {
      CastWakeMove(pc, s.mem, n, e);
    } else if IsCastStore(pc) {
      CastStoreMove(pc, s.mem, n, e);
    } else {
      PlainMove(pc, s.mem, n, e);
    }
  }

  lemma {:induction false} CvnumNatural(states: seq<State>, who: seq<nat>, what: seq<Effect>, n: nat, k: nat)
    requires Run(states, who, what, n) && k < |states|
    ensures states[k].mem.cvnum >= 0
    decreases k
  {
    hide Inv, Next;
    if k > 0 {
      CvnumNatural(states, who, what, n, k - 1);
      RunInvariant(states, who, what, n);
      CvnumStep(states[k - 1], states[k], who[k - 1], what[k - 1]);
    }
  }

  lemma HoldersSet(s: State, i: nat)
    requires Inv(s) && i < |s.pcs|
    ensures Sensible(s.pcs[i]) && Remembers(s.pcs[i], s.mem.cvnum)
    ensures (HoldsM(s.pcs[i]) ==> s.mem.m) && (HoldsC(s.pcs[i]) ==> s.mem.c)
  {
    hide Sensible, Remembers, HoldsM, HoldsC, InPt, NoLostWakeup, Gated;
  }

  /** One step of anybody, for a process in the middle of a call that began at from. */
  lemma StepDid(s: State, s': State, p: nat, e: Effect, i: nat, c: Call, w: seq<Act>)
    requires Inv(s) && s.mem.cvnum >= 0 && Next(s, s', p, e) && i < |s.pcs|
    requires !AtRest(s.pcs[i]) && InCall(s.pcs[i], c) && Did(s.pcs[i], w)
    ensures i < |s'.pcs|
    ensures var w' := AddAct(w, Seen(s, s', p, e, i));
            if AtRest(s'.pcs[i]) then Complete(c, FromOf(c), s'.pcs[i], w')
            else InCall(s'.pcs[i], c) && Did(s'.pcs[i], w')
  {
    hide Inv, Moves, InCall, Did, Complete, ActOf, Sensible, Remembers, HoldsM, HoldsC;
    HoldersSet(s, i);
    var pc, n := s.pcs[i], |SleepersCv(s.pcs)|;
    if i != p {
      RousedDid(s, s', p, e, i, c, w);
    } else if pc.Locking? {
      LockDid(pc, s.mem, n, e, c, w);
    } else if pc.Unlocking? {
      UnlockDid(pc, s.mem, n, e, c, w);
    } else if pc.Waiting? {
      WaitDid(pc, s.mem, n, e, c, w);
    } else {
      CastDid(pc, s.mem, n, e, c, w);
    }
  }

  function FromOf(c: Call): (pc: Pc) {
    match c
    case LockCall => Idle
    case CastCall(held) => if held then Hold else Idle
    case _ => Hold
  }

  ghost predicate During(states: seq<State>, who: seq<nat>, what: seq<Effect>, i: nat, a: nat, k: nat, c: Call)
    requires a <= k <= |who| && |states| == |who| + 1 == |what| + 1
    requires forall j :: a <= j <= k ==> i < |states[j].pcs|
  {
    InCall(states[k].pcs[i], c) && Did(states[k].pcs[i], Acted(states, who, what, i, a, k))
  }

  /** The step that starts a call. */
  lemma CallStarts(states: seq<State>, who: seq<nat>, what: seq<Effect>, n: nat, i: nat, a: nat, b: nat)
      returns (c: Call)
    requires Run(states, who, what, n) && Calls(states, i, a, b) && who[a] == i
    ensures a + 1 < b && states[a].pcs[i] == FromOf(c) && During(states, who, what, i, a, a + 1, c)
  {
    var s, s', e := states[a], states[a + 1], what[a];
    assert Next(s, s', i, e);
    StartDid(s.pcs[i], s.mem, |SleepersCv(s.pcs)|, e);
    c :| InCall(e.pc, c) && (c.LockCall? ==> s.pcs[i].Idle?) && (c.UnlockCall? || c.WaitCall? ==> s.pcs[i].Hold?)
         && (c.CastCall? ==> s.pcs[i] == if c.held then Hold else Idle);
    hide Moves, InCall, Did, ActOf;
    assert Acted(states, who, what, i, a, a + 1) == [];
  }

  lemma {:induction false} CallGoesOn(states: seq<State>, who: seq<nat>, what: seq<Effect>, n: nat,
                                      i: nat, a: nat, b: nat, c: Call, k: nat)
    requires Run(states, who, what, n) && Calls(states, i, a, b) && who[a] == i && a < k <= b
    requires a + 1 < b && During(states, who, what, i, a, a + 1, c)
    ensures if k < b then During(states, who, what, i, a, k, c)
            else Complete(c, FromOf(c), states[k].pcs[i], Acted(states, who, what, i, a, k))
    decreases k
  {
    hide InCall, Did, Complete, Next, Inv, Seen;
    if k > a + 1 {
      CallGoesOn(states, who, what, n, i, a, b, c, k - 1);
      RunInvariant(states, who, what, n);
      CvnumNatural(states, who, what, n, k - 1);
      StepDid(states[k - 1], states[k], who[k - 1], what[k - 1], i, c, Acted(states, who, what, i, a, k - 1));
    }
  }

  /** Every call of every run does its work and returns where it should. In particular
      cv_wait gives the mutex back, counts itself, frees cvslock, sleeps, is woken by a
      broadcast, and returns with the mutex taken again. */
  lemma CallsComplete(states: seq<State>, who: seq<nat>, what: seq<Effect>, n: nat, i: nat, a: nat, b: nat)
      returns (c: Call)
    requires Run(states, who, what, n) && Calls(states, i, a, b) && who[a] == i
    ensures a + 1 < b && InCall(states[a + 1].pcs[i], c)
    ensures Complete(c, states[a].pcs[i], states[b].pcs[i], Acted(states, who, what, i, a, b))
  {
    hide InCall, Did, Complete;
    c := CallStarts(states, who, what, n, i, a, b);
    CallGoesOn(states, who, what, n, i, a, b, c, b);
  }

  /** cv_wait returns with the mutex held. */
  lemma WaitReturnsHolding(states: seq<State>, who: seq<nat>, what: seq<Effect>, n: nat, i: nat, a: nat, b: nat)
    requires Run(states, who, what, n) && Calls(states, i, a, b) && who[a] == i
    requires states[a + 1].pcs[i] == Locking(Tas, C, Waiter)
    ensures states[a].pcs[i] == Hold && states[b].pcs[i] == Hold && states[b].mem.m
  {
    var c := CallsComplete(states, who, what, n, i, a, b);
    RunInvariant(states, who, what, n);
    HoldersSet(states[b], i);
  }

  // The calls do return: one process waits, the other broadcasts

  datatype Tale = Tale(states: seq<State>, who: seq<nat>, what: seq<Effect>)

  /** A run of two processes that ends with them at x and y. */
  ghost predicate At(t: Tale, mem: Mem, x: Pc, y: Pc) {
    Run(t.states, t.who, t.what, 2) && t.states[|t.who|] == State(mem, [x, y])
  }

  /** The first process has been in cv_wait since step 2. */
  ghost predicate Within(t: Tale) {
    && |t.states| == |t.who| + 1 > 3 && t.who[2] == 0
    && t.states[2].pcs == [Hold, Idle] && t.states[3].pcs == [Locking(Tas, C, Waiter), Idle]
    && forall k :: 2 < k < |t.states| ==> |t.states[k].pcs| == 2 && !AtRest(t.states[k].pcs[0])
  }

  lemma Go(t: Tale, mem: Mem, x: Pc, y: Pc, p: nat, e: Effect) returns (u: Tale)
    requires At(t, mem, x, y) && p < 2 && Moves([x, y][p], mem, |SleepersCv([x, y])|, e)
    ensures At(u, e.mem, if p == 0 then e.pc else Roused(x, e.rouse), if p == 1 then e.pc else Roused(y, e.rouse))
    ensures u.who == t.who + [p] && t.states == u.states[..|t.states|] && |u.states| == |t.states| + 1
    ensures Within(t) && (p == 0 ==> !AtRest(e.pc)) ==> Within(u)
  {
    hide Moves;
    var s := State(e.mem, RouseAll([x, y], e.rouse)[p := e.pc]);
    u := Tale(t.states + [s], t.who + [p], t.what + [e]);
    assert Next(t.states[|t.who|], s, p, e);
    assert s.pcs == [if p == 0 then e.pc else Roused(x, e.rouse), if p == 1 then e.pc else Roused(y, e.rouse)];
    if Within(t) && (p == 0 ==> !AtRest(e.pc)) {
      assert t.states[|t.who|].pcs[0] == x;
    }
  }

  lemma TaleBegins() returns (u: Tale)
    ensures At(u, Mem(true, false, 0, false), Locking(Tas, C, Waiter), Idle) && Within(u)
  {
    hide Within;
    u := Tale([Initial(2)], [], []);
    assert Initial(2).pcs == [Idle, Idle];
    u := Go(u, Mem(false, false, 0, false), Idle, Idle, 0,
            Effect(Locking(Tas, M, Client), Mem(false, false, 0, false), Nobody));
    u := Go(u, Mem(false, false, 0, false), Locking(Tas, M, Client), Idle, 0,
            Effect(Hold, Mem(true, false, 0, false), Nobody));
    u := Go(u, Mem(true, false, 0, false), Hold, Idle, 0,
            Effect(Locking(Tas, C, Waiter), Mem(true, false, 0, false), Nobody));
    Enters(u);
  }

  lemma Enters(u: Tale)
    requires At(u, Mem(true, false, 0, false), Locking(Tas, C, Waiter), Idle) && u.who == [0, 0, 0]
    ensures Within(u)
  {
    assert Next(u.states[2], u.states[3], 0, u.what[2]) && Next(u.states[1], u.states[2], 0, u.what[1]);
    assert Next(u.states[0], u.states[1], 0, u.what[0]);
  }

  lemma TaleUnlocks(t: Tale) returns (u: Tale)
    requires At(t, Mem(true, false, 0, false), Locking(Tas, C, Waiter), Idle) && Within(t)
    ensures At(u, Mem(false, true, 0, false), Waiting(Read, 0), Idle) && Within(u)
  {
    hide At, Within, SleepersCv;
    u := t;
    u := Go(u, Mem(true, false, 0, false), Locking(Tas, C, Waiter), Idle, 0,
            Effect(Unlocking(Store, M, Waiter), Mem(true, true, 0, false), Nobody));
    u := Go(u, Mem(true, true, 0, false), Unlocking(Store, M, Waiter), Idle, 0,
            Effect(Unlocking(WakeSys, M, Waiter), Mem(false, true, 0, false), Nobody));
    u := Go(u, Mem(false, true, 0, false), Unlocking(WakeSys, M, Waiter), Idle, 0,
            Effect(Unlocking(WakeAll, M, Waiter), Mem(false, true, 0, true), Nobody));
    u := Go(u, Mem(false, true, 0, true), Unlocking(WakeAll, M, Waiter), Idle, 0,
            Effect(Unlocking(WakeRet, M, Waiter), Mem(false, true, 0, true), OnLock(M)));
    u := Go(u, Mem(false, true, 0, true), Unlocking(WakeRet, M, Waiter), Idle, 0,
            Effect(Waiting(Read, 0), Mem(false, true, 0, false), Nobody));
  }

  lemma TaleSleeps(t: Tale) returns (u: Tale)
    requires At(t, Mem(false, true, 0, false), Waiting(Read, 0), Idle) && Within(t)
    ensures At(u, Mem(false, false, 1, false), Waiting(Asleep2, 1), Idle) && Within(u)
  {
    hide At, Within, SleepersCv;
    u := t;
    u := Go(u, Mem(false, true, 0, false), Waiting(Read, 0), Idle, 0,
            Effect(Waiting(Add, 0), Mem(false, true, 0, false), Nobody));
    u := Go(u, Mem(false, true, 0, false), Waiting(Add, 0), Idle, 0,
            Effect(Waiting(Arg, 0), Mem(false, true, 1, false), Nobody));
    u := Go(u, Mem(false, true, 1, false), Waiting(Arg, 0), Idle, 0,
            Effect(Waiting(Sys2, 1), Mem(false, true, 1, false), Nobody));
    u := Go(u, Mem(false, true, 1, false), Waiting(Sys2, 1), Idle, 0,
            Effect(Waiting(Free, 1), Mem(false, true, 1, true), Nobody));
    u := Go(u, Mem(false, true, 1, true), Waiting(Free, 1), Idle, 0,
            Effect(Waiting(WakeC, 1), Mem(false, false, 1, true), Nobody));
    u := Go(u, Mem(false, false, 1, true), Waiting(WakeC, 1), Idle, 0,
            Effect(Waiting(Test2, 1), Mem(false, false, 1, true), OnLock(C)));
    u := Go(u, Mem(false, false, 1, true), Waiting(Test2, 1), Idle, 0,
            Effect(Waiting(Sleep2, 1), Mem(false, false, 1, true), Nobody));
    u := Go(u, Mem(false, false, 1, true), Waiting(Sleep2, 1), Idle, 0,
            Effect(Waiting(Asleep2, 1), Mem(false, false, 1, false), Nobody));
  }

  lemma TaleCasts(t: Tale) returns (u: Tale)
    requires At(t, Mem(false, false, 1, false), Waiting(Asleep2, 1), Idle) && Within(t)
    ensures At(u, Mem(false, true, 1, false), Waiting(Awake2, 1), Casting(CastStore, 1, 1, false)) && Within(u)
  {
    hide At, Within;
    u := t;
    u := Go(u, Mem(false, false, 1, false), Waiting(Asleep2, 1), Idle, 1,
            Effect(Locking(Tas, C, Caster(false)), Mem(false, false, 1, false), Nobody));
    u := Go(u, Mem(false, false, 1, false), Waiting(Asleep2, 1), Locking(Tas, C, Caster(false)), 1,
            Effect(Casting(CastSys, 0, 0, false), Mem(false, true, 1, false), Nobody));
    u := Go(u, Mem(false, true, 1, false), Waiting(Asleep2, 1), Casting(CastSys, 0, 0, false), 1,
            Effect(Casting(CastWake, 0, 0, false), Mem(false, true, 1, true), Nobody));
    assert SleepersCv([Waiting(Asleep2, 1), Casting(CastWake, 0, 0, false)]) == {0};
    u := Go(u, Mem(false, true, 1, true), Waiting(Asleep2, 1), Casting(CastWake, 0, 0, false), 1,
            Effect(Casting(CastRet, 1, 0, false), Mem(false, true, 1, true), OnCv));
    u := Go(u, Mem(false, true, 1, true), Waiting(Awake2, 1), Casting(CastRet, 1, 0, false), 1,
            Effect(Casting(CastTest, 1, 0, false), Mem(false, true, 1, false), Nobody));
    u := Go(u, Mem(false, true, 1, false), Waiting(Awake2, 1), Casting(CastTest, 1, 0, false), 1,
            Effect(Casting(CastLoad, 1, 0, false), Mem(false, true, 1, false), Nobody));
    u := Go(u, Mem(false, true, 1, false), Waiting(Awake2, 1), Casting(CastLoad, 1, 0, false), 1,
            Effect(Casting(CastStore, 1, 1, false), Mem(false, true, 1, false), Nobody));
  }

  lemma TaleEnds(t: Tale) returns (u: Tale)
    requires At(t, Mem(false, true, 1, false), Waiting(Awake2, 1), Casting(CastStore, 1, 1, false)) && Within(t)
    ensures At(u, Mem(false, false, 0, false), Locking(Tas, M, Waiter), Idle) && Within(u)
  {
    hide At, Within, SleepersCv;
    u := t;
    u := Go(u, Mem(false, true, 1, false), Waiting(Awake2, 1), Casting(CastStore, 1, 1, false), 1,
            Effect(Unlocking(Store, C, Caster(false)), Mem(false, true, 0, false), Nobody));
    u := Go(u, Mem(false, true, 0, false), Waiting(Awake2, 1), Unlocking(Store, C, Caster(false)), 1,
            Effect(Unlocking(WakeSys, C, Caster(false)), Mem(false, false, 0, false), Nobody));
    u := Go(u, Mem(false, false, 0, false), Waiting(Awake2, 1), Unlocking(WakeSys, C, Caster(false)), 1,
            Effect(Unlocking(WakeAll, C, Caster(false)), Mem(false, false, 0, true), Nobody));
    u := Go(u, Mem(false, false, 0, true), Waiting(Awake2, 1), Unlocking(WakeAll, C, Caster(false)), 1,
            Effect(Unlocking(WakeRet, C, Caster(false)), Mem(false, false, 0, true), OnLock(C)));
    u := Go(u, Mem(false, false, 0, true), Waiting(Awake2, 1), Unlocking(WakeRet, C, Caster(false)), 1,
            Effect(Idle, Mem(false, false, 0, false), Nobody));
    u := Go(u, Mem(false, false, 0, false), Waiting(Awake2, 1), Idle, 0,
            Effect(Waiting(Ret2, 1), Mem(false, false, 0, true), Nobody));
    u := Go(u, Mem(false, false, 0, true), Waiting(Ret2, 1), Idle, 0,
            Effect(Locking(Tas, M, Waiter), Mem(false, false, 0, false), Nobody));
  }

  /** Over a run, cv_wait sleeps, is woken by a broadcast and returns. */
  lemma WaiterReturns() returns (u: Tale, b: nat)
    ensures Run(u.states, u.who, u.what, 2) && Calls(u.states, 0, 2, b) && u.who[2] == 0
    ensures u.states[3].pcs[0] == Locking(Tas, C, Waiter) && u.states[b].pcs[0] == Hold
  {
    hide Moves, Run, Roused;
    var t := TaleBegins();
    t := TaleUnlocks(t);
    t := TaleSleeps(t);
    t := TaleCasts(t);
    t := TaleEnds(t);
    u := TaleReturns(t);
    b := |u.who|;
  }

  lemma TaleReturns(t: Tale) returns (u: Tale)
    requires At(t, Mem(false, false, 0, false), Locking(Tas, M, Waiter), Idle) && Within(t)
    ensures At(u, Mem(true, false, 0, false), Hold, Idle) && u.who == t.who + [0]
            && t.states == u.states[..|t.states|] && |u.states| == |t.states| + 1
  {
    hide At, Within, SleepersCv;
    u := t;
    u := Go(u, Mem(false, false, 0, false), Locking(Tas, M, Waiter), Idle, 0,
            Effect(Hold, Mem(true, false, 0, false), Nobody));
  }
}
