/** Sleep locks (sleeplock.c) over sleep and wakeup (proc.c): every interleaving of
    acquiresleep and releasesleep, down to the two spin locks they take. */
module SleepLock {
  import opened Wrappers

  /** Where a process is. L and P name the spin locks it holds there: lk->lk and
      ptable.lock. */
  datatype Pc =
    | Out            // not using the lock
    | OutP           // somewhere else under ptable.lock
    | Want           // acquire(&lk->lk), on entry or after sleep
    | TestL          // while (lk->locked)
    | SleepL         // in sleep, about to acquire ptable.lock
    | SleepLP        // both held, about to release lk->lk
    | SleepP         // about to become SLEEPING
    | Asleep         // SLEEPING on lk
    | Woken          // runnable again, still in sleep
    | TakenL         // lk->locked = 1, about to release
    | Holding        // acquiresleep has returned
    | RelWant        // releasesleep: acquire(&lk->lk)
    | RelL           // about to clear lk->locked
    | RelWakeL       // cleared, on the way to wakeup
    | RelWakeLP      // in wakeup, about to scan the table
    | RelDoneL       // about to release

  /** owner is lk->pid, by slot. */
  datatype State = State(pc: seq<Pc>, lk: Option<nat>, pt: Option<nat>, locked: bool, owner: Option<nat>)

  predicate HasL(c: Pc) {
    || c == TestL || c == SleepL || c == SleepLP || c == TakenL
    || c == RelL || c == RelWakeL || c == RelWakeLP || c == RelDoneL
  }

  predicate HasP(c: Pc) { c == OutP || c == SleepLP || c == SleepP || c == RelWakeLP }

  /** Owns the sleep lock. */
  predicate Owns(c: Pc) { c == TakenL || c == Holding || c == RelWant || c == RelL }

  /** On the way to wakeup. */
  predicate Waking(c: Pc) { c == RelWakeL || c == RelWakeLP }

  /** Asleep, or in sleep on the way there. */
  predicate Sleeping(c: Pc) { c == SleepL || c == SleepLP || c == SleepP || c == Asleep }

  /** In releasesleep, past the assignment to lk->locked. */
  predicate Cleared(c: Pc) { Waking(c) || c == RelDoneL }

  function WakeAll(pc: seq<Pc>): (r: seq<Pc>) {
    seq(|pc|, i requires 0 <= i < |pc| => if pc[i] == Asleep then Woken else pc[i])
  }

  /** One step of process p: what it does with the locks, and its next place. Killed
      sleepers wake by themselves. */
  ghost predicate Next(s: State, p: nat, t: State) {
    && p < |s.pc|
    && match s.pc[p]
       case Out =>
         (t == s.(pc := s.pc[p := Want])) || (s.pt.None? && t == s.(pc := s.pc[p := OutP], pt := Some(p)))
       case OutP => t == s.(pc := s.pc[p := Out], pt := None)
       case Want => s.lk.None? && t == s.(pc := s.pc[p := TestL], lk := Some(p))
       case TestL =>
         if s.locked then t == s.(pc := s.pc[p := SleepL])
         else t == s.(pc := s.pc[p := TakenL], locked := true, owner := Some(p))
       case SleepL => s.pt.None? && t == s.(pc := s.pc[p := SleepLP], pt := Some(p))
       case SleepLP => t == s.(pc := s.pc[p := SleepP], lk := None)
       case SleepP => t == s.(pc := s.pc[p := Asleep], pt := None)
       case Asleep => s.pt.None? && t == s.(pc := s.pc[p := Woken])
       case Woken => s.pt.None? && t == s.(pc := s.pc[p := Want])
       case TakenL => t == s.(pc := s.pc[p := Holding], lk := None)
       case Holding => t == s.(pc := s.pc[p := RelWant])
       case RelWant => s.lk.None? && t == s.(pc := s.pc[p := RelL], lk := Some(p))
       case RelL => t == s.(pc := s.pc[p := RelWakeL], locked := false, owner := None)
       case RelWakeL => s.pt.None? && t == s.(pc := s.pc[p := RelWakeLP], pt := Some(p))
       case RelWakeLP => t == s.(pc := WakeAll(s.pc)[p := RelDoneL], pt := None)
       case RelDoneL => t == s.(pc := s.pc[p := Out], lk := None)
  }

  // The invariant

  /** Each spin lock is held by whom it says, the sleep lock by its owner. */
  ghost predicate LOk(s: State, p: nat)
    requires p < |s.pc|
  {
    HasL(s.pc[p]) <==> s.lk == Some(p)
  }

  ghost predicate POk(s: State, p: nat)
    requires p < |s.pc|
  {
    HasP(s.pc[p]) <==> s.pt == Some(p)
  }

  ghost predicate OwnOk(s: State, p: nat)
    requires p < |s.pc|
  {
    Owns(s.pc[p]) <==> s.locked && s.owner == Some(p)
  }

  /** Who is on the way to sleep saw the lock taken; who is about to sleep or asleep
      will be woken if it no longer is. */
  ghost predicate SleepOk(s: State, p: nat)
    requires p < |s.pc|
  {
    && (s.pc[p] == SleepL || s.pc[p] == SleepLP ==> s.locked)
    && (s.pc[p] == SleepP || s.pc[p] == Asleep ==> s.locked || Coming(s))
  }

  /** Until its releaser is out, a lock stays cleared. */
  ghost predicate ClearOk(s: State, p: nat)
    requires p < |s.pc|
  {
    Cleared(s.pc[p]) ==> !s.locked
  }

  /** A releaser has cleared the lock and will call wakeup. */
  ghost predicate Coming(s: State) { s.lk.Some? && s.lk.value < |s.pc| && Waking(s.pc[s.lk.value]) }

  ghost predicate Inv(s: State) {
    && (forall p :: 0 <= p < |s.pc| ==> LOk(s, p))
    && (forall p :: 0 <= p < |s.pc| ==> POk(s, p))
    && (forall p :: 0 <= p < |s.pc| ==> OwnOk(s, p))
    && (forall p :: 0 <= p < |s.pc| ==> SleepOk(s, p))
    && (forall p :: 0 <= p < |s.pc| ==> ClearOk(s, p))
  }

  ghost predicate Init(s: State) {
    && (forall p :: 0 <= p < |s.pc| ==> s.pc[p] == Out)
    && s.lk.None? && s.pt.None? && !s.locked && s.owner.None?
  }

  ghost predicate Run(states: seq<State>, who: seq<nat>) {
    && |states| == |who| + 1 && Init(states[0])
    && forall n :: 0 <= n < |who| ==> Next(states[n], who[n], states[n + 1])
  }

  // Every step keeps it

  lemma LStep(s: State, p: nat, t: State, q: nat)
    requires Inv(s) && Next(s, p, t) && q < |s.pc|
    ensures |t.pc| == |s.pc| && LOk(t, q)
  {
    hide POk, OwnOk, SleepOk;
    assert LOk(s, p) && LOk(s, q);
  }

  lemma PStep(s: State, p: nat, t: State, q: nat)
    requires Inv(s) && Next(s, p, t) && q < |s.pc|
    ensures |t.pc| == |s.pc| && POk(t, q)
  {
    hide LOk, OwnOk, SleepOk;
    assert POk(s, p) && POk(s, q);
  }

  lemma OwnStep(s: State, p: nat, t: State, q: nat)
    requires Inv(s) && Next(s, p, t) && q < |s.pc|
    ensures |t.pc| == |s.pc| && OwnOk(t, q)
  {
    hide LOk, POk, SleepOk;
    assert OwnOk(s, p) && OwnOk(s, q);
  }

  lemma OnTheWay(s: State, p: nat, t: State, q: nat)
    requires Inv(s) && Next(s, p, t) && q < |s.pc|
    ensures |t.pc| == |s.pc| && (t.pc[q] == SleepL || t.pc[q] == SleepLP ==> t.locked)
  {
    hide OwnOk, POk;
    assert LOk(s, p) && LOk(s, q) && SleepOk(s, q);
  }

  /** Who is about to sleep holds ptable.lock, so wakeup is not scanning. */
  lemma NearlyAsleep(s: State, p: nat, t: State, q: nat)
    requires Inv(s) && Next(s, p, t) && q < |s.pc|
    ensures |t.pc| == |s.pc| && (t.pc[q] == SleepP || t.pc[q] == Asleep ==> t.locked || Coming(t))
  {
    hide OwnOk;
    assert LOk(s, p) && POk(s, p) && POk(s, q) && SleepOk(s, q);
  }

  /** Only who holds lk->lk touches the lock word or leaves the way to wakeup, and
      wakeup leaves nobody asleep. */
  lemma SleepStep(s: State, p: nat, t: State, q: nat)
    requires Inv(s) && Next(s, p, t) && q < |s.pc|
    ensures |t.pc| == |s.pc| && SleepOk(t, q)
  {
    hide Inv, Next;
    OnTheWay(s, p, t, q);
    NearlyAsleep(s, p, t, q);
  }

  lemma ClearStep(s: State, p: nat, t: State, q: nat)
    requires Inv(s) && Next(s, p, t) && q < |s.pc|
    ensures |t.pc| == |s.pc| && ClearOk(t, q)
  {
    hide OwnOk, POk, SleepOk;
    assert LOk(s, p) && LOk(s, q) && ClearOk(s, q);
  }

  lemma InvStep(s: State, p: nat, t: State)
    requires Inv(s) && Next(s, p, t)
    ensures Inv(t)
  {
    hide LOk, POk, OwnOk, SleepOk, ClearOk, Next;
    SameSize(s, p, t);
    forall q | 0 <= q < |t.pc| ensures LOk(t, q) { LStep(s, p, t, q); }
    forall q | 0 <= q < |t.pc| ensures POk(t, q) { PStep(s, p, t, q); }
    forall q | 0 <= q < |t.pc| ensures OwnOk(t, q) { OwnStep(s, p, t, q); }
    forall q | 0 <= q < |t.pc| ensures SleepOk(t, q) { SleepStep(s, p, t, q); }
    forall q | 0 <= q < |t.pc| ensures ClearOk(t, q) { ClearStep(s, p, t, q); }
  }

  lemma SameSize(s: State, p: nat, t: State)
    requires Next(s, p, t)
    ensures |t.pc| == |s.pc|
  {
  }

  lemma {:induction false} RunInvariant(states: seq<State>, who: seq<nat>, n: nat)
    requires Run(states, who) && n < |states|
    ensures Inv(states[n])
    decreases n
  {
    hide Next;
    if n > 0 {
      RunInvariant(states, who, n - 1);
      assert Next(states[n - 1], who[n - 1], states[n]);
      InvStep(states[n - 1], who[n - 1], states[n]);
    }
  }

  // Theorems

  /** At most one process owns the sleep lock, and lk->pid names it. */
  lemma MutualExclusion(states: seq<State>, who: seq<nat>, n: nat, p: nat, q: nat)
    requires Run(states, who) && n < |states| && p < |states[n].pc| && q < |states[n].pc|
    requires Owns(states[n].pc[p]) && Owns(states[n].pc[q])
    ensures p == q && states[n].locked && states[n].owner == Some(p)
  {
    hide Next, Run, LOk, POk, SleepOk;
    RunInvariant(states, who, n);
    assert OwnOk(states[n], p) && OwnOk(states[n], q);
  }

  /** While the lock is free and nobody is on the way to wakeup, nobody is asleep on
      it, or about to be. */
  lemma NoLostWakeup(states: seq<State>, who: seq<nat>, n: nat, p: nat)
    requires Run(states, who) && n < |states| && p < |states[n].pc| && !states[n].locked
    requires forall q :: 0 <= q < |states[n].pc| ==> !Waking(states[n].pc[q])
    ensures !Sleeping(states[n].pc[p])
  {
    hide Next, Run, LOk, POk, OwnOk;
    RunInvariant(states, who, n);
    assert SleepOk(states[n], p);
  }

  /** When a releaser is done, the lock is free and nobody sleeps on it. */
  lemma ReleaseWakesAll(states: seq<State>, who: seq<nat>, n: nat, p: nat, q: nat)
    requires Run(states, who) && n < |states| && p < |states[n].pc| && q < |states[n].pc|
    requires states[n].pc[p] == RelDoneL
    ensures states[n].lk == Some(p) && !states[n].locked && !Sleeping(states[n].pc[q])
  {
    hide Next, Run, POk, OwnOk;
    RunInvariant(states, who, n);
    assert SleepOk(states[n], q) && ClearOk(states[n], p) && LOk(states[n], p);
  }

  // What each call does, from its start to its return

  /** Not in acquiresleep or releasesleep. */
  predicate AtRest(c: Pc) { c == Out || c == OutP || c == Holding }

  /** What a step does to the lock. */
  datatype Act = Tau | Take | Give

  function ActOf(s: State, t: State): (a: Act) {
    if s.locked == t.locked then Tau else if t.locked then Take else Give
  }

  function AddAct(w: seq<Act>, a: Act): (r: seq<Act>) { if a.Tau? then w else w + [a] }

  /** Process i is at rest at step a and at step b, and in a call in between. */
  ghost predicate Calls(states: seq<State>, i: nat, a: nat, b: nat) {
    && a < b < |states| && (forall k :: a <= k <= b ==> i < |states[k].pc|)
    && AtRest(states[a].pc[i]) && AtRest(states[b].pc[i]) && forall k :: a < k < b ==> !AtRest(states[k].pc[i])
  }

  /** What i itself did to the lock from step a to step b. */
  ghost function Acted(states: seq<State>, who: seq<nat>, i: nat, a: nat, b: nat): (w: seq<Act>)
    requires a <= b <= |who| && |states| == |who| + 1
    decreases b
  {
    if a == b then []
    else
      var w := Acted(states, who, i, a, b - 1);
      if who[b - 1] == i then AddAct(w, ActOf(states[b - 1], states[b])) else w
  }

  predicate Acquiring(c: Pc) {
    || c == Want || c == TestL || c == SleepL || c == SleepLP || c == SleepP || c == Asleep || c == Woken
    || c == TakenL
  }

  /** What a process has done of its call when it is at c. */
  predicate Did(c: Pc, w: seq<Act>) {
    if Acquiring(c) then w == (if c == TakenL then [Take] else [])
    else w == if Cleared(c) then [Give] else []
  }

  /** One step for a process in a call: its own, or another's. */
  lemma OwnStepDid(s: State, p: nat, t: State, w: seq<Act>)
    requires Inv(s) && Next(s, p, t) && !AtRest(s.pc[p]) && Did(s.pc[p], w)
    ensures p < |t.pc|
    ensures var w' := AddAct(w, ActOf(s, t));
            if !AtRest(t.pc[p]) then Did(t.pc[p], w') && (Acquiring(t.pc[p]) <==> Acquiring(s.pc[p]))
            else if Acquiring(s.pc[p]) then t.pc[p] == Holding && w' == [Take] && t.locked && t.owner == Some(p)
            else t.pc[p] == Out && w' == [Give]
  {
    hide LOk, POk, SleepOk;
    assert OwnOk(s, p) && ClearOk(s, p);
  }

  lemma OtherStepDid(s: State, p: nat, t: State, i: nat)
    requires Next(s, p, t) && i < |s.pc| && i != p && !AtRest(s.pc[i])
    ensures i < |t.pc| && (t.pc[i] == s.pc[i] || (s.pc[i] == Asleep && t.pc[i] == Woken))
  {
  }

  lemma StepDid(s: State, p: nat, t: State, i: nat, w: seq<Act>)
    requires Inv(s) && Next(s, p, t) && i < |s.pc| && !AtRest(s.pc[i]) && Did(s.pc[i], w)
    ensures i < |t.pc|
    ensures var w' := if p == i then AddAct(w, ActOf(s, t)) else w;
            if !AtRest(t.pc[i]) then Did(t.pc[i], w') && (Acquiring(t.pc[i]) <==> Acquiring(s.pc[i]))
            else if Acquiring(s.pc[i]) then t.pc[i] == Holding && w' == [Take] && t.locked && t.owner == Some(i)
            else t.pc[i] == Out && w' == [Give]
  {
    hide Inv, Next, ActOf;
    if p == i {
      OwnStepDid(s, p, t, w);
    } else {
      OtherStepDid(s, p, t, i);
    }
  }

  lemma StartDid(s: State, p: nat, t: State)
    requires Next(s, p, t) && AtRest(s.pc[p])
    ensures ActOf(s, t) == Tau && |t.pc| == |s.pc|
    ensures !AtRest(t.pc[p]) ==> Did(t.pc[p], []) && (Acquiring(t.pc[p]) <==> s.pc[p] == Out)
    ensures s.pc[p] == Holding ==> !AtRest(t.pc[p])
  {
  }

  lemma {:induction false} CallGoesOn(states: seq<State>, who: seq<nat>, i: nat, a: nat, b: nat, k: nat)
    requires Run(states, who) && Calls(states, i, a, b) && who[a] == i && a + 1 < b && a < k < b
    ensures Did(states[k].pc[i], Acted(states, who, i, a, k))
    ensures Acquiring(states[k].pc[i]) <==> states[a].pc[i] == Out
    decreases k
  {
    hide Next, Did, Inv, ActOf, AtRest, Acquiring;
    if k == a + 1 {
      assert Next(states[a], i, states[a + 1]);
      StartDid(states[a], i, states[a + 1]);
      assert Acted(states, who, i, a, a + 1) == [];
    } else {
      CallGoesOn(states, who, i, a, b, k - 1);
      RunInvariant(states, who, k - 1);
      assert Next(states[k - 1], who[k - 1], states[k]);
      StepDid(states[k - 1], who[k - 1], states[k], i, Acted(states, who, i, a, k - 1));
    }
  }

  /** Every acquiresleep that returns has taken the lock, once, and its caller owns it;
      every releasesleep has given it up, once. */
  lemma CallsComplete(states: seq<State>, who: seq<nat>, i: nat, a: nat, b: nat)
    requires Run(states, who) && Calls(states, i, a, b) && who[a] == i && a + 1 < b
    ensures states[a].pc[i] == Out ==>
              states[b].pc[i] == Holding && Acted(states, who, i, a, b) == [Take]
              && states[b].locked && states[b].owner == Some(i)
    ensures states[a].pc[i] == Holding ==> states[b].pc[i] == Out && Acted(states, who, i, a, b) == [Give]
  {
    hide Next, Did, Inv, ActOf;
    CallGoesOn(states, who, i, a, b, b - 1);
    RunInvariant(states, who, b - 1);
    assert Next(states[b - 1], who[b - 1], states[b]);
    StepDid(states[b - 1], who[b - 1], states[b], i, Acted(states, who, i, a, b - 1));
  }

  // A process that has to wait for the lock gets it

  ghost predicate At(states: seq<State>, who: seq<nat>, s: State) {
    Run(states, who) && states[|who|] == s
  }

  lemma Go(states: seq<State>, who: seq<nat>, s: State, p: nat, t: State) returns (states': seq<State>, who': seq<nat>)
    requires At(states, who, s) && Next(s, p, t)
    ensures At(states', who', t) && who' == who + [p] && states' == states + [t]
  {
    hide Next, Init;
    states', who' := states + [t], who + [p];
  }

  lemma TwoMeet() returns (states: seq<State>, who: seq<nat>)
    ensures At(states, who, State([Holding, Asleep], None, None, true, Some(0)))
  {
    hide At;
    states, who := [State([Out, Out], None, None, false, None)], [];
    assert At(states, who, State([Out, Out], None, None, false, None)) by { Alone(states, who); }
    states, who := Go(states, who, State([Out, Out], None, None, false, None), 0,
                      State([Want, Out], None, None, false, None));
    states, who := Go(states, who, State([Want, Out], None, None, false, None), 0,
                      State([TestL, Out], Some(0), None, false, None));
    states, who := Go(states, who, State([TestL, Out], Some(0), None, false, None), 0,
                      State([TakenL, Out], Some(0), None, true, Some(0)));
    states, who := Go(states, who, State([TakenL, Out], Some(0), None, true, Some(0)), 0,
                      State([Holding, Out], None, None, true, Some(0)));
    states, who := Go(states, who, State([Holding, Out], None, None, true, Some(0)), 1,
                      State([Holding, Want], None, None, true, Some(0)));
    states, who := Go(states, who, State([Holding, Want], None, None, true, Some(0)), 1,
                      State([Holding, TestL], Some(1), None, true, Some(0)));
    states, who := Go(states, who, State([Holding, TestL], Some(1), None, true, Some(0)), 1,
                      State([Holding, SleepL], Some(1), None, true, Some(0)));
    states, who := Go(states, who, State([Holding, SleepL], Some(1), None, true, Some(0)), 1,
                      State([Holding, SleepLP], Some(1), Some(1), true, Some(0)));
    states, who := Go(states, who, State([Holding, SleepLP], Some(1), Some(1), true, Some(0)), 1,
                      State([Holding, SleepP], None, Some(1), true, Some(0)));
    states, who := Go(states, who, State([Holding, SleepP], None, Some(1), true, Some(0)), 1,
                      State([Holding, Asleep], None, None, true, Some(0)));
  }

  lemma Alone(states: seq<State>, who: seq<nat>)
    requires states == [State([Out, Out], None, None, false, None)] && who == []
    ensures At(states, who, states[0])
  {
  }

  /** A run in which a process sleeps on a lock, is woken by its releaser and gets it. */
  lemma SleeperGetsLock() returns (states: seq<State>, who: seq<nat>, k: nat)
    ensures Run(states, who) && k < |who| && |states[k].pc| == 2 && states[k].pc[1] == Asleep
            && states[k].owner == Some(0)
    ensures states[|who|].pc == [Out, Holding] && states[|who|].owner == Some(1)
  {
    hide At;
    states, who := TwoMeet();
    k := |who|;
    var at := states;
    Ended(states, who, State([Holding, Asleep], None, None, true, Some(0)));
    states, who := Go(states, who, State([Holding, Asleep], None, None, true, Some(0)), 0,
                      State([RelWant, Asleep], None, None, true, Some(0)));
    states, who := Go(states, who, State([RelWant, Asleep], None, None, true, Some(0)), 0,
                      State([RelL, Asleep], Some(0), None, true, Some(0)));
    states, who := Go(states, who, State([RelL, Asleep], Some(0), None, true, Some(0)), 0,
                      State([RelWakeL, Asleep], Some(0), None, false, None));
    states, who := Go(states, who, State([RelWakeL, Asleep], Some(0), None, false, None), 0,
                      State([RelWakeLP, Asleep], Some(0), Some(0), false, None));
    states, who := Go(states, who, State([RelWakeLP, Asleep], Some(0), Some(0), false, None), 0,
                      State([RelDoneL, Woken], Some(0), None, false, None));
    states, who := Go(states, who, State([RelDoneL, Woken], Some(0), None, false, None), 0,
                      State([Out, Woken], None, None, false, None));
    states, who := Go(states, who, State([Out, Woken], None, None, false, None), 1,
                      State([Out, Want], None, None, false, None));
    states, who := Go(states, who, State([Out, Want], None, None, false, None), 1,
                      State([Out, TestL], Some(1), None, false, None));
    states, who := Go(states, who, State([Out, TestL], Some(1), None, false, None), 1,
                      State([Out, TakenL], Some(1), None, true, Some(1)));
    states, who := Go(states, who, State([Out, TakenL], Some(1), None, true, Some(1)), 1,
                      State([Out, Holding], None, None, true, Some(1)));
    Ended(states, who, State([Out, Holding], None, None, true, Some(1)));
    assert at[k] == states[k];
  }

  lemma Ended(states: seq<State>, who: seq<nat>, s: State)
    requires At(states, who, s)
    ensures Run(states, who) && |states| == |who| + 1 && states[|who|] == s
  {
  }
}
