/** The process table (proc.c): fork, exit, wait, kill, sleep and wakeup as updates
    of ptable.proc, the loops that make them, and what every run of them keeps. */
module ProcTree {
  import opened Wrappers

  datatype PState = UNUSED | EMBRYO | SLEEPING | RUNNABLE | RUNNING | ZOMBIE

  /** What a process sleeps on: a process (in wait) or some other address. */
  datatype Chan = NoChan | OfProc(slot: nat) | Other(addr: nat)

  /** Parents are slots of the table. */
  datatype Proc = Proc(state: PState, pid: nat, parent: Option<nat>, chan: Chan, killed: bool)

  predicate Live(p: Proc) { p.state == SLEEPING || p.state == RUNNABLE || p.state == RUNNING }

  // What the operations do to the table

  function Wake(p: Proc, chan: Chan): (r: Proc) {
    if p.state == SLEEPING && p.chan == chan then p.(state := RUNNABLE) else p
  }

  function Woken(t: seq<Proc>, chan: Chan): (r: seq<Proc>) {
    seq(|t|, i requires 0 <= i < |t| => Wake(t[i], chan))
  }

  function Sleepers(t: seq<Proc>, chan: Chan): (r: nat) {
    if t == [] then 0
    else (if t[|t| - 1].state == SLEEPING && t[|t| - 1].chan == chan then 1 else 0) + Sleepers(t[..|t| - 1], chan)
  }

  /** c has a child that already exited. */
  ghost predicate HasZombie(t: seq<Proc>, c: nat) {
    exists i :: 0 <= i < |t| && t[i].parent == Some(c) && t[i].state == ZOMBIE
  }

  /** One slot after exit of c: its parent is woken; its children go to init, which
      is woken too if one of them is a zombie. */
  ghost function ExitSlot(t: seq<Proc>, c: nat, init: nat, i: nat): (r: Proc)
    requires c < |t| && i < |t|
  {
    var p := t[i];
    var woken := p.state == SLEEPING &&
                 ((t[c].parent.Some? && p.chan == OfProc(t[c].parent.value))
                  || (p.chan == OfProc(init) && HasZombie(t, c)));
    var p' := if woken then p.(state := RUNNABLE) else p;
    var p'' := if p.parent == Some(c) then p'.(parent := Some(init)) else p';
    if i == c then p''.(state := ZOMBIE) else p''
  }

  ghost predicate Exited(t: seq<Proc>, t': seq<Proc>, c: nat, init: nat)
    requires c < |t|
  {
    |t'| == |t| && forall i :: 0 <= i < |t| ==> t'[i] == ExitSlot(t, c, init, i)
  }

  /** A reaped slot. The channel is left as it is. */
  function Cleared(p: Proc): (r: Proc) { Proc(UNUSED, 0, None, p.chan, false) }

  datatype WaitResult = Reaped(slot: nat, pid: nat) | NoKids | MustSleep

  /** What one scan of wait finds. */
  ghost predicate WaitFinds(t: seq<Proc>, c: nat, r: WaitResult)
    requires c < |t|
  {
    match r
    case Reaped(k, pid) => k < |t| && t[k].parent == Some(c) && t[k].state == ZOMBIE && pid == t[k].pid
    case NoKids => !HasZombie(t, c) && (t[c].killed || forall i :: 0 <= i < |t| ==> t[i].parent != Some(c))
    case MustSleep => !HasZombie(t, c) && !t[c].killed && exists i :: 0 <= i < |t| && t[i].parent == Some(c)
  }

  // The loops

  class Ptable {
    var proc: array<Proc>
    const init: nat
    var nextpid: nat

    ghost predicate Valid()
      reads this
    {
      init < proc.Length
    }

    /** pinit and userinit: one process, in slot init. */
    constructor (n: nat, init: nat)
      requires init < n
      ensures Valid() && fresh(proc) && proc.Length == n && this.init == init && nextpid == 2
      ensures forall i :: 0 <= i < n && i != init ==> proc[i] == Proc(UNUSED, 0, None, NoChan, false)
      ensures proc[init] == Proc(RUNNABLE, 1, None, NoChan, false)
    {
      proc := new Proc[n](_ => Proc(UNUSED, 0, None, NoChan, false));
      this.init, nextpid := init, 2;
      new;
      proc[init] := Proc(RUNNABLE, 1, None, NoChan, false);
    }

    /** allocproc up to the release of the lock: the first unused slot. */
    method AllocProc() returns (r: Option<nat>)
      requires Valid()
      modifies proc, `nextpid
      ensures r.None? ==> nextpid == old(nextpid) && proc[..] == old(proc[..])
      ensures r.None? ==> forall i :: 0 <= i < proc.Length ==> proc[i].state != UNUSED
      ensures r.Some? ==> r.value < proc.Length && old(proc[r.value]).state == UNUSED && nextpid == old(nextpid) + 1
      ensures r.Some? ==> forall i :: 0 <= i < r.value ==> old(proc[i]).state != UNUSED
      ensures r.Some? ==>
                proc[..] == old(proc[..])[r.value := old(proc[r.value]).(state := EMBRYO, pid := old(nextpid))]
    {
      var i := 0;
      while i < proc.Length
        invariant 0 <= i <= proc.Length && proc[..] == old(proc[..]) && nextpid == old(nextpid)
        invariant forall j :: 0 <= j < i ==> proc[j].state != UNUSED
      {
        if proc[i].state == UNUSED {
          proc[i] := proc[i].(state := EMBRYO, pid := nextpid);
          nextpid := nextpid + 1;
          return Some(i);
        }
        i := i + 1;
      }
      return None;
    }

    method Wakeup1(chan: Chan)
      modifies proc
      ensures proc[..] == Woken(old(proc[..]), chan)
    {
      var i := 0;
      while i < proc.Length
        invariant 0 <= i <= proc.Length
        invariant forall j :: 0 <= j < proc.Length ==>
                  proc[j] == if j < i then Wake(old(proc[j]), chan) else old(proc[j])
      {
        if proc[i].state == SLEEPING && proc[i].chan == chan {
          proc[i] := proc[i].(state := RUNNABLE);
        }
        i := i + 1;
      }
    }

    /** wakeupfutex1 also counts whom it wakes. */
    method WakeupFutex1(chan: Chan) returns (n: nat)
      modifies proc
      ensures proc[..] == Woken(old(proc[..]), chan) && n == Sleepers(old(proc[..]), chan)
    {
      var i := 0;
      n := 0;
      while i < proc.Length
        invariant 0 <= i <= proc.Length && n == Sleepers(old(proc[..])[..i], chan)
        invariant forall j :: 0 <= j < proc.Length ==>
                  proc[j] == if j < i then Wake(old(proc[j]), chan) else old(proc[j])
      {
        assert old(proc[..])[..i + 1][..i] == old(proc[..])[..i];
        if proc[i].state == SLEEPING && proc[i].chan == chan {
          proc[i] := proc[i].(state := RUNNABLE);
          n := n + 1;
        }
        i := i + 1;
      }
      assert old(proc[..])[..i] == old(proc[..]);
    }

    /** kill: the first slot with that pid. */
    method Kill(pid: nat) returns (found: bool)
      modifies proc
      ensures !found ==> proc[..] == old(proc[..]) && forall i :: 0 <= i < proc.Length ==> proc[i].pid != pid
      ensures found ==> KilledIn(old(proc[..]), proc[..], pid)
    {
      var i := 0;
      while i < proc.Length
        invariant 0 <= i <= proc.Length && proc[..] == old(proc[..])
        invariant forall j :: 0 <= j < i ==> proc[j].pid != pid
      {
        if proc[i].pid == pid {
          proc[i] := proc[i].(killed := true);
          if proc[i].state == SLEEPING {
            proc[i] := proc[i].(state := RUNNABLE);
          }
          assert proc[..] == old(proc[..])[i := Killed(old(proc[..])[i])];
          return true;
        }
        i := i + 1;
      }
      return false;
    }

    /** exit from the point where it takes the lock. The process itself never runs
        again. */
    method Exit(c: nat)
      requires Valid() && c < proc.Length && c != init && proc[c].parent.Some?
      modifies proc
      ensures Exited(old(proc[..]), proc[..], c, init)
    {
      ghost var t := proc[..];
      Wakeup1(OfProc(proc[c].parent.value));
      ghost var t1 := proc[..];
      var i := 0;
      while i < proc.Length
        invariant 0 <= i <= proc.Length && |t1| == proc.Length
        invariant forall j :: 0 <= j < proc.Length ==> proc[j] == HalfSlot(t1, c, init, i, j)
      {
        HalfZombie(t1, c, i);
        if proc[i].parent == Some(c) {
          proc[i] := proc[i].(parent := Some(init));
          if proc[i].state == ZOMBIE {
            Wakeup1(OfProc(init));
          }
        }
        i := i + 1;
      }
      proc[c] := proc[c].(state := ZOMBIE);
      HalfDone(t, t1, c, init);
    }

    /** One scan of wait: reap a zombie child, or say why not. */
    method WaitScan(c: nat) returns (r: WaitResult)
      requires c < proc.Length
      modifies proc
      ensures WaitFinds(old(proc[..]), c, r)
      ensures proc[..] == if r.Reaped? then old(proc[..])[r.slot := Cleared(old(proc[r.slot]))] else old(proc[..])
    {
      var havekids := false;
      var i := 0;
      while i < proc.Length
        invariant 0 <= i <= proc.Length && proc[..] == old(proc[..])
        invariant forall j :: 0 <= j < i && proc[j].parent == Some(c) ==> proc[j].state != ZOMBIE
        invariant havekids <==> exists j :: 0 <= j < i && proc[j].parent == Some(c)
      {
        if proc[i].parent == Some(c) {
          havekids := true;
          if proc[i].state == ZOMBIE {
            var pid := proc[i].pid;
            proc[i] := Cleared(proc[i]);
            return Reaped(i, pid);
          }
        }
        i := i + 1;
      }
      if !havekids || proc[c].killed {
        return NoKids;
      }
      return MustSleep;
    }
  }

  function Killed(p: Proc): (r: Proc) {
    p.(killed := true, state := if p.state == SLEEPING then RUNNABLE else p.state)
  }

  ghost predicate KilledIn(t: seq<Proc>, t': seq<Proc>, pid: nat) {
    exists k :: 0 <= k < |t| && t[k].pid == pid && t' == t[k := Killed(t[k])]
                && forall j :: 0 <= j < k ==> t[j].pid != pid
  }

  /** Among the first i slots there is a zombie child of c. */
  ghost predicate ZombieBelow(t: seq<Proc>, c: nat, i: nat)
    requires i <= |t|
  {
    exists k :: 0 <= k < i && t[k].parent == Some(c) && t[k].state == ZOMBIE
  }

  /** Slot j when exit's loop has passed i slots. */
  ghost function HalfSlot(t: seq<Proc>, c: nat, init: nat, i: nat, j: nat): (r: Proc)
    requires i <= |t| && j < |t|
  {
    var p := if ZombieBelow(t, c, i) then Wake(t[j], OfProc(init)) else t[j];
    if j < i && p.parent == Some(c) then p.(parent := Some(init)) else p
  }

  lemma HalfZombie(t: seq<Proc>, c: nat, i: nat)
    requires i < |t|
    ensures ZombieBelow(t, c, i + 1) <==> ZombieBelow(t, c, i) || (t[i].parent == Some(c) && t[i].state == ZOMBIE)
  {
  }

  lemma HalfDone(t: seq<Proc>, t1: seq<Proc>, c: nat, init: nat)
    requires c < |t| && c != init && t[c].parent.Some? && t1 == Woken(t, OfProc(t[c].parent.value))
    ensures ZombieBelow(t1, c, |t1|) <==> HasZombie(t, c)
    ensures forall i :: 0 <= i < |t| && i != c ==> HalfSlot(t1, c, init, |t1|, i) == ExitSlot(t, c, init, i)
    ensures HalfSlot(t1, c, init, |t1|, c).(state := ZOMBIE) == ExitSlot(t, c, init, c)
  {
    if k :| 0 <= k < |t| && t[k].parent == Some(c) && t[k].state == ZOMBIE {
      assert t1[k] == t[k];
    }
  }

  // Runs

  /** Where a process is in the kernel: in fork with its new slot, or in wait. */
  datatype Doing = Idle | Forking(n: nat) | InWait

  /** `exited` and `reaped` record pids for the statements only. */
  datatype State = State(proc: seq<Proc>, doing: seq<Doing>, init: nat, nextpid: nat, exited: set<nat>,
                         reaped: seq<nat>)

  datatype Step =
    | Alloc(c: nat, n: nat)
    | GiveUp(c: nat)
    | Adopt(c: nat)
    | Start(c: nat)
    | Exits(c: nat)
    | Waits(c: nat, found: WaitResult)
    | Sleep(c: nat, addr: nat)
    | Wakeup(addr: nat)
    | Kills(k: nat)
    | Run(c: nat)
    | Yield(c: nat)

  ghost predicate Runs(s: State, c: nat) { c < |s.proc| && c < |s.doing| && s.proc[c].state == RUNNING }

  ghost predicate InFork(s: State, c: nat) {
    Runs(s, c) && s.doing[c].Forking? && s.doing[c].n < |s.proc|
  }

  function SetDoing(s: State, c: nat, d: Doing): (r: seq<Doing>)
    requires c < |s.doing|
  {
    s.doing[c := d]
  }

  ghost predicate Takes(s: State, a: Step, t: State) {
    match a
    case Alloc(c, n) =>
      && Runs(s, c) && s.doing[c] == Idle && n < |s.proc| && s.proc[n].state == UNUSED
      && t == s.(proc := s.proc[n := s.proc[n].(state := EMBRYO, pid := s.nextpid)],
                 doing := SetDoing(s, c, Forking(n)), nextpid := s.nextpid + 1)
    case GiveUp(c) =>
      && InFork(s, c) && s.proc[s.doing[c].n].parent.None?
      && t == s.(proc := s.proc[s.doing[c].n := s.proc[s.doing[c].n].(state := UNUSED)], doing := SetDoing(s, c, Idle))
    case Adopt(c) =>
      InFork(s, c) && t == s.(proc := s.proc[s.doing[c].n := s.proc[s.doing[c].n].(parent := Some(c))])
    case Start(c) =>
      && InFork(s, c) && s.proc[s.doing[c].n].parent == Some(c)
      && t == s.(proc := s.proc[s.doing[c].n := s.proc[s.doing[c].n].(state := RUNNABLE)],
                 doing := SetDoing(s, c, Idle))
    case Exits(c) =>
      && Runs(s, c) && s.doing[c] == Idle && c != s.init
      && Exited(s.proc, t.proc, c, s.init) && t == s.(proc := t.proc, exited := s.exited + {s.proc[c].pid})
    case Waits(c, found) =>
      && Runs(s, c) && !s.doing[c].Forking? && WaitFinds(s.proc, c, found) && t == AfterScan(s, c, found)
    case Sleep(c, addr) =>
      && Runs(s, c) && s.doing[c] != InWait
      && t == s.(proc := s.proc[c := s.proc[c].(state := SLEEPING, chan := Other(addr))])
    case Wakeup(addr) => t == s.(proc := Woken(s.proc, Other(addr)))
    case Kills(k) => k < |s.proc| && t == s.(proc := s.proc[k := Killed(s.proc[k])])
    case Run(c) =>
      && c < |s.proc| && s.proc[c].state == RUNNABLE
      && t == s.(proc := s.proc[c := s.proc[c].(state := RUNNING, chan := NoChan)])
    case Yield(c) => Runs(s, c) && t == s.(proc := s.proc[c := s.proc[c].(state := RUNNABLE)])
  }

  ghost function AfterScan(s: State, c: nat, found: WaitResult): (r: State)
    requires Runs(s, c) && WaitFinds(s.proc, c, found)
  {
    match found
    case Reaped(k, pid) =>
      s.(proc := s.proc[k := Cleared(s.proc[k])], doing := SetDoing(s, c, Idle), reaped := s.reaped + [pid])
    case NoKids => s.(doing := SetDoing(s, c, Idle))
    case MustSleep =>
      s.(proc := s.proc[c := s.proc[c].(state := SLEEPING, chan := OfProc(c))], doing := SetDoing(s, c, InWait))
  }

  // The invariant

  /** An unused slot has no parent; a process being made at most its maker; init
      none; everyone else a live one. */
  ghost predicate ParentOk(s: State, i: nat)
    requires i < |s.proc|
  {
    var p := s.proc[i];
    match p.state
    case UNUSED => p.parent.None?
    case EMBRYO => p.parent.Some? ==> p.parent.value < |s.doing| && s.doing[p.parent.value] == Forking(i)
    case _ =>
      if i == s.init then p.parent.None?
      else p.parent.Some? && p.parent.value != i && p.parent.value < |s.proc| && Live(s.proc[p.parent.value])
  }

  ghost predicate ForkOk(s: State, i: nat)
    requires i < |s.proc| && i < |s.doing|
  {
    s.doing[i].Forking? ==>
      && Live(s.proc[i]) && s.doing[i].n < |s.proc| && s.proc[s.doing[i].n].state == EMBRYO
  }

  /** A parent asleep in wait sleeps on itself and has no zombie child. */
  ghost predicate WaitOk(s: State, i: nat)
    requires i < |s.proc| && i < |s.doing|
  {
    s.proc[i].state == SLEEPING && s.doing[i] == InWait ==>
      s.proc[i].chan == OfProc(i) && !HasZombie(s.proc, i)
  }

  ghost predicate Shaped(s: State) {
    |s.doing| == |s.proc| && s.init < |s.proc| && Live(s.proc[s.init])
  }

  ghost predicate OneForker(s: State) {
    forall i, j :: 0 <= i < j < |s.doing| && s.doing[i].Forking? && s.doing[j].Forking? ==> s.doing[i].n != s.doing[j].n
  }

  ghost predicate TreeInv(s: State) {
    && Shaped(s) && OneForker(s)
    && (forall i :: 0 <= i < |s.proc| ==> ParentOk(s, i))
    && (forall i :: 0 <= i < |s.proc| ==> ForkOk(s, i))
    && (forall i :: 0 <= i < |s.proc| ==> WaitOk(s, i))
  }

  /** The slot a fork in progress is filling. */
  lemma Filling(s: State, c: nat)
    requires TreeInv(s) && InFork(s, c)
    ensures s.doing[c].n < |s.proc| && s.proc[s.doing[c].n].state == EMBRYO && s.doing[c].n != s.init
    ensures forall i :: 0 <= i < |s.doing| && i != c ==> s.doing[i] != s.doing[c]
  {
    assert ForkOk(s, c);
    forall i | 0 <= i < |s.doing| && i != c ensures s.doing[i] != s.doing[c] {
      assert i < c || c < i;
    }
  }

  /** Who is alive stays alive but for exit. */
  lemma LiveStep(s: State, a: Step, t: State, i: nat)
    requires TreeInv(s) && Takes(s, a, t) && i < |s.proc| && Live(s.proc[i]) && a != Exits(i)
    ensures |t.proc| == |s.proc| && |t.doing| == |s.doing| && t.init == s.init && Live(t.proc[i])
  {
    hide ParentOk, WaitOk, OneForker;
    match a
    case GiveUp(c) => Filling(s, c);
    case Adopt(c) => Filling(s, c);
    case Start(c) => Filling(s, c);
    case _ =>
  }

  lemma ShapedStep(s: State, a: Step, t: State)
    requires TreeInv(s) && Takes(s, a, t)
    ensures Shaped(t) && t.init == s.init && |t.proc| == |s.proc|
  {
    LiveStep(s, a, t, s.init);
  }

  lemma ForkerStep(s: State, a: Step, t: State)
    requires TreeInv(s) && Takes(s, a, t)
    ensures OneForker(t)
  {
    hide ParentOk, WaitOk;
    if a.Alloc? {
      forall i | 0 <= i < |s.doing| ensures s.doing[i] != Forking(a.n) {
        assert ForkOk(s, i);
      }
    }
  }

  lemma ForkOkStep(s: State, a: Step, t: State, i: nat)
    requires TreeInv(s) && Takes(s, a, t) && i < |s.proc|
    ensures |t.proc| == |s.proc| && |t.doing| == |s.doing| && ForkOk(t, i)
  {
    hide ParentOk, WaitOk, OneForker, HasZombie;
    assert ForkOk(s, i);
    match a
    case GiveUp(c) => Filling(s, c);
    case Adopt(c) => Filling(s, c);
    case Start(c) => Filling(s, c);
    case _ =>
  }

  /** The parent in s, if any, is alive in t unless it is the one that exits. */
  lemma ParentLives(s: State, a: Step, t: State, i: nat)
    requires TreeInv(s) && Takes(s, a, t) && i < |s.proc| && s.proc[i].parent.Some?
    ensures |t.proc| == |s.proc|
    ensures var q := s.proc[i].parent.value; q < |s.proc| && Live(s.proc[q]) && (a != Exits(q) ==> Live(t.proc[q]))
    ensures s.proc[i].state == EMBRYO ==> s.doing[s.proc[i].parent.value] == Forking(i)
  {
    hide WaitOk, OneForker, Takes;
    assert ParentOk(s, i);
    var q := s.proc[i].parent.value;
    if s.proc[i].state == EMBRYO {
      assert ForkOk(s, q);
    }
    if a != Exits(q) {
      LiveStep(s, a, t, q);
    } else {
      ShapedStep(s, a, t);
    }
  }

  lemma ParentFork(s: State, a: Step, t: State, i: nat)
    requires TreeInv(s) && Takes(s, a, t) && i < |s.proc| && (a.Alloc? || a.GiveUp? || a.Adopt? || a.Start?)
    ensures |t.proc| == |s.proc| && ParentOk(t, i)
  {
    hide WaitOk, OneForker, ForkOk;
    assert ParentOk(s, i);
    if s.proc[i].parent.Some? {
      ParentLives(s, a, t, i);
    }
    match a
    case GiveUp(c) => Filling(s, c);
    case Adopt(c) => Filling(s, c);
    case Start(c) => Filling(s, c); LiveStep(s, a, t, c);
    case Alloc(c, n) =>
  }

  lemma ParentExit(s: State, c: nat, t: State, i: nat)
    requires TreeInv(s) && Takes(s, Exits(c), t) && i < |s.proc|
    ensures |t.proc| == |s.proc| && ParentOk(t, i)
  {
    hide WaitOk, OneForker, ForkOk, HasZombie;
    ShapedStep(s, Exits(c), t);
    assert ParentOk(s, i);
    if s.proc[i].parent.Some? {
      ParentLives(s, Exits(c), t, i);
    }
  }

  lemma ParentStep(s: State, a: Step, t: State, i: nat)
    requires TreeInv(s) && Takes(s, a, t) && i < |s.proc|
    ensures |t.proc| == |s.proc| && ParentOk(t, i)
  {
    hide WaitOk, OneForker, HasZombie, ForkOk;
    if a.Alloc? || a.GiveUp? || a.Adopt? || a.Start? {
      ParentFork(s, a, t, i);
    } else if a.Exits? {
      ParentExit(s, a.c, t, i);
    } else {
      assert ParentOk(s, i);
      if s.proc[i].parent.Some? {
        ParentLives(s, a, t, i);
      }
    }
  }

  lemma ZombieChild(t: seq<Proc>, c: nat, k: nat)
    requires k < |t|
    ensures t[k].parent == Some(c) && t[k].state == ZOMBIE ==> HasZombie(t, c)
  {
  }

  /** A zombie child in t of someone asleep in wait was one already in s. */
  lemma NoNewZombie(s: State, a: Step, t: State, i: nat, k: nat)
    requires TreeInv(s) && Takes(s, a, t) && i < |s.proc| && k < |s.proc| && |t.proc| == |s.proc|
             && |t.doing| == |s.doing|
    requires s.proc[i].state == SLEEPING && s.doing[i] == InWait
    requires t.proc[i].state == SLEEPING && t.proc[k].parent == Some(i) && t.proc[k].state == ZOMBIE
    ensures s.proc[k].parent == Some(i) && s.proc[k].state == ZOMBIE
  {
    assert WaitOk(s, i) && ParentOk(s, k);
    match a
    case GiveUp(c) => Filling(s, c);
    case Adopt(c) => Filling(s, c);
    case Start(c) => Filling(s, c);
    case Exits(c) => ZombieChild(s.proc, c, k);
    case _ =>
  }

  lemma WaitStep(s: State, a: Step, t: State, i: nat)
    requires TreeInv(s) && Takes(s, a, t) && i < |s.proc| && |t.proc| == |s.proc| && |t.doing| == |s.doing|
    ensures WaitOk(t, i)
  {
    hide ParentOk, OneForker, ForkOk;
    assert WaitOk(s, i);
    if t.proc[i].state == SLEEPING && t.doing[i] == InWait {
      Asleep(s, a, t, i);
      if k :| 0 <= k < |t.proc| && t.proc[k].parent == Some(i) && t.proc[k].state == ZOMBIE {
        if a != Waits(i, MustSleep) {
          NoNewZombie(s, a, t, i, k);
        }
      }
    }
  }

  lemma Asleep(s: State, a: Step, t: State, i: nat)
    requires TreeInv(s) && Takes(s, a, t) && i < |s.proc| && |t.proc| == |s.proc| && |t.doing| == |s.doing|
    requires t.proc[i].state == SLEEPING && t.doing[i] == InWait
    ensures a != Waits(i, MustSleep) ==>
              s.proc[i].state == SLEEPING && s.doing[i] == InWait && t.proc[i].chan == s.proc[i].chan
    ensures a == Waits(i, MustSleep) ==> t.proc[i].chan == OfProc(i) && !HasZombie(s.proc, i)
    ensures a == Waits(i, MustSleep) ==>
              forall k :: 0 <= k < |s.proc| && t.proc[k].state == ZOMBIE ==> t.proc[k] == s.proc[k]
  {
    hide ParentOk, OneForker, ForkOk, WaitOk, HasZombie;
  }

  lemma TreeStep(s: State, a: Step, t: State)
    requires TreeInv(s) && Takes(s, a, t)
    ensures TreeInv(t)
  {
    hide Takes, ParentOk, WaitOk, ForkOk, OneForker;
    ShapedStep(s, a, t);
    ForkerStep(s, a, t);
    forall i | 0 <= i < |t.proc| ensures ParentOk(t, i) { ParentStep(s, a, t, i); }
    forall i | 0 <= i < |t.proc| ensures ForkOk(t, i) { ForkOkStep(s, a, t, i); }
    forall i | 0 <= i < |t.proc| ensures WaitOk(t, i) { WaitStep(s, a, t, i); }
  }

  // Process numbers

  ghost predicate PidOk(s: State, i: nat)
    requires i < |s.proc|
  {
    var p := s.proc[i];
    p.state != UNUSED ==>
      0 < p.pid < s.nextpid && p.pid !in s.reaped && (p.state == ZOMBIE <==> p.pid in s.exited)
  }

  ghost predicate PidsDiffer(s: State) {
    forall i, j :: 0 <= i < j < |s.proc| && s.proc[i].state != UNUSED && s.proc[j].state != UNUSED ==>
      s.proc[i].pid != s.proc[j].pid
  }

  ghost predicate ReapedOk(s: State) {
    && s.nextpid > 0
    && (forall i, j :: 0 <= i < j < |s.reaped| ==> s.reaped[i] != s.reaped[j])
    && (forall p :: p in s.reaped ==> p in s.exited)
    && (forall p :: p in s.exited ==> p < s.nextpid)
  }

  /** Who has exited is a zombie or has been reaped. */
  ghost predicate ExitedKept(s: State) {
    forall p :: p in s.exited ==> p in s.reaped || ZombieWith(s.proc, p)
  }

  ghost predicate ZombieWith(t: seq<Proc>, pid: nat) {
    exists i :: 0 <= i < |t| && t[i].state == ZOMBIE && t[i].pid == pid
  }

  ghost predicate PidInv(s: State) {
    && PidsDiffer(s) && ReapedOk(s) && ExitedKept(s)
    && (forall i :: 0 <= i < |s.proc| ==> PidOk(s, i))
  }

  /** What a step does to the number and the life of slot i. */
  lemma SlotStep(s: State, a: Step, t: State, i: nat)
    requires TreeInv(s) && Takes(s, a, t) && i < |s.proc|
    ensures |t.proc| == |s.proc|
    ensures t.proc[i].state != UNUSED ==>
              (if a.Alloc? && a.n == i then t.proc[i].pid == s.nextpid && t.proc[i].state == EMBRYO
               else t.proc[i].pid == s.proc[i].pid && s.proc[i].state != UNUSED)
    ensures t.proc[i].state == ZOMBIE <==>
              (s.proc[i].state == ZOMBIE && !(a.Waits? && a.found.Reaped? && a.found.slot == i)) || a == Exits(i)
    ensures a.Waits? && a.found.Reaped? && a.found.slot == i ==> t.proc[i].state == UNUSED
  {
    hide ParentOk, WaitOk, OneForker, HasZombie;
    match a
    case GiveUp(c) => Filling(s, c);
    case Adopt(c) => Filling(s, c);
    case Start(c) => Filling(s, c);
    case _ =>
  }

  /** What a step does to the records. */
  lemma RecordStep(s: State, a: Step, t: State)
    requires Takes(s, a, t)
    ensures a.Exits? ==> a.c < |s.proc| && s.proc[a.c].state == RUNNING && t.exited == s.exited + {s.proc[a.c].pid}
    ensures !a.Exits? ==> t.exited == s.exited
    ensures a.Waits? && a.found.Reaped? ==>
              && a.found.slot < |s.proc| && s.proc[a.found.slot].state == ZOMBIE
              && a.found.pid == s.proc[a.found.slot].pid && t.reaped == s.reaped + [a.found.pid]
    ensures !(a.Waits? && a.found.Reaped?) ==> t.reaped == s.reaped
    ensures a.Alloc? ==> a.n < |s.proc| && s.proc[a.n].state == UNUSED
    ensures t.nextpid == (if a.Alloc? then s.nextpid + 1 else s.nextpid) && |t.proc| == |s.proc|
  {
    hide HasZombie;
  }

  lemma PidsDifferStep(s: State, a: Step, t: State)
    requires TreeInv(s) && PidInv(s) && Takes(s, a, t)
    ensures PidsDiffer(t)
  {
    hide Takes, TreeInv, ExitedKept, ReapedOk;
    RecordStep(s, a, t);
    forall i, j | 0 <= i < j < |t.proc| && t.proc[i].state != UNUSED && t.proc[j].state != UNUSED
      ensures t.proc[i].pid != t.proc[j].pid
    {
      SlotStep(s, a, t, i);
      SlotStep(s, a, t, j);
      assert PidOk(s, i) && PidOk(s, j);
    }
  }

  lemma PidOkStep(s: State, a: Step, t: State, i: nat)
    requires TreeInv(s) && PidInv(s) && Takes(s, a, t) && i < |s.proc|
    ensures |t.proc| == |s.proc| && PidOk(t, i)
  {
    hide Takes, TreeInv, ExitedKept;
    RecordStep(s, a, t);
    SlotStep(s, a, t, i);
    assert PidOk(s, i);
    if a.Exits? && a.c != i {
      assert a.c < i || i < a.c;
    }
    if a.Waits? && a.found.Reaped? && a.found.slot != i {
      assert a.found.slot < i || i < a.found.slot;
    }
  }

  lemma ReapedStep(s: State, a: Step, t: State)
    requires TreeInv(s) && PidInv(s) && Takes(s, a, t)
    ensures ReapedOk(t)
  {
    hide Takes, TreeInv, ExitedKept, PidsDiffer;
    RecordStep(s, a, t);
    if a.Exits? {
      assert PidOk(s, a.c);
    }
    if a.Waits? && a.found.Reaped? {
      assert PidOk(s, a.found.slot);
    }
  }

  lemma ExitedStep(s: State, a: Step, t: State)
    requires TreeInv(s) && PidInv(s) && Takes(s, a, t)
    ensures ExitedKept(t)
  {
    hide Takes, TreeInv, PidOk, PidsDiffer, ReapedOk;
    RecordStep(s, a, t);
    forall p | p in t.exited && p !in t.reaped ensures ZombieWith(t.proc, p) {
      if p in s.exited {
        var i :| 0 <= i < |s.proc| && s.proc[i].state == ZOMBIE && s.proc[i].pid == p;
        SlotStep(s, a, t, i);
      } else {
        SlotStep(s, a, t, a.c);
      }
    }
  }

  lemma PidStep(s: State, a: Step, t: State)
    requires TreeInv(s) && PidInv(s) && Takes(s, a, t)
    ensures PidInv(t)
  {
    hide Takes, PidOk, PidsDiffer, ReapedOk, ExitedKept, TreeInv;
    PidsDifferStep(s, a, t);
    ReapedStep(s, a, t);
    ExitedStep(s, a, t);
    RecordStep(s, a, t);
    forall i | 0 <= i < |t.proc| ensures PidOk(t, i) { PidOkStep(s, a, t, i); }
  }

  // Theorems

  /** As userinit leaves the table. */
  ghost predicate Init(s: State) {
    && s.init < |s.proc| == |s.doing| && s.nextpid == 2 && s.exited == {} && s.reaped == []
    && s.proc[s.init] == Proc(RUNNABLE, 1, None, NoChan, false)
    && (forall i :: 0 <= i < |s.proc| && i != s.init ==> s.proc[i] == Proc(UNUSED, 0, None, NoChan, false))
    && (forall i :: 0 <= i < |s.doing| ==> s.doing[i] == Idle)
  }

  ghost predicate History(states: seq<State>, steps: seq<Step>) {
    && |states| == |steps| + 1 && Init(states[0])
    && forall n :: 0 <= n < |steps| ==> Takes(states[n], steps[n], states[n + 1])
  }

  lemma InitInv(s: State)
    requires Init(s)
    ensures TreeInv(s) && PidInv(s)
  {
  }

  lemma {:induction false} RunInvariant(states: seq<State>, steps: seq<Step>, n: nat)
    requires History(states, steps) && n < |states|
    ensures TreeInv(states[n]) && PidInv(states[n])
    decreases n
  {
    hide Takes, TreeInv, PidInv, Init;
    if n == 0 {
      InitInv(states[0]);
    } else {
      RunInvariant(states, steps, n - 1);
      assert Takes(states[n - 1], steps[n - 1], states[n]);
      TreeStep(states[n - 1], steps[n - 1], states[n]);
      PidStep(states[n - 1], steps[n - 1], states[n]);
    }
  }

  /** A zombie has no children. */
  lemma ZombieChildless(states: seq<State>, steps: seq<Step>, n: nat, z: nat, i: nat)
    requires History(states, steps) && n < |states| && z < |states[n].proc| && i < |states[n].proc|
    requires states[n].proc[z].state == ZOMBIE
    ensures states[n].proc[i].parent != Some(z)
  {
    hide Takes, PidInv, Init, WaitOk, OneForker, History;
    RunInvariant(states, steps, n);
    assert ParentOk(states[n], i) && ForkOk(states[n], z);
  }

  /** Everyone past EMBRYO but init has a parent that is alive, and not a zombie. */
  lemma ParentAlive(states: seq<State>, steps: seq<Step>, n: nat, i: nat)
    requires History(states, steps) && n < |states| && i < |states[n].proc| && i != states[n].init
    requires states[n].proc[i].state != UNUSED && states[n].proc[i].state != EMBRYO
    ensures var p := states[n].proc[i].parent; p.Some? && p.value < |states[n].proc| && Live(states[n].proc[p.value])
  {
    hide Takes, PidInv, Init, WaitOk, OneForker, History, ForkOk;
    RunInvariant(states, steps, n);
    assert ParentOk(states[n], i);
  }

  /** Nobody sleeps in wait while a child of theirs is a zombie. */
  lemma WaiterWoken(states: seq<State>, steps: seq<Step>, n: nat, c: nat, z: nat)
    requires History(states, steps) && n < |states| && c < |states[n].proc| && z < |states[n].proc|
    requires states[n].proc[z].state == ZOMBIE && states[n].proc[z].parent == Some(c)
    ensures c < |states[n].doing| && !(states[n].proc[c].state == SLEEPING && states[n].doing[c] == InWait)
  {
    hide Takes, PidInv, Init, ParentOk, OneForker, History, ForkOk;
    RunInvariant(states, steps, n);
    assert WaitOk(states[n], c);
    ZombieChild(states[n].proc, c, z);
  }

  /** No process number is returned by wait twice, only numbers of processes that
      exited are, and an exited one is there to be reaped until it is. */
  lemma ReapedOnce(states: seq<State>, steps: seq<Step>, n: nat)
    requires History(states, steps) && n < |states|
    ensures forall i, j :: 0 <= i < j < |states[n].reaped| ==> states[n].reaped[i] != states[n].reaped[j]
    ensures forall p :: p in states[n].reaped ==> p in states[n].exited
    ensures forall p :: p in states[n].exited && p !in states[n].reaped ==> ZombieWith(states[n].proc, p)
  {
    hide Takes, TreeInv, Init, History, PidOk, PidsDiffer, ZombieWith;
    RunInvariant(states, steps, n);
  }

  /** Processes in the table have different numbers. */
  lemma PidsUnique(states: seq<State>, steps: seq<Step>, n: nat, i: nat, j: nat)
    requires History(states, steps) && n < |states| && i < j < |states[n].proc|
    requires states[n].proc[i].state != UNUSED && states[n].proc[j].state != UNUSED
    ensures states[n].proc[i].pid != states[n].proc[j].pid
  {
    hide Takes, TreeInv, Init, History, PidOk, ReapedOk, ExitedKept;
    RunInvariant(states, steps, n);
  }

  // Sleep and wakeup

  predicate SleepsOn(p: Proc, chan: Chan) { p.state == SLEEPING && p.chan == chan }

  /** What wakeupfutex1 returns is the number of processes asleep on the channel. */
  lemma {:induction false} SleepersAre(t: seq<Proc>, chan: Chan)
    ensures Sleepers(t, chan) == |set i | 0 <= i < |t| && SleepsOn(t[i], chan)|
    decreases |t|
  {
    var n := |t| - 1;
    var all := set i | 0 <= i < |t| && SleepsOn(t[i], chan);
    if t == [] {
      assert all == {};
    } else {
      SleepersAre(t[..n], chan);
      var before := set i | 0 <= i < |t[..n]| && SleepsOn(t[..n][i], chan);
      if SleepsOn(t[n], chan) {
        assert all == before + {n};
      } else {
        assert all == before;
      }
    }
  }

  /** Who sleeps stays asleep on its channel until a wakeup of that channel, a kill, or
      the exit of a child; a wakeup leaves nobody asleep on its channel, and touches
      nobody else. */
  lemma SleepAndWakeup(s: State, a: Step, t: State, i: nat)
    requires TreeInv(s) && Takes(s, a, t) && i < |s.proc|
    ensures |t.proc| == |s.proc|
    ensures a.Sleep? && a.c == i ==> SleepsOn(t.proc[i], Other(a.addr))
    ensures a.Wakeup? ==> !SleepsOn(t.proc[i], Other(a.addr))
    ensures a.Wakeup? ==> if SleepsOn(s.proc[i], Other(a.addr)) then t.proc[i] == s.proc[i].(state := RUNNABLE)
                          else t.proc[i] == s.proc[i]
    ensures s.proc[i].state == SLEEPING && t.proc[i].state != SLEEPING ==>
              (a.Wakeup? && s.proc[i].chan == Other(a.addr)) || (a.Kills? && a.k == i) || a.Exits?
    ensures a.Yield? && a.c == i ==> t.proc[i].state == RUNNABLE
  {
    if a.GiveUp? || a.Adopt? || a.Start? {
      Filling(s, a.c);
    }
    hide TreeInv;
  }

  /** wait comes back but for a sleep, and then it is where it was. */
  lemma WaitReturns(s: State, c: nat, found: WaitResult, t: State)
    requires Takes(s, Waits(c, found), t)
    ensures c < |t.doing| && c < |t.proc| && (t.doing[c] == InWait <==> found.MustSleep?)
    ensures found.MustSleep? <==> SleepsOn(t.proc[c], OfProc(c)) && s.proc[c].state == RUNNING
    ensures found.NoKids? ==> t.proc == s.proc && t.reaped == s.reaped
    ensures found.Reaped? ==> t.reaped == s.reaped + [found.pid] && t.proc[found.slot].state == UNUSED
  {
    if found.Reaped? {
      assert found.slot != c;
    }
  }

  // What kill does, and whom it may hit

  /** kill marks its process and wakes it if it sleeps, and changes nothing else. */
  lemma KillIs(p: Proc)
    ensures var q := Killed(p);
            && q.killed && q.pid == p.pid && q.parent == p.parent && q.chan == p.chan
            && (if p.state == SLEEPING then q.state == RUNNABLE else q.state == p.state)
  {
  }

  /** No slot that is free for a new process carries the mark of kill. */
  ghost predicate Unmarked(s: State) { forall i :: 0 <= i < |s.proc| ==> UnmarkedAt(s, i) }

  predicate UnmarkedAt(s: State, i: nat)
    requires i < |s.proc|
  {
    s.proc[i].state == UNUSED ==> !s.proc[i].killed
  }

  /** kill of a slot that is not in use (its old number, or 0, finds it), and a fork
      given up after its new process was killed. */
  ghost predicate Marks(s: State, a: Step) {
    || (a.Kills? && a.k < |s.proc| && s.proc[a.k].state == UNUSED)
    || (a.GiveUp? && InFork(s, a.c) && s.proc[s.doing[a.c].n].killed)
  }

  lemma UnmarkedAtStep(s: State, a: Step, t: State, i: nat)
    requires Shaped(s) && Takes(s, a, t) && i < |s.proc| && UnmarkedAt(s, i) && !Marks(s, a)
    ensures |t.proc| == |s.proc| && UnmarkedAt(t, i)
  {
  }

  lemma MarkedStep(s: State, a: Step, t: State)
    requires Takes(s, a, t) && Marks(s, a)
    ensures !Unmarked(t)
  {
    var k := if a.Kills? then a.k else s.doing[a.c].n;
    assert !UnmarkedAt(t, k);
  }

  lemma UnmarkedStep(s: State, a: Step, t: State)
    requires TreeInv(s) && Unmarked(s) && Takes(s, a, t)
    ensures Unmarked(t) <==> !Marks(s, a)
  {
    hide Takes, ParentOk, ForkOk, WaitOk, OneForker, Marks, UnmarkedAt;
    if Marks(s, a) {
      MarkedStep(s, a, t);
    } else {
      SameSlots(s, a, t);
      forall i | 0 <= i < |t.proc| ensures UnmarkedAt(t, i) {
        UnmarkedAtStep(s, a, t, i);
      }
    }
  }

  lemma SameSlots(s: State, a: Step, t: State)
    requires Takes(s, a, t)
    ensures |t.proc| == |s.proc|
  {
  }

  lemma {:induction false} RunUnmarked(states: seq<State>, steps: seq<Step>, n: nat)
    requires History(states, steps) && n < |states| && forall m :: 0 <= m < n ==> !Marks(states[m], steps[m])
    ensures Unmarked(states[n])
    decreases n
  {
    hide Takes, TreeInv, PidInv, Marks;
    if n > 0 {
      RunUnmarked(states, steps, n - 1);
      RunInvariant(states, steps, n - 1);
      assert Takes(states[n - 1], steps[n - 1], states[n]);
      UnmarkedStep(states[n - 1], steps[n - 1], states[n]);
    }
  }

  /** Over every run, every slot that a new process may get is unmarked, all along, if
      and only if kill never hits a free slot and no fork is given up after its new
      process was killed. */
  lemma UnmarkedIff(states: seq<State>, steps: seq<Step>)
    requires History(states, steps)
    ensures (forall n :: 0 <= n < |states| ==> Unmarked(states[n]))
            <==> forall m :: 0 <= m < |steps| ==> !Marks(states[m], steps[m])
  {
    hide Takes, TreeInv, PidInv, Marks, Unmarked, Init;
    if forall n :: 0 <= n < |states| ==> Unmarked(states[n]) {
      forall m | 0 <= m < |steps| ensures !Marks(states[m], steps[m]) {
        assert Takes(states[m], steps[m], states[m + 1]) && Unmarked(states[m]) && Unmarked(states[m + 1]);
        RunInvariant(states, steps, m);
        UnmarkedStep(states[m], steps[m], states[m + 1]);
      }
    }
    if forall m :: 0 <= m < |steps| ==> !Marks(states[m], steps[m]) {
      forall n | 0 <= n < |states| ensures Unmarked(states[n]) {
        RunUnmarked(states, steps, n);
      }
    }
  }

  /** As long as that holds, a new process starts out not killed. */
  lemma BornUnkilled(states: seq<State>, steps: seq<Step>, n: nat, c: nat, k: nat)
    requires History(states, steps) && n < |steps| && steps[n] == Alloc(c, k) && k < |states[n].proc|
    requires forall m :: 0 <= m < n ==> !Marks(states[m], steps[m])
    ensures k < |states[n + 1].proc| && !states[n + 1].proc[k].killed
  {
    hide Marks, Init;
    RunUnmarked(states, steps, n);
    assert Takes(states[n], steps[n], states[n + 1]) && UnmarkedAt(states[n], k);
  }

  // Two runs

  function Table(init: Proc, child: Proc, d: Doing, nextpid: nat): (s: State) {
    State([init, child], [d, Idle], 0, nextpid, {}, [])
  }

  function Self(st: PState, chan: Chan): (p: Proc) { Proc(st, 1, None, chan, false) }

  function Child(st: PState, parent: Option<nat>, killed: bool): (p: Proc) { Proc(st, 2, parent, NoChan, killed) }

  function Nobody(killed: bool): (p: Proc) { Proc(UNUSED, 0, None, NoChan, killed) }

  lemma Starts()
    ensures Init(Table(Self(RUNNABLE, NoChan), Nobody(false), Idle, 2))
    ensures Takes(Table(Self(RUNNABLE, NoChan), Nobody(false), Idle, 2), Run(0),
                  Table(Self(RUNNING, NoChan), Nobody(false), Idle, 2))
  {
  }

  lemma Forks(killed: bool)
    ensures var r := Self(RUNNING, NoChan);
            && Takes(Table(r, Nobody(killed), Idle, 2), Alloc(0, 1),
                     Table(r, Child(EMBRYO, None, killed), Forking(1), 3))
            && Takes(Table(r, Child(EMBRYO, None, killed), Forking(1), 3), Adopt(0),
                     Table(r, Child(EMBRYO, Some(0), killed), Forking(1), 3))
            && Takes(Table(r, Child(EMBRYO, Some(0), killed), Forking(1), 3), Start(0),
                     Table(r, Child(RUNNABLE, Some(0), killed), Idle, 3))
  {
  }

  /** kill(0) finds a free slot; the next process made is killed from the start. */
  lemma KillZero() returns (states: seq<State>)
    ensures History(states, [Run(0), Kills(1), Alloc(0, 1), Adopt(0), Start(0)])
    ensures KilledIn(states[1].proc, states[2].proc, 0)
    ensures |states[5].proc| == 2 && states[5].proc[1] == Proc(RUNNABLE, 2, Some(0), NoChan, true)
  {
    var r := Self(RUNNING, NoChan);
    var s0, s1 := Table(Self(RUNNABLE, NoChan), Nobody(false), Idle, 2), Table(r, Nobody(false), Idle, 2);
    var s2 := Table(r, Nobody(true), Idle, 2);
    Starts();
    Forks(true);
    assert Takes(s1, Kills(1), s2);
    assert s2.proc == s1.proc[1 := Killed(s1.proc[1])];
    hide Takes, Init;
    states := [s0, s1, s2, Table(r, Child(EMBRYO, None, true), Forking(1), 3),
               Table(r, Child(EMBRYO, Some(0), true), Forking(1), 3),
               Table(r, Child(RUNNABLE, Some(0), true), Idle, 3)];
  }

  lemma ChildExits()
    ensures var w := Table(Self(SLEEPING, OfProc(0)), Child(RUNNABLE, Some(0), false), InWait, 3);
            var u := Table(Self(SLEEPING, OfProc(0)), Child(RUNNING, Some(0), false), InWait, 3);
            var z := Table(Self(RUNNABLE, OfProc(0)), Child(ZOMBIE, Some(0), false), InWait, 3).(exited := {2});
            && Takes(Table(Self(RUNNING, NoChan), Child(RUNNABLE, Some(0), false), Idle, 3), Waits(0, MustSleep), w)
            && Takes(w, Run(1), u) && Takes(u, Exits(1), z)
            && Takes(z, Run(0), z.(proc := z.proc[0 := Self(RUNNING, NoChan)]))
  {
    var s := Table(Self(RUNNING, NoChan), Child(RUNNABLE, Some(0), false), Idle, 3);
    assert s.proc[1].parent == Some(0) && WaitFinds(s.proc, 0, MustSleep);
    Zombified();
  }

  lemma Zombified()
    ensures var u := Table(Self(SLEEPING, OfProc(0)), Child(RUNNING, Some(0), false), InWait, 3);
            var z := Table(Self(RUNNABLE, OfProc(0)), Child(ZOMBIE, Some(0), false), InWait, 3).(exited := {2});
            Takes(u, Exits(1), z)
  {
  }

  lemma ParentReaps()
    ensures var z := Table(Self(RUNNING, NoChan), Child(ZOMBIE, Some(0), false), InWait, 3).(exited := {2});
            Takes(z, Waits(0, Reaped(1, 2)),
                  Table(Self(RUNNING, NoChan), Nobody(false), Idle, 3).(exited := {2}, reaped := [2]))
  {
  }

  lemma Onward(states: seq<State>, steps: seq<Step>, a: Step, t: State) returns (states': seq<State>, steps': seq<Step>)
    requires History(states, steps) && Takes(states[|steps|], a, t)
    ensures History(states', steps') && states' == states + [t] && steps' == steps + [a]
  {
    hide Takes, Init;
    states', steps' := states + [t], steps + [a];
  }

  /** A process with a child that it waits for. */
  lemma ParentWaits() returns (states: seq<State>, steps: seq<Step>)
    ensures History(states, steps) && steps == [Run(0), Alloc(0, 1), Adopt(0), Start(0), Waits(0, MustSleep)]
    ensures states[5] == Table(Self(SLEEPING, OfProc(0)), Child(RUNNABLE, Some(0), false), InWait, 3)
  {
    var r := Self(RUNNING, NoChan);
    Starts();
    Forks(false);
    ChildExits();
    hide Takes, Init, Table, Self, Child, Nobody;
    states, steps := [Table(Self(RUNNABLE, NoChan), Nobody(false), Idle, 2)], [];
    states, steps := Onward(states, steps, Run(0), Table(r, Nobody(false), Idle, 2));
    states, steps := Onward(states, steps, Alloc(0, 1), Table(r, Child(EMBRYO, None, false), Forking(1), 3));
    states, steps := Onward(states, steps, Adopt(0), Table(r, Child(EMBRYO, Some(0), false), Forking(1), 3));
    states, steps := Onward(states, steps, Start(0), Table(r, Child(RUNNABLE, Some(0), false), Idle, 3));
    states, steps := Onward(states, steps, Waits(0, MustSleep),
                            Table(Self(SLEEPING, OfProc(0)), Child(RUNNABLE, Some(0), false), InWait, 3));
  }

  /** fork, a wait that sleeps, the child's exit, and the wait that returns its number:
      the slot is free again. */
  lemma FamilyRun() returns (states: seq<State>, steps: seq<Step>)
    ensures History(states, steps)
    ensures steps == [Run(0), Alloc(0, 1), Adopt(0), Start(0), Waits(0, MustSleep)]
                     + [Run(1), Exits(1), Run(0), Waits(0, Reaped(1, 2))]
    ensures states[9].reaped == [2] && states[9].proc == [Self(RUNNING, NoChan), Nobody(false)]
  {
    var r := Self(RUNNING, NoChan);
    var z := Table(Self(RUNNABLE, OfProc(0)), Child(ZOMBIE, Some(0), false), InWait, 3).(exited := {2});
    var end := Table(r, Nobody(false), Idle, 3).(exited := {2}, reaped := [2]);
    assert z.proc[0 := r] == [r, Child(ZOMBIE, Some(0), false)] && end.proc == [r, Nobody(false)];
    var z' := z.(proc := z.proc[0 := r]);
    assert z' == Table(r, Child(ZOMBIE, Some(0), false), InWait, 3).(exited := {2});
    states, steps := ParentWaits();
    ChildExits();
    ParentReaps();
    hide Takes, Init, Table, Self, Child, Nobody;
    states, steps := Onward(states, steps, Run(1),
                            Table(Self(SLEEPING, OfProc(0)), Child(RUNNING, Some(0), false), InWait, 3));
    states, steps := Onward(states, steps, Exits(1), z);
    states, steps := Onward(states, steps, Run(0), z');
    states, steps := Onward(states, steps, Waits(0, Reaped(1, 2)), end);
  }
}
