/** Pipes (pipe.c): a 512-byte ring between two counters that wrap at 2^32. A call
    runs in stretches under p->lock, broken where it sleeps; each stretch is one
    operation here, so that any interleaving of calls is a sequence of them. */
module Pipe {
  import opened Counters

  const PIPESIZE := 512

  type Byte = bv8

  /** What the ring and its counters stand for: all bytes ever stored, how many of
      them have been read, which ends are open, and whether anyone is asleep on
      &nread (a reader) or &nwrite (a writer). */
  datatype Flow = Flow(stored: seq<Byte>, taken: nat, readopen: bool, writeopen: bool, rsleep: bool, wsleep: bool)

  predicate Bounded(f: Flow) { f.taken <= |f.stored| <= f.taken + PIPESIZE }

  function Held(f: Flow): (r: nat)
    requires Bounded(f)
  {
    |f.stored| - f.taken
  }

  function Min(a: nat, b: nat): (r: nat) { if a <= b then a else b }

  datatype Outcome = Done | Failed | Asleep

  /** A stretch of pipewrite, from byte i of the caller's data on. */
  function WriteStretch(f: Flow, data: seq<Byte>, i: nat, killed: bool): (r: (Flow, nat, Outcome))
    requires Bounded(f) && i <= |data|
    ensures Bounded(r.0) && i <= r.1 <= |data|
  {
    var k := Min(|data| - i, PIPESIZE - Held(f));
    var g := f.(stored := f.stored + data[i..i + k]);
    if i + k == |data| then (g.(rsleep := false), i + k, Done)
    else if !f.readopen || killed then (g, i + k, Failed)
    else (g.(rsleep := false, wsleep := true), i + k, Asleep)
  }

  /** A stretch of piperead, and the bytes it hands over. */
  function ReadStretch(f: Flow, n: nat, killed: bool): (r: (Flow, seq<Byte>, Outcome))
    requires Bounded(f)
    ensures Bounded(r.0)
  {
    if Held(f) == 0 && f.writeopen then
      if killed then (f, [], Failed) else (f.(rsleep := true), [], Asleep)
    else
      var k := Min(n, Held(f));
      (f.(taken := f.taken + k, wsleep := false), f.stored[f.taken..f.taken + k], Done)
  }

  function Closed(f: Flow, writable: bool): (r: Flow) {
    if writable then f.(writeopen := false, rsleep := false) else f.(readopen := false, wsleep := false)
  }

  /** What a stretch of pipewrite comes to: it stores its next bytes, all of them if
      they fit and a full pipe's worth if not. It is done just when all are stored;
      otherwise it sleeps, having woken the readers, if somebody may still read and it
      is not killed, and fails if not. */
  lemma WriteIs(f: Flow, data: seq<Byte>, i: nat, killed: bool)
    requires Bounded(f) && i <= |data|
    ensures var (g, k, r) := WriteStretch(f, data, i, killed);
            && g.stored == f.stored + data[i..k] && g.taken == f.taken
            && g.readopen == f.readopen && g.writeopen == f.writeopen
            && (k == |data| <==> |data| - i <= PIPESIZE - Held(f)) && (k < |data| ==> Held(g) == PIPESIZE)
            && (r == Done <==> k == |data|)
            && (r == Asleep <==> k < |data| && f.readopen && !killed)
            && (g.wsleep <==> f.wsleep || r == Asleep) && (g.rsleep <==> f.rsleep && r == Failed)
  {
  }

  /** What a stretch of piperead comes to: on an empty pipe that may still be written
      it sleeps or, if killed, fails; otherwise it takes the oldest bytes, as many as
      asked for or there are, and wakes the writers. */
  lemma ReadIs(f: Flow, n: nat, killed: bool)
    requires Bounded(f)
    ensures var (g, out, r) := ReadStretch(f, n, killed);
            && (r == Done <==> |f.stored| > f.taken || !f.writeopen) && (r == Asleep ==> !killed)
            && (r == Failed ==> killed)
            && (r != Done ==> out == [])
            && (r == Done ==> |out| == n || (|out| < n && f.taken + |out| == |f.stored|))
            && f.taken + |out| <= |f.stored| && out == f.stored[f.taken..f.taken + |out|]
            && g.stored == f.stored && g.taken == f.taken + |out|
            && g.readopen == f.readopen && g.writeopen == f.writeopen
            && (g.rsleep <==> f.rsleep || r == Asleep) && (g.wsleep <==> f.wsleep && r != Done)
  {
  }

  /** pipeclose shuts its end, for good, wakes the other side, and touches no byte. */
  lemma CloseIs(f: Flow, writable: bool)
    ensures var g := Closed(f, writable);
            && g.stored == f.stored && g.taken == f.taken
            && (g.writeopen <==> f.writeopen && !writable) && (g.readopen <==> f.readopen && writable)
            && (g.rsleep <==> f.rsleep && !writable) && (g.wsleep <==> f.wsleep && writable)
  {
  }

  // The ring

  /** The ring holds the bytes not yet read, each where its number says. */
  ghost predicate Tied(ring: seq<Byte>, nread: nat, nwrite: nat, stored: seq<Byte>, taken: nat) {
    && |ring| == PIPESIZE && nread == taken % WORD && nwrite == |stored| % WORD
    && forall k :: taken <= k < |stored| ==> ring[k % PIPESIZE] == stored[k]
  }

  class Ring {
    var data: array<Byte>
    var nread: nat
    var nwrite: nat
    var readopen: bool
    var writeopen: bool
    ghost var flow: Flow

    ghost predicate Valid()
      reads this, data
    {
      && Bounded(flow) && Tied(data[..], nread, nwrite, flow.stored, flow.taken)
      && readopen == flow.readopen && writeopen == flow.writeopen
    }

    constructor ()
      ensures Valid() && fresh(data) && flow == Start() == Flow([], 0, true, true, false, false)
    {
      data := new Byte[PIPESIZE](_ => 0);
      nread, nwrite, readopen, writeopen := 0, 0, true, true;
      flow := Flow([], 0, true, true, false, false);
    }

    /** nwrite == nread + PIPESIZE, in 32-bit arithmetic. */
    method Full() returns (r: bool)
      requires Valid()
      ensures r <==> Held(flow) == PIPESIZE
    {
      Wraps(flow.taken, |flow.stored|);
      return nwrite == (nread + PIPESIZE) % WORD;
    }

    method Empty() returns (r: bool)
      requires Valid()
      ensures r <==> Held(flow) == 0
    {
      Wraps(flow.taken, |flow.stored|);
      return nread == nwrite;
    }

    method Store(b: Byte)
      requires Valid() && Held(flow) < PIPESIZE
      modifies this, data
      ensures Valid() && data == old(data) && flow == old(flow).(stored := old(flow).stored + [b])
    {
      SameSlot(|flow.stored|, PIPESIZE);
      ghost var n := |flow.stored|;
      forall k | flow.taken <= k < n ensures k % PIPESIZE != n % PIPESIZE { OtherSlot(k, n, PIPESIZE); }
      data[nwrite % PIPESIZE] := b;
      nwrite := (nwrite + 1) % WORD;
      NextCount(n);
      flow := flow.(stored := flow.stored + [b]);
    }

    method Fetch() returns (b: Byte)
      requires Valid() && Held(flow) > 0
      modifies this
      ensures Valid() && data == old(data) && flow == old(flow).(taken := old(flow).taken + 1)
              && b == flow.stored[flow.taken - 1]
    {
      SameSlot(flow.taken, PIPESIZE);
      b := data[nread % PIPESIZE];
      nread := (nread + 1) % WORD;
      NextCount(flow.taken);
      flow := flow.(taken := flow.taken + 1);
    }

    method Write(addr: seq<Byte>, from: nat, killed: bool) returns (i: nat, r: Outcome)
      requires Valid() && from <= |addr|
      modifies this, data
      ensures Valid() && data == old(data) && (flow, i, r) == WriteStretch(old(flow), addr, from, killed)
    {
      hide Tied;
      i := from;
      ghost var f := flow;
      while i < |addr|
        invariant Valid() && data == old(data) && from <= i <= |addr|
        invariant flow == f.(stored := f.stored + addr[from..i]) && i - from <= PIPESIZE - Held(f)
      {
        var full := Full();
        if full {
          if !readopen || killed {
            return i, Failed;
          }
          flow := flow.(rsleep := false, wsleep := true);
          return i, Asleep;
        }
        SliceNext(addr, from, i);
        Store(addr[i]);
        i := i + 1;
      }
      flow := flow.(rsleep := false);
      return i, Done;
    }

    method Read(n: nat, killed: bool) returns (out: seq<Byte>, r: Outcome)
      requires Valid()
      modifies this
      ensures Valid() && data == old(data) && (flow, out, r) == ReadStretch(old(flow), n, killed)
    {
      hide Tied;
      var empty := Empty();
      if empty && writeopen {
        if killed {
          return [], Failed;
        }
        flow := flow.(rsleep := true);
        return [], Asleep;
      }
      out := Drain(n);
      flow := flow.(wsleep := false);
      return out, Done;
    }

    /** pipeclose: whether the pipe is to be freed. */
    method Close(writable: bool) returns (free: bool)
      requires Valid()
      modifies this
      ensures Valid() && data == old(data) && flow == Closed(old(flow), writable)
      ensures free <==> !flow.readopen && !flow.writeopen
    {
      if writable {
        writeopen := false;
        flow := flow.(writeopen := false, rsleep := false);
      } else {
        readopen := false;
        flow := flow.(readopen := false, wsleep := false);
      }
      return !readopen && !writeopen;
    }

    /** piperead's copy loop. */
    method Drain(n: nat) returns (out: seq<Byte>)
      requires Valid()
      modifies this
      ensures Valid() && data == old(data)
      ensures var f, k := old(flow), Min(n, Held(old(flow)));
              flow == f.(taken := f.taken + k) && out == f.stored[f.taken..f.taken + k]
    {
      hide Tied;
      out := [];
      ghost var f := flow;
      var i := 0;
      while i < n
        invariant Valid() && data == old(data) && i <= n && i <= Held(f)
        invariant flow == f.(taken := f.taken + i) && out == f.stored[f.taken..f.taken + i]
      {
        var empty := Empty();
        if empty {
          break;
        }
        var b := Fetch();
        SliceNext(f.stored, f.taken, f.taken + i);
        out, i := out + [b], i + 1;
      }
    }
  }

  // Counters

  /** Counts no more than PIPESIZE apart are told apart by their low 32 bits. */
  lemma Wraps(a: nat, b: nat)
    requires a <= b <= a + PIPESIZE
    ensures a % WORD == b % WORD <==> a == b
    ensures b % WORD == (a % WORD + PIPESIZE) % WORD <==> b == a + PIPESIZE
  {
  }

  lemma SliceNext(s: seq<Byte>, i: nat, j: nat)
    requires i <= j < |s|
    ensures s[i..j + 1] == s[i..j] + [s[j]]
  {
  }

  // Every interleaving

  datatype Step =
    | Writes(addr: seq<Byte>, from: nat, killed: bool)
    | Reads(n: nat, killed: bool)
    | Closes(writable: bool)
    | Leaves(reader: bool)

  /** Leaves: the last sleeper on one side is killed and wakes. */
  ghost function After(f: Flow, a: Step): (r: Flow)
    requires Bounded(f) && (a.Writes? ==> a.from <= |a.addr|)
    ensures Bounded(r)
  {
    match a
    case Writes(addr, from, killed) => WriteStretch(f, addr, from, killed).0
    case Reads(n, killed) => ReadStretch(f, n, killed).0
    case Closes(writable) => Closed(f, writable)
    case Leaves(reader) => if reader then f.(rsleep := false) else f.(wsleep := false)
  }

  /** The bytes a stretch puts in, and those it takes out. */
  function PutIn(f: Flow, a: Step): (r: seq<Byte>)
    requires Bounded(f) && (a.Writes? ==> a.from <= |a.addr|)
  {
    if a.Writes? then a.addr[a.from..WriteStretch(f, a.addr, a.from, a.killed).1] else []
  }

  function TakenOut(f: Flow, a: Step): (r: seq<Byte>)
    requires Bounded(f)
  {
    if a.Reads? then ReadStretch(f, a.n, a.killed).1 else []
  }

  function Start(): (r: Flow) { Flow([], 0, true, true, false, false) }

  ghost predicate Sane(steps: seq<Step>) {
    forall i :: 0 <= i < |steps| && steps[i].Writes? ==> steps[i].from <= |steps[i].addr|
  }

  ghost function Runs(steps: seq<Step>): (r: Flow)
    requires Sane(steps)
    ensures Bounded(r)
  {
    if steps == [] then Start() else After(Runs(steps[..|steps| - 1]), steps[|steps| - 1])
  }

  ghost function AllIn(steps: seq<Step>): (r: seq<Byte>)
    requires Sane(steps)
  {
    if steps == [] then []
    else AllIn(steps[..|steps| - 1]) + PutIn(Runs(steps[..|steps| - 1]), steps[|steps| - 1])
  }

  ghost function AllOut(steps: seq<Step>): (r: seq<Byte>)
    requires Sane(steps)
  {
    if steps == [] then []
    else AllOut(steps[..|steps| - 1]) + TakenOut(Runs(steps[..|steps| - 1]), steps[|steps| - 1])
  }

  lemma OneStep(f: Flow, a: Step)
    requires Bounded(f) && (a.Writes? ==> a.from <= |a.addr|)
    ensures var g := After(f, a);
            && g.stored == f.stored + PutIn(f, a)
            && g.taken == f.taken + |TakenOut(f, a)| <= |f.stored| && TakenOut(f, a) == f.stored[f.taken..g.taken]
  {
    match a
    case Writes(addr, from, killed) =>
    case Reads(n, killed) => assert f.stored + [] == f.stored;
    case Closes(_) => assert f.stored + [] == f.stored;
    case Leaves(_) => assert f.stored + [] == f.stored;
  }

  lemma Prefixes(a: seq<Byte>, b: seq<Byte>, i: nat, j: nat)
    requires i <= j <= |a|
    ensures (a + b)[..j] == a[..i] + a[i..j]
  {
  }

  /** First in, first out: what all readers together got is a prefix of what all
      writers together stored, and the rest, at most 512 bytes, is in the pipe. */
  lemma {:induction false} Fifo(steps: seq<Step>)
    requires Sane(steps)
    ensures var f := Runs(steps);
            && f.stored == AllIn(steps) && f.taken == |AllOut(steps)| <= |AllIn(steps)|
            && AllOut(steps) == AllIn(steps)[..f.taken] && |AllIn(steps)| - |AllOut(steps)| <= PIPESIZE
    decreases |steps|
  {
    hide After, PutIn, TakenOut;
    if steps != [] {
      var before, a := steps[..|steps| - 1], steps[|steps| - 1];
      Fifo(before);
      var f := Runs(before);
      OneStep(f, a);
      Prefixes(f.stored, PutIn(f, a), f.taken, After(f, a).taken);
    }
  }

  // One write, over all its stretches

  /** The steps ks are the stretches of one pipewrite of addr: it starts with the first
      byte, goes on where it fell asleep, and sleeps in all but the last. */
  ghost predicate OneWrite(steps: seq<Step>, ks: seq<nat>, addr: seq<Byte>) {
    && Sane(steps) && ks != []
    && (forall m :: 0 <= m < |ks| ==> ks[m] < |steps| && steps[ks[m]].Writes? && steps[ks[m]].addr == addr)
    && steps[ks[0]].from == 0
    && forall m :: 0 < m < |ks| ==> GoesOn(steps, ks[m - 1], ks[m])
  }

  ghost predicate GoesOn(steps: seq<Step>, k: nat, k': nat)
    requires Sane(steps) && k < |steps| && steps[k].Writes? && k' < |steps| && steps[k'].Writes?
  {
    Stretch(steps, k).2 == Asleep && steps[k'].from == Stretch(steps, k).1
  }

  ghost function Stretch(steps: seq<Step>, k: nat): (r: (Flow, nat, Outcome))
    requires Sane(steps) && k < |steps| && steps[k].Writes?
  {
    WriteStretch(Runs(steps[..k]), steps[k].addr, steps[k].from, steps[k].killed)
  }

  /** What the first m stretches put into the pipe. */
  ghost function StoredBy(steps: seq<Step>, ks: seq<nat>, m: nat): (r: seq<Byte>)
    requires Sane(steps) && m <= |ks| && forall j :: 0 <= j < |ks| ==> ks[j] < |steps|
  {
    if m == 0 then [] else StoredBy(steps, ks, m - 1) + PutIn(Runs(steps[..ks[m - 1]]), steps[ks[m - 1]])
  }

  lemma StretchPuts(steps: seq<Step>, k: nat)
    requires Sane(steps) && k < |steps| && steps[k].Writes?
    ensures steps[k].from <= Stretch(steps, k).1 <= |steps[k].addr|
    ensures PutIn(Runs(steps[..k]), steps[k]) == steps[k].addr[steps[k].from..Stretch(steps, k).1]
  {
    hide WriteStretch;
  }

  lemma {:induction false} StoredSoFar(steps: seq<Step>, ks: seq<nat>, addr: seq<Byte>, m: nat)
    requires OneWrite(steps, ks, addr) && 0 < m <= |ks|
    ensures Stretch(steps, ks[m - 1]).1 <= |addr| && StoredBy(steps, ks, m) == addr[..Stretch(steps, ks[m - 1]).1]
    decreases m
  {
    hide Stretch, PutIn, Sane;
    var k := ks[m - 1];
    assert steps[k].addr == addr;
    StretchPuts(steps, k);
    if m == 1 {
      assert StoredBy(steps, ks, 0) == [];
    } else {
      StoredSoFar(steps, ks, addr, m - 1);
      assert GoesOn(steps, ks[m - 2], ks[m - 1]);
      assert addr[..steps[k].from] + addr[steps[k].from..Stretch(steps, k).1] == addr[..Stretch(steps, k).1];
    }
  }

  /** Over every interleaving, a pipewrite stores the bytes of addr in order, without
      gaps of its own and none twice; it returns n just when it has stored them all. */
  lemma WriteStoresAll(steps: seq<Step>, ks: seq<nat>, addr: seq<Byte>)
    requires OneWrite(steps, ks, addr)
    ensures var last := Stretch(steps, ks[|ks| - 1]);
            && last.1 <= |addr| && StoredBy(steps, ks, |ks|) == addr[..last.1]
            && (last.2 == Done <==> StoredBy(steps, ks, |ks|) == addr)
  {
    var k := ks[|ks| - 1];
    StoredSoFar(steps, ks, addr, |ks|);
    WriteIs(Runs(steps[..k]), steps[k].addr, steps[k].from, steps[k].killed);
    hide WriteStretch;
    assert addr[..|addr|] == addr;
  }

  /** piperead of n > 0 bytes returns 0 only from an empty pipe whose write end is
      closed. */
  lemma ReadZero(f: Flow, n: nat, killed: bool)
    requires Bounded(f) && n > 0
    ensures ReadStretch(f, n, killed).2 == Done && ReadStretch(f, n, killed).1 == [] <==> Held(f) == 0 && !f.writeopen
  {
  }

  // Who sleeps

  /** A writer sleeps only on a full pipe that somebody may still read. */
  predicate WriterOk(f: Flow)
    requires Bounded(f)
  {
    f.wsleep ==> Held(f) == PIPESIZE && f.readopen
  }

  /** A reader sleeps only on an empty pipe that somebody may still write. */
  predicate ReaderOk(f: Flow)
    requires Bounded(f)
  {
    f.rsleep ==> Held(f) == 0 && f.writeopen
  }

  lemma StartOk()
    ensures WriterOk(Start())
  {
  }

  lemma WriterStep(f: Flow, a: Step)
    requires Bounded(f) && WriterOk(f) && (a.Writes? ==> a.from <= |a.addr|)
    ensures WriterOk(After(f, a))
  {
  }

  lemma {:induction false} WritersOk(steps: seq<Step>)
    requires Sane(steps)
    ensures WriterOk(Runs(steps))
    decreases |steps|
  {
    hide After, WriterOk, Bounded;
    if steps == [] {
      StartOk();
    } else {
      WritersOk(steps[..|steps| - 1]);
      WriterStep(Runs(steps[..|steps| - 1]), steps[|steps| - 1]);
    }
  }

  /** A write that stores something and then fails, killed or unread, and leaves
      without waking the reader that sleeps. */
  predicate Losing(f: Flow, a: Step) {
    a.Writes? && f.rsleep && |a.addr| - a.from > PIPESIZE && (!f.readopen || a.killed)
  }

  lemma ReaderStep(f: Flow, a: Step)
    requires Bounded(f) && ReaderOk(f) && (a.Writes? ==> a.from <= |a.addr|)
    ensures ReaderOk(After(f, a)) <==> !Losing(f, a)
  {
  }

  ghost predicate ReaderOkAt(steps: seq<Step>, n: nat)
    requires Sane(steps) && n <= |steps|
  {
    ReaderOk(Runs(steps[..n]))
  }

  ghost predicate LosingAt(steps: seq<Step>, n: nat)
    requires Sane(steps) && n < |steps|
  {
    Losing(Runs(steps[..n]), steps[n])
  }

  lemma ReaderNext(steps: seq<Step>, n: nat)
    requires Sane(steps) && n < |steps| && ReaderOkAt(steps, n)
    ensures ReaderOkAt(steps, n + 1) <==> !LosingAt(steps, n)
  {
    assert steps[..n + 1][..n] == steps[..n];
    ReaderStep(Runs(steps[..n]), steps[n]);
  }

  lemma {:induction false} ReaderStaysOk(steps: seq<Step>, n: nat)
    requires Sane(steps) && n <= |steps| && forall i :: 0 <= i < n ==> !LosingAt(steps, i)
    ensures ReaderOkAt(steps, n)
    decreases n
  {
    if n > 0 {
      ReaderStaysOk(steps, n - 1);
      ReaderNext(steps, n - 1);
    }
  }

  /** Over every run: readers sleep only on an empty pipe whose write end is open, all
      along, if and only if no write is a losing one. */
  lemma ReaderKeptIff(steps: seq<Step>)
    requires Sane(steps)
    ensures (forall n :: 0 <= n <= |steps| ==> ReaderOkAt(steps, n))
            <==> forall i :: 0 <= i < |steps| ==> !LosingAt(steps, i)
  {
    hide ReaderOkAt, LosingAt;
    if forall n :: 0 <= n <= |steps| ==> ReaderOkAt(steps, n) {
      forall i | 0 <= i < |steps| ensures !LosingAt(steps, i) {
        assert ReaderOkAt(steps, i) && ReaderOkAt(steps, i + 1);
        ReaderNext(steps, i);
      }
    }
    if forall i :: 0 <= i < |steps| ==> !LosingAt(steps, i) {
      forall n | 0 <= n <= |steps| ensures ReaderOkAt(steps, n) {
        ReaderStaysOk(steps, n);
      }
    }
  }

  /** It can happen: a reader sleeps, then a killed process writes 513 bytes. */
  lemma ReaderLeftAsleep()
    ensures var steps := [Reads(1, false), Writes(seq(513, _ => 0), 0, true)];
            Sane(steps) && !ReaderOk(Runs(steps))
  {
    var r, w := Reads(1, false), Writes(seq(513, _ => 0), 0, true);
    var steps := [r, w];
    assert steps[..1] == [r] && [r][..0] == [];
    assert Runs([r]) == After(Start(), r);
    assert Runs(steps) == After(Runs([r]), w);
    ReaderStep(Runs([r]), w);
  }
}
