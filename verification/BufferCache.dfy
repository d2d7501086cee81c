/** The buffer cache (bio.c) over the memory disk (memide.c): a fixed array of
    buffers on a doubly linked recency list, with reference counts, sleep locks
    and the VALID and DIRTY flags. */
module BufferCache {
  import opened Disk
  import opened Counting
  import opened Wrappers

  const ROOTDEV := 1

  datatype Buf = Buf(dev: nat, blockno: nat, valid: bool, dirty: bool,
                     refcnt: nat, locked: bool, data: Block)
  {
    predicate Holds(d: nat, b: nat) { dev == d && blockno == b }

    /** What the second loop of bget may recycle. */
    predicate Recyclable() { refcnt == 0 && !dirty }
  }

  // The linked list, as values. Node h is the list head.

  /** The k-th node on the way round: the head at 0 and again at |order| + 1. */
  function Node(order: seq<nat>, h: nat, k: nat): (r: nat)
    requires k <= |order| + 1
  {
    if 1 <= k <= |order| then order[k - 1] else h
  }

  predicate Bounded(nx: seq<nat>, pv: seq<nat>, h: nat) {
    && |nx| == |pv| == h + 1
    && (forall i :: 0 <= i <= h ==> nx[i] <= h && pv[i] <= h)
  }

  predicate Linked(nx: seq<nat>, pv: seq<nat>, order: seq<nat>, h: nat) {
    && Bounded(nx, pv, h)
    && (forall k :: 0 <= k < |order| ==> order[k] < h)
    && (forall j, k :: 0 <= j < k < |order| ==> order[j] != order[k])
    && (forall k :: 0 <= k <= |order| ==> nx[Node(order, h, k)] == Node(order, h, k + 1))
    && (forall k :: 0 < k <= |order| + 1 ==> pv[Node(order, h, k)] == Node(order, h, k - 1))
  }

  function Without(order: seq<nat>, k: nat): (r: seq<nat>)
    requires k < |order|
    ensures |r| == |order| - 1
    ensures forall j :: 0 <= j < |r| ==> r[j] == if j < k then order[j] else order[j + 1]
  {
    order[..k] + order[k + 1..]
  }

  /** The four assignments of binit and brelse that put b behind the head. */
  lemma PutFirst(nx: seq<nat>, pv: seq<nat>, order: seq<nat>, h: nat, b: nat)
    requires Linked(nx, pv, order, h) && b < h && b !in order
    ensures Linked(nx[b := nx[h]][h := b], pv[b := h][nx[h] := b], [b] + order, h)
  {
    var nx', pv' := nx[b := nx[h]][h := b], pv[b := h][nx[h] := b];
    var order' := [b] + order;
    assert nx[Node(order, h, 0)] == Node(order, h, 1);
    forall k | 0 <= k <= |order'| ensures nx'[Node(order', h, k)] == Node(order', h, k + 1) {
      if k > 1 {
        assert nx[Node(order, h, k - 1)] == Node(order, h, k);
      }
    }
    forall k | 0 < k <= |order'| + 1 ensures pv'[Node(order', h, k)] == Node(order', h, k - 1) {
      if k > 2 {
        assert pv[Node(order, h, k - 1)] == Node(order, h, k - 2);
      }
    }
  }

  /** The two assignments of brelse that take a node out. */
  lemma TakeOut(nx: seq<nat>, pv: seq<nat>, order: seq<nat>, h: nat, k: nat)
    requires Linked(nx, pv, order, h) && k < |order|
    ensures var b := order[k];
            Linked(nx[pv[b] := nx[b]], pv[nx[b] := pv[b]], Without(order, k), h)
  {
    var b := order[k];
    var order' := Without(order, k);
    assert nx[Node(order, h, k + 1)] == Node(order, h, k + 2);
    assert pv[Node(order, h, k + 1)] == Node(order, h, k);
    forall j | 0 <= j <= |order'|
      ensures nx[pv[b] := nx[b]][Node(order', h, j)] == Node(order', h, j + 1)
    {
      TakeOutNext(nx, pv, order, h, k, j);
    }
    forall j | 0 < j <= |order'| + 1
      ensures pv[nx[b] := pv[b]][Node(order', h, j)] == Node(order', h, j - 1)
    {
      TakeOutPrev(nx, pv, order, h, k, j);
    }
  }

  lemma TakeOutNext(nx: seq<nat>, pv: seq<nat>, order: seq<nat>, h: nat, k: nat, j: nat)
    requires Linked(nx, pv, order, h) && k < |order| && j < |order|
    ensures nx[Node(order, h, k) := Node(order, h, k + 2)][Node(Without(order, k), h, j)]
         == Node(Without(order, k), h, j + 1)
  {
    var i := if j <= k then j else j + 1;
    assert nx[Node(order, h, i)] == Node(order, h, i + 1);
  }

  lemma TakeOutPrev(nx: seq<nat>, pv: seq<nat>, order: seq<nat>, h: nat, k: nat, j: nat)
    requires Linked(nx, pv, order, h) && k < |order| && 0 < j <= |order|
    ensures pv[Node(order, h, k + 2) := Node(order, h, k)][Node(Without(order, k), h, j)]
         == Node(Without(order, k), h, j - 1)
  {
    var i := if j <= k then j else j + 1;
    assert pv[Node(order, h, i)] == Node(order, h, i - 1);
  }

  // The buffers, as values.

  predicate OneBufferPerBlock(bs: seq<Buf>) {
    forall i, j :: 0 <= i < j < |bs| && bs[i].dev != 0 ==> !bs[j].Holds(bs[i].dev, bs[i].blockno)
  }

  /** Block b has a buffer whose contents need not be on disk yet. */
  ghost predicate Pinned(bs: seq<Buf>, b: nat) {
    exists i :: 0 <= i < |bs| && bs[i].Holds(ROOTDEV, b) && bs[i].valid && (bs[i].dirty || bs[i].locked)
  }

  /** latest[b] is what a reader of block b must see. */
  ghost predicate Agrees(bs: seq<Buf>, disk: Image, latest: Image) {
    && |latest| == |disk|
    && (forall i :: 0 <= i < |bs| && bs[i].dev == ROOTDEV && bs[i].valid ==>
          bs[i].blockno < |disk| && bs[i].data == latest[bs[i].blockno])
    && (forall b :: 0 <= b < |disk| && !Pinned(bs, b) ==> latest[b] == disk[b])
  }

  ghost predicate Sound(bs: seq<Buf>) {
    && OneBufferPerBlock(bs)
    && (forall i :: 0 <= i < |bs| ==> bs[i].dirty ==> bs[i].valid && bs[i].dev == ROOTDEV)
    && (forall i :: 0 <= i < |bs| ==> bs[i].locked ==> bs[i].refcnt > 0)
  }

  /** Changing one buffer keeps every block it does not pin. */
  lemma PinnedElsewhere(bs: seq<Buf>, i: nat, x: Buf, b: nat)
    requires i < |bs| && !bs[i].Holds(ROOTDEV, b) && !x.Holds(ROOTDEV, b)
    ensures Pinned(bs, b) <==> Pinned(bs[i := x], b)
  {
    if Pinned(bs, b) {
      var j :| 0 <= j < |bs| && bs[j].Holds(ROOTDEV, b) && bs[j].valid && (bs[j].dirty || bs[j].locked);
      assert bs[i := x][j] == bs[j];
    }
    if Pinned(bs[i := x], b) {
      var j :| 0 <= j < |bs| && bs[i := x][j].Holds(ROOTDEV, b) && bs[i := x][j].valid
            && (bs[i := x][j].dirty || bs[i := x][j].locked);
      assert bs[j] == bs[i := x][j];
    }
  }

  /** Replacing buffer i by x keeps agreement, when what x shows and what it
      unpins is right. The old buffer may be given up only if unpinned. */
  lemma Replace(bs: seq<Buf>, disk: Image, latest: Image, i: nat, x: Buf, disk': Image, latest': Image)
    requires Sound(bs) && Agrees(bs, disk, latest) && i < |bs|
    requires |disk'| == |latest'| == |disk|
    requires x.dev != 0 ==> forall j :: 0 <= j < |bs| && j != i ==> !bs[j].Holds(x.dev, x.blockno)
    requires x.dirty ==> x.valid && x.dev == ROOTDEV
    requires x.locked ==> x.refcnt > 0
    requires x.dev == ROOTDEV && x.valid ==> x.blockno < |disk| && x.data == latest'[x.blockno]
    requires x.dev == ROOTDEV && x.blockno < |disk| && !(x.valid && (x.dirty || x.locked))
      ==> latest'[x.blockno] == disk'[x.blockno]
    requires !x.Holds(bs[i].dev, bs[i].blockno) ==> !bs[i].dirty && !bs[i].locked
    requires forall b :: 0 <= b < |disk| && !x.Holds(ROOTDEV, b) ==>
               latest'[b] == latest[b] && disk'[b] == disk[b]
    ensures Sound(bs[i := x]) && Agrees(bs[i := x], disk', latest')
  {
    var bs' := bs[i := x];
    forall b | 0 <= b < |disk| && !Pinned(bs', b) ensures latest'[b] == disk'[b] {
      if x.Holds(ROOTDEV, b) {
        assert bs'[i] == x;
      } else if !bs[i].Holds(ROOTDEV, b) {
        PinnedElsewhere(bs, i, x, b);
      }
    }
    forall j | 0 <= j < |bs'| && bs'[j].dev == ROOTDEV && bs'[j].valid
      ensures bs'[j].blockno < |disk| && bs'[j].data == latest'[bs'[j].blockno]
    {
      if j != i {
        assert bs'[j] == bs[j];
      }
    }
  }

  class Bcache {
    var buf: seq<Buf>
    const next: array<nat>
    const prev: array<nat>
    var disk: Image
    ghost const image: Image      // the disk at the start
    ghost var trace: seq<Write>   // the block writes the disk has taken since
    ghost var latest: Image       // what readers must see
    ghost var order: seq<nat>     // the recency list, most recent first

    ghost predicate ListValid()
      reads this, next, prev
    {
      && next != prev
      && |order| == |buf|
      && Linked(next[..], prev[..], order, |buf|)
    }

    ghost predicate Traced()
      reads this
    {
      InRange(trace, |image|) && disk == Apply(image, trace)
    }

    ghost predicate Valid()
      reads this, next, prev
    {
      && ListValid()
      && Traced()
      && Sound(buf)
      && Agrees(buf, disk, latest)
    }

    /** binit, on a disk that holds img. */
    constructor (nbuf: nat, img: Image)
      ensures Valid()
      ensures fresh(next) && fresh(prev) && |buf| == nbuf
      ensures image == disk == latest == img && trace == []
      ensures forall i :: 0 <= i < nbuf ==> buf[i].Recyclable() && buf[i].dev == 0
    {
      image, disk, latest, trace := img, img, img, [];
      order := [];
      buf := seq(nbuf, _ => Buf(0, 0, false, false, 0, false, ZERO_BLOCK));
      next := new nat[nbuf + 1](_ => nbuf);
      prev := new nat[nbuf + 1](_ => nbuf);
      new;
      var b := 0;
      while b < nbuf
        invariant 0 <= b <= nbuf
        invariant next != prev && Linked(next[..], prev[..], order, nbuf)
        invariant |order| == b && forall k :: 0 <= k < b ==> order[k] < b
        invariant image == disk == latest == img && trace == []
        invariant |buf| == nbuf
        invariant forall i :: 0 <= i < nbuf ==> buf[i] == Buf(0, 0, false, false, 0, false, ZERO_BLOCK)
      {
        LinkFirst(b);
        b := b + 1;
      }
    }

    method LinkFirst(b: nat)
      requires next != prev && Linked(next[..], prev[..], order, |buf|)
      requires b < |buf| && b !in order
      modifies next, prev, `order
      ensures Linked(next[..], prev[..], order, |buf|)
      ensures order == [b] + old(order)
    {
      var head: nat := |buf|;
      PutFirst(next[..], prev[..], order, head, b);
      ghost var nx: seq<nat>, pv: seq<nat> := next[..], prev[..];
      next[b] := next[head];
      prev[b] := head;
      prev[next[head]] := b;
      next[head] := b;
      order := [b] + order;
      assert next[..] == nx[b := nx[head]][head := b];
      assert prev[..] == pv[b := head][nx[head] := b];
    }

    /** Take b off the list. */
    method Unlink(b: nat)
      requires ListValid() && b < |buf| && b in order
      modifies next, prev, `order
      ensures Linked(next[..], prev[..], order, |buf|)
      ensures exists k :: 0 <= k < |old(order)| && old(order)[k] == b && order == Without(old(order), k)
    {
      ghost var k :| 0 <= k < |order| && order[k] == b;
      TakeOut(next[..], prev[..], order, |buf|, k);
      ghost var nx: seq<nat>, pv: seq<nat> := next[..], prev[..];
      assert nx[Node(order, |buf|, k + 1)] == Node(order, |buf|, k + 2);
      assert pv[Node(order, |buf|, k + 1)] == Node(order, |buf|, k);
      prev[next[b]] := prev[b];
      next[prev[b]] := next[b];
      order := Without(order, k);
      assert next[..] == nx[pv[b] := nx[b]];
      assert prev[..] == pv[nx[b] := pv[b]];
    }

    /** The first loop of bget: walk forward from the head. The head itself
        (index |buf|) means the block is not cached. */
    method FindCached(dev: nat, blockno: nat) returns (b: nat)
      requires ListValid()
      ensures b <= |buf|
      ensures b < |buf| ==> buf[b].Holds(dev, blockno)
      ensures b == |buf| ==> forall i :: 0 <= i < |buf| ==> !buf[i].Holds(dev, blockno)
    {
      var head: nat := |buf|;
      assert next[..][Node(order, head, 0)] == Node(order, head, 1);
      b := next[head];
      ghost var k := 1;
      while b != head
        invariant 1 <= k <= |order| + 1 && b == Node(order, head, k)
        invariant forall j :: 0 <= j < k - 1 ==> !buf[order[j]].Holds(dev, blockno)
        decreases |order| - k
      {
        if buf[b].dev == dev && buf[b].blockno == blockno {
          return;
        }
        assert next[..][Node(order, head, k)] == Node(order, head, k + 1);
        b := next[b];
        k := k + 1;
      }
      Permutation(order);
      forall i | 0 <= i < |buf| ensures !buf[i].Holds(dev, blockno) {
        assert i in order;
      }
    }

    /** The second loop of bget: walk backward, so that the least recently
        used candidate is found first. */
    method FindRecyclable() returns (b: nat)
      requires ListValid()
      ensures b <= |buf|
      ensures b < |buf| ==> buf[b].Recyclable() && LeastRecent(b)
      ensures b == |buf| ==> forall i :: 0 <= i < |buf| ==> !buf[i].Recyclable()
    {
      var head: nat := |buf|;
      assert prev[..][Node(order, head, |order| + 1)] == Node(order, head, |order|);
      b := prev[head];
      ghost var k := |order|;
      while b != head
        invariant 0 <= k <= |order| && b == Node(order, head, k)
        invariant forall j :: k <= j < |order| ==> !buf[order[j]].Recyclable()
        decreases k
      {
        if buf[b].refcnt == 0 && !buf[b].dirty {
          assert order[k - 1] == b;
          return;
        }
        assert prev[..][Node(order, head, k)] == Node(order, head, k - 1);
        b := prev[b];
        k := k - 1;
      }
      Permutation(order);
      forall i | 0 <= i < |buf| ensures !buf[i].Recyclable() {
        assert i in order;
      }
    }

    /** No buffer released longer ago than b could have been recycled. */
    ghost predicate LeastRecent(b: nat)
      requires ListValid()
      reads this, next, prev
    {
      exists k :: 0 <= k < |order| && order[k] == b
        && forall j :: k < j < |order| ==> !buf[order[j]].Recyclable()
    }

    /** The critical section of bget. None is the panic "bget: no buffers". */
    method Bget(dev: nat, blockno: nat) returns (r: Option<nat>)
      requires Valid() && dev != 0
      modifies `buf
      ensures ListValid() && Sound(buf)
      ensures r.None? <==> forall i :: 0 <= i < |buf| ==>
                !old(buf)[i].Holds(dev, blockno) && !old(buf)[i].Recyclable()
      ensures r.None? ==> buf == old(buf)
      ensures r.Some? ==> r.value < |buf| && Got(old(buf), buf, r.value, dev, blockno)
      ensures r.Some? && !old(buf)[r.value].Holds(dev, blockno) ==> old(LeastRecent(r.value))
      ensures r.None? || (dev == ROOTDEV && blockno < |disk|) ==> Agrees(buf, disk, latest)
    {
      ghost var bs := buf;
      var b := FindCached(dev, blockno);
      if b < |buf| {
        Replace(bs, disk, latest, b, bs[b].(refcnt := bs[b].refcnt + 1), disk, latest);
        buf := buf[b := buf[b].(refcnt := buf[b].refcnt + 1)];
        assert buf == bs[b := bs[b].(refcnt := bs[b].refcnt + 1)];
        return Some(b);
      }
      b := FindRecyclable();
      if b == |buf| {
        return None;
      }
      ghost var x := Buf(dev, blockno, false, false, 1, buf[b].locked, buf[b].data);
      Replace(bs, disk, latest, b, x, disk, latest);
      buf := buf[b := Buf(dev, blockno, false, false, 1, buf[b].locked, buf[b].data)];
      assert buf == bs[b := x];
      return Some(b);
    }

    /** iderw: write a dirty buffer, read one that is not valid. False is one of its
        four panics. */
    method Iderw(i: nat) returns (ok: bool)
      requires ListValid() && Traced() && i < |buf|
      modifies `buf, `disk, `trace
      ensures ListValid() && Traced()
      ensures var was := old(buf)[i];
              ok <==> was.locked && (was.dirty || !was.valid) && was.dev == ROOTDEV && was.blockno < |old(disk)|
      ensures var was := old(buf)[i];
              if !ok then
                buf == old(buf) && disk == old(disk) && trace == old(trace)
              else if was.dirty then
                && buf == old(buf)[i := was.(dirty := false, valid := true)]
                && disk == old(disk)[was.blockno := was.data]
                && trace == old(trace) + [Write(was.blockno, was.data)]
              else
                && buf == old(buf)[i := was.(data := old(disk)[was.blockno], valid := true)]
                && disk == old(disk) && trace == old(trace)
    {
      ghost var bs := buf;
      var b := buf[i];
      if !b.locked || (b.valid && !b.dirty) || b.dev != ROOTDEV || b.blockno >= |disk| {
        return false;
      }
      if b.dirty {
        b := b.(dirty := false);
        disk := disk[b.blockno := b.data];
        ApplyAppend(image, trace, [Write(b.blockno, b.data)]);
        trace := trace + [Write(b.blockno, b.data)];
      } else {
        b := b.(data := disk[b.blockno]);
      }
      buf := buf[i := b.(valid := true)];
      assert buf == bs[i := b.(valid := true)];
      return true;
    }

    /** bread. The wait for a buffer that another process has locked is the
        third requires; None is the panic of bget. */
    method Bread(blockno: nat) returns (r: Option<nat>)
      requires Valid() && blockno < |disk|
      requires forall i :: 0 <= i < |buf| && buf[i].Holds(ROOTDEV, blockno) ==> !buf[i].locked
      modifies `buf, `disk, `trace
      ensures Valid() && disk == old(disk) && trace == old(trace)
      ensures r.None? <==> forall i :: 0 <= i < |buf| ==>
                !old(buf)[i].Holds(ROOTDEV, blockno) && !old(buf)[i].Recyclable()
      ensures r.None? ==> buf == old(buf)
      ensures r.Some? ==> r.value < |buf| && ReadInto(old(buf), buf, r.value, blockno, latest[blockno])
    {
      hide Linked, Apply;
      ghost var bs := buf;
      r := Bget(ROOTDEV, blockno);
      if r.Some? {
        var i := r.value;
        ghost var got := buf;
        buf := buf[i := buf[i].(locked := true)];       // acquiresleep
        assert buf == got[i := got[i].(locked := true)];
        if !buf[i].valid {
          Unread(bs, blockno, i);
          assert Sound(buf);
          var _ := Iderw(i);
        }
        ghost var x := buf[i];
        assert buf == got[i := x];
        Replace(got, disk, latest, i, x, disk, latest);
      }
    }

    /** The caller's change to the data of a buffer it holds. */
    method SetData(i: nat, data: Block)
      requires Valid() && i < |buf|
      requires buf[i].locked && buf[i].valid && buf[i].dev == ROOTDEV
      modifies `buf, `latest
      ensures Valid()
      ensures buf == old(buf)[i := old(buf)[i].(data := data)]
      ensures latest == old(latest)[buf[i].blockno := data]
    {
      ghost var bs := buf;
      ghost var x := bs[i].(data := data);
      Replace(bs, disk, latest, i, x, disk, latest[x.blockno := data]);
      buf := buf[i := buf[i].(data := data)];
      latest := latest[x.blockno := data];
      assert buf == bs[i := x];
    }

    /** log_write's last step: keep the buffer until it has been committed. */
    method MarkDirty(i: nat)
      requires Valid() && i < |buf|
      requires buf[i].locked && buf[i].valid && buf[i].dev == ROOTDEV
      modifies `buf
      ensures Valid()
      ensures buf == old(buf)[i := old(buf)[i].(dirty := true)]
    {
      ghost var bs := buf;
      Replace(bs, disk, latest, i, bs[i].(dirty := true), disk, latest);
      buf := buf[i := buf[i].(dirty := true)];
      assert buf == bs[i := bs[i].(dirty := true)];
    }

    method Bwrite(i: nat)
      requires Valid() && i < |buf|
      requires buf[i].locked && buf[i].valid && buf[i].dev == ROOTDEV
      modifies `buf, `disk, `trace
      ensures Valid()
      ensures var was := old(buf)[i];
              && buf == old(buf)[i := was.(dirty := false)]
              && disk == old(disk)[was.blockno := was.data]
              && trace == old(trace) + [Write(was.blockno, was.data)]
    {
      ghost var bs := buf;
      MarkDirty(i);
      var _ := Iderw(i);
      assert buf == bs[i := bs[i].(dirty := false)];
      Replace(bs, old(disk), latest, i, bs[i].(dirty := false), disk, latest);
    }

    /** brelse. The caller has logged or written what it changed. */
    method Brelse(i: nat)
      requires Valid() && i < |buf|
      requires buf[i].locked && buf[i].valid && buf[i].dev == ROOTDEV
      requires buf[i].dirty || buf[i].data == disk[buf[i].blockno]
      modifies this, next, prev
      ensures Valid()
      ensures disk == old(disk) && latest == old(latest) && trace == old(trace)
      ensures var was := old(buf)[i];
              buf == old(buf)[i := was.(locked := false, refcnt := was.refcnt - 1)]
      ensures if buf[i].refcnt == 0
              then exists k :: 0 <= k < |old(order)| && old(order)[k] == i
                     && order == [i] + Without(old(order), k)
              else order == old(order)
    {
      ghost var bs := buf;
      ghost var x := bs[i].(locked := false, refcnt := bs[i].refcnt - 1);
      Replace(bs, disk, latest, i, x, disk, latest);
      buf := buf[i := buf[i].(locked := false)];        // releasesleep
      buf := buf[i := buf[i].(refcnt := buf[i].refcnt - 1)];
      assert buf == bs[i := x];
      if buf[i].refcnt == 0 {
        Permutation(order);
        Unlink(i);
        LinkFirst(i);
      }
    }
  }

  /** What bread does to the buffers: as bget, and the buffer is locked, valid
      and shows the latest contents of the block. */
  predicate ReadInto(bs: seq<Buf>, bs': seq<Buf>, i: nat, blockno: nat, data: Block)
    requires i < |bs|
  {
    if bs[i].Holds(ROOTDEV, blockno) then
      && (bs[i].valid ==> bs[i].data == data)
      && bs' == bs[i := Buf(ROOTDEV, blockno, true, bs[i].dirty, bs[i].refcnt + 1, true, data)]
    else
      && bs[i].Recyclable() && !bs[i].locked
      && bs' == bs[i := Buf(ROOTDEV, blockno, true, false, 1, true, data)]
      && forall j :: 0 <= j < |bs| ==> !bs[j].Holds(ROOTDEV, blockno)
  }

  /** A block without a valid buffer is on disk as its readers must see it. */
  lemma Unread(bs: seq<Buf>, b: nat, i: nat)
    requires Sound(bs) && i < |bs|
    requires if bs[i].Holds(ROOTDEV, b) then !bs[i].valid
             else forall j :: 0 <= j < |bs| ==> !bs[j].Holds(ROOTDEV, b)
    ensures !Pinned(bs, b)
  {
  }

  /** What bget does to the buffers: one more reference to the block's buffer,
      or else one clean, unreferenced buffer given over to the block. */
  predicate Got(bs: seq<Buf>, bs': seq<Buf>, i: nat, dev: nat, blockno: nat)
    requires i < |bs|
  {
    if bs[i].Holds(dev, blockno) then
      bs' == bs[i := bs[i].(refcnt := bs[i].refcnt + 1)]
    else
      && bs[i].Recyclable() && !bs[i].locked
      && bs' == bs[i := Buf(dev, blockno, false, false, 1, false, bs[i].data)]
      && forall j :: 0 <= j < |bs| ==> !bs[j].Holds(dev, blockno)
  }
}
