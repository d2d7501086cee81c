/** The log over the buffer cache (log.c), as the code runs it. */
module Log {
  import opened Disk
  import opened BufferCache
  import opened Counting
  import Crash
  import opened Reservation
  import opened Params
  import opened Wrappers
  type Geometry = Crash.Geometry
  type Txn = Crash.Txn

  /** Between two block copies of commit or recovery: no buffer is in use, and
      the dirty ones are those of the blocks still to be installed. */
  ghost predicate Settled(bs: seq<Buf>, pinned: seq<nat>) {
    && (forall i :: 0 <= i < |bs| ==> !bs[i].locked && bs[i].refcnt == 0)
    && Pins(bs, pinned)
  }

  /** Exactly the given blocks have dirty buffers. */
  ghost predicate Pins(bs: seq<Buf>, pinned: seq<nat>) {
    && (forall i :: 0 <= i < |bs| && bs[i].dirty ==> bs[i].blockno in pinned)
    && (forall b :: b in pinned ==> DirtyFor(bs, b))
  }

  ghost predicate DirtyFor(bs: seq<Buf>, b: nat) {
    exists i :: 0 <= i < |bs| && bs[i].Holds(ROOTDEV, b) && bs[i].dirty
  }

  ghost predicate OneSpare(bs: seq<Buf>) {
    exists i :: 0 <= i < |bs| && !bs[i].dirty
  }

  ghost predicate TwoSpare(bs: seq<Buf>) {
    exists i, j :: 0 <= i < j < |bs| && !bs[i].dirty && !bs[j].dirty
  }

  function Using(b: nat, dirty: bool, data: Block): (x: Buf) {
    Buf(ROOTDEV, b, true, dirty, 1, true, data)
  }

  function Released(b: nat, dirty: bool, data: Block): (x: Buf) {
    Buf(ROOTDEV, b, true, dirty, 0, false, data)
  }

  /** Buffers i and j are fit to hold a clean block and block b. */
  predicate Paired(bs: seq<Buf>, i: nat, j: nat, b: nat) {
    && i < |bs| && j < |bs| && i != j
    && !bs[i].dirty && (bs[j].dirty ==> bs[j].Holds(ROOTDEV, b))
    && (forall k :: 0 <= k < |bs| && k != j && bs[k].dirty ==> bs[k].blockno != b)
  }

  /** Once the pair is released the cache is settled again. */
  lemma SettledAfter(bs: seq<Buf>, pinned: seq<nat>, i: nat, j: nat, a: nat, b: nat, data: Block, pinned': seq<nat>)
    requires Settled(bs, pinned) && Paired(bs, i, j, b)
    requires forall c :: c in pinned' ==> c in pinned
    requires forall c :: c in pinned ==> c in pinned' || c == b
    ensures Settled(bs[i := Released(a, false, data)][j := Released(b, b in pinned', data)], pinned')
  {
    var bs' := bs[i := Released(a, false, data)][j := Released(b, b in pinned', data)];
    forall c | c in pinned' ensures DirtyFor(bs', c) {
      if c == b {
        assert bs'[j].dirty;
      } else {
        var k :| 0 <= k < |bs| && bs[k].Holds(ROOTDEV, c) && bs[k].dirty;
        assert bs'[k] == bs[k];
      }
    }
  }

  /** Two breads in a row: a clean block, then another block that is dirty (and
      so in the cache), or that finds a second clean buffer to go into. */
  method ReadPair(cache: Bcache, a: nat, b: nat, ghost pinned: seq<nat>) returns (i: nat, j: nat)
    requires cache.Valid() && Settled(cache.buf, pinned)
    requires a < |cache.disk| && b < |cache.disk| && a != b && a !in pinned
    requires OneSpare(cache.buf) && (b in pinned || TwoSpare(cache.buf))
    modifies cache`buf, cache`disk, cache`trace
    ensures cache.Valid() && cache.disk == old(cache.disk) && cache.trace == old(cache.trace)
    ensures Paired(old(cache.buf), i, j, b)
    ensures cache.buf == old(cache.buf)[i := Using(a, false, cache.latest[a])]
                                               [j := Using(b, b in pinned, cache.latest[b])]
  {
    ghost var bs := cache.buf;
    var r := cache.Bread(a);
    i := r.value;
    ghost var bs1 := cache.buf;
    assert bs1 == bs[i := Using(a, false, cache.latest[a])];
    RoomForSecond(bs, bs1, i, a, b, pinned, cache.latest[a]);
    r := cache.Bread(b);
    j := r.value;
    SecondRead(bs, bs1, cache.buf, i, j, a, b, pinned, cache.latest[a], cache.latest[b]);
  }

  lemma RoomForSecond(bs: seq<Buf>, bs1: seq<Buf>, i: nat, a: nat, b: nat, pinned: seq<nat>, va: Block)
    requires Settled(bs, pinned) && i < |bs| && a != b && !bs[i].dirty
    requires bs1 == bs[i := Using(a, false, va)]
    requires b in pinned || TwoSpare(bs)
    ensures exists k :: 0 <= k < |bs1| && (bs1[k].Holds(ROOTDEV, b) || bs1[k].Recyclable())
    ensures forall k :: 0 <= k < |bs1| && bs1[k].Holds(ROOTDEV, b) ==> !bs1[k].locked
  {
    if b in pinned {
      var k :| 0 <= k < |bs| && bs[k].Holds(ROOTDEV, b) && bs[k].dirty;
      assert bs1[k] == bs[k];
    } else {
      var k, l :| 0 <= k < l < |bs| && !bs[k].dirty && !bs[l].dirty;
      var m := if k == i then l else k;
      assert bs1[m] == bs[m] && bs1[m].Recyclable();
    }
  }

  lemma SecondRead(bs: seq<Buf>, bs1: seq<Buf>, bs2: seq<Buf>, i: nat, j: nat, a: nat, b: nat,
                   pinned: seq<nat>, va: Block, vb: Block)
    requires Settled(bs, pinned) && Sound(bs) && i < |bs| && j < |bs| && a != b && !bs[i].dirty
    requires bs1 == bs[i := Using(a, false, va)] && ReadInto(bs1, bs2, j, b, vb)
    ensures Paired(bs, i, j, b)
    ensures bs2 == bs[i := Using(a, false, va)][j := Using(b, b in pinned, vb)]
  {
    assert j != i && bs1[j] == bs[j];
    assert forall k :: 0 <= k < |bs| && k != i ==> bs1[k] == bs[k];
    if b in pinned {
      var k :| 0 <= k < |bs| && bs[k].Holds(ROOTDEV, b) && bs[k].dirty;
      assert bs1[k] == bs[k];
    }
  }

  /** Change a held buffer and write it to disk. */
  method PutThrough(cache: Bcache, i: nat, data: Block)
    requires cache.Valid() && i < |cache.buf|
    requires cache.buf[i].locked && cache.buf[i].valid && cache.buf[i].dev == ROOTDEV
    modifies cache
    ensures cache.Valid() && cache.order == old(cache.order)
    ensures var b := old(cache.buf)[i].blockno;
            && cache.buf == old(cache.buf)[i := old(cache.buf)[i].(data := data, dirty := false)]
            && cache.latest == old(cache.latest)[b := data]
            && cache.disk == old(cache.disk)[b := data]
            && cache.trace == old(cache.trace) + [Write(b, data)]
  {
    cache.SetData(i, data);
    cache.Bwrite(i);
  }

  method ReleaseBoth(cache: Bcache, i: nat, j: nat)
    requires cache.Valid() && i < |cache.buf| && j < |cache.buf| && i != j
    requires cache.buf[i].locked && cache.buf[i].valid && cache.buf[i].dev == ROOTDEV
    requires cache.buf[j].locked && cache.buf[j].valid && cache.buf[j].dev == ROOTDEV
    requires cache.buf[i].refcnt == 1 && cache.buf[j].refcnt == 1
    requires cache.buf[i].dirty || cache.buf[i].data == cache.disk[cache.buf[i].blockno]
    requires cache.buf[j].dirty || cache.buf[j].data == cache.disk[cache.buf[j].blockno]
    modifies cache, cache.next, cache.prev
    ensures cache.Valid()
    ensures cache.disk == old(cache.disk) && cache.latest == old(cache.latest) && cache.trace == old(cache.trace)
    ensures var x, y := old(cache.buf)[i], old(cache.buf)[j];
            cache.buf == old(cache.buf)[i := Released(x.blockno, x.dirty, x.data)]
                                       [j := Released(y.blockno, y.dirty, y.data)]
  {
    cache.Brelse(i);
    cache.Brelse(j);
  }

  /** memmove from one held buffer to another, write that one, release both. */
  method WriteAcross(cache: Bcache, src: nat, dst: nat)
    requires cache.Valid() && src < |cache.buf| && dst < |cache.buf| && src != dst
    requires cache.buf[dst].dev == cache.buf[src].dev == ROOTDEV
    requires cache.buf[dst].locked && cache.buf[dst].valid && cache.buf[dst].refcnt == 1
    requires cache.buf[src].locked && cache.buf[src].valid && cache.buf[src].refcnt == 1
    requires cache.buf[src].dirty || cache.buf[src].data == cache.disk[cache.buf[src].blockno]
    modifies cache, cache.next, cache.prev
    ensures cache.Valid()
    ensures var was, to := old(cache.buf)[src], old(cache.buf)[dst].blockno;
            && cache.buf == old(cache.buf)[src := Released(was.blockno, was.dirty, was.data)]
                                          [dst := Released(to, false, was.data)]
            && cache.latest == old(cache.latest)[to := was.data]
            && cache.disk == old(cache.disk)[to := was.data]
            && cache.trace == old(cache.trace) + [Write(to, was.data)]
  {
    assert cache.buf[src].blockno != cache.buf[dst].blockno;
    PutThrough(cache, dst, cache.buf[src].data);
    ReleaseBoth(cache, src, dst);
  }

  /** One round of write_log: a dirty home block to its log block. */
  method CopyToLog(cache: Bcache, to: nat, from: nat, ghost pinned: seq<nat>)
    requires cache.Valid() && Settled(cache.buf, pinned) && OneSpare(cache.buf)
    requires to < |cache.disk| && from < |cache.disk|
    requires from in pinned && to !in pinned
    modifies cache, cache.next, cache.prev
    ensures cache.Valid() && Settled(cache.buf, pinned) && OneSpare(cache.buf)
    ensures var data := old(cache.latest)[from];
            && cache.latest == old(cache.latest)[to := data]
            && cache.disk == old(cache.disk)[to := data]
            && cache.trace == old(cache.trace) + [Write(to, data)]
  {
    ghost var bs, data := cache.buf, cache.latest[from];
    var t, f := ReadPair(cache, to, from, pinned);
    WriteAcross(cache, f, t);
    assert cache.buf == bs[t := Released(to, false, data)][f := Released(from, true, data)];
    SettledAfter(bs, pinned, t, f, to, from, data, pinned);
    assert !cache.buf[t].dirty;
  }

  /** One round of install_trans: a log block to its home block, which is clean
      (and unpinned) afterwards. */
  method CopyHome(cache: Bcache, from: nat, to: nat, ghost pinned: seq<nat>, ghost pinned': seq<nat>)
    requires cache.Valid() && Settled(cache.buf, pinned) && OneSpare(cache.buf)
    requires to < |cache.disk| && from < |cache.disk| && from != to
    requires from !in pinned && (to in pinned || TwoSpare(cache.buf))
    requires to !in pinned' && (forall b :: b in pinned' ==> b in pinned)
    requires forall b :: b in pinned ==> b in pinned' || b == to
    modifies cache, cache.next, cache.prev
    ensures cache.Valid() && Settled(cache.buf, pinned') && TwoSpare(cache.buf)
    ensures var data := old(cache.latest)[from];
            && cache.latest == old(cache.latest)[to := data]
            && cache.disk == old(cache.disk)[to := data]
            && cache.trace == old(cache.trace) + [Write(to, data)]
  {
    ghost var bs, data := cache.buf, cache.latest[from];
    assert !Pinned(bs, from);
    var l, d := ReadPair(cache, from, to, pinned);
    WriteAcross(cache, l, d);
    assert cache.buf == bs[l := Released(from, false, data)][d := Released(to, false, data)];
    SettledAfter(bs, pinned, l, d, from, to, data, pinned');
    Spares(cache.buf, l, d);
  }

  lemma Spares(bs: seq<Buf>, i: nat, j: nat)
    requires i < |bs| && j < |bs| && i != j && !bs[i].dirty && !bs[j].dirty
    ensures TwoSpare(bs)
  {
    var lo, hi := if i < j then i else j, if i < j then j else i;
    assert lo < hi && !bs[lo].dirty && !bs[hi].dirty;
  }

  lemma {:induction false} Numbers(bs: seq<Buf>, n: nat) returns (bn: seq<nat>)
    requires Sound(bs) && n <= |bs| && forall i :: 0 <= i < n ==> bs[i].dirty
    ensures |bn| == n && forall i :: 0 <= i < n ==> bn[i] == bs[i].blockno
    ensures forall i, j :: 0 <= i < j < n ==> bn[i] != bn[j]
  {
    bn := seq(n, i requires 0 <= i < n => bs[i].blockno);
  }

  /** Fewer logged blocks than buffers leave a buffer that commit can use. */
  lemma SpareLeft(bs: seq<Buf>, pinned: seq<nat>)
    requires Sound(bs) && Pins(bs, pinned) && |pinned| < |bs|
    requires forall i, j :: 0 <= i < j < |pinned| ==> pinned[i] != pinned[j]
    ensures OneSpare(bs)
  {
    if forall i :: 0 <= i < |bs| ==> bs[i].dirty {
      var bn := Numbers(bs, |bs|);
      ListSize(bn);
      ListSize(pinned);
      SubsetSize(Members(bn), Members(pinned));
    }
  }

  /** The loop of write_head over the header block. */
  method FillHeader(h: Block, blocks: seq<nat>) returns (hb: Block)
    requires |blocks| <= LOGSIZE
    ensures hb == Crash.HeaderWith(h, blocks)
  {
    hb := h[0 := |blocks|];
    for i := 0 to |blocks|
      invariant hb[0] == |blocks|
      invariant forall j :: 0 <= j < i ==> hb[1 + j] == blocks[j]
      invariant forall j :: 1 + i <= j < WORDS ==> hb[j] == h[j]
    {
      hb := hb[1 + i := blocks[i]];
    }
  }

  /** write_head: bread, fill, bwrite, brelse. */
  method WriteHead(cache: Bcache, start: nat, blocks: seq<nat>, ghost pinned: seq<nat>)
    requires cache.Valid() && Settled(cache.buf, pinned) && OneSpare(cache.buf)
    requires start < |cache.disk| && start !in pinned && |blocks| <= LOGSIZE
    modifies cache, cache.next, cache.prev
    ensures cache.Valid() && Settled(cache.buf, pinned) && OneSpare(cache.buf)
    ensures var data := Crash.HeaderWith(old(cache.latest)[start], blocks);
            && cache.latest == old(cache.latest)[start := data]
            && cache.disk == old(cache.disk)[start := data]
            && cache.trace == old(cache.trace) + [Write(start, data)]
  {
    ghost var bs := cache.buf;
    var r := cache.Bread(start);
    var i := r.value;
    assert !bs[i].dirty && cache.buf == bs[i := Using(start, false, cache.latest[start])];
    var data := FillHeader(cache.buf[i].data, blocks);
    PutAndRelease(cache, i, data);
    assert cache.buf == bs[i := Released(start, false, data)];
    SettledOne(bs, pinned, i, start, data);
  }

  method PutAndRelease(cache: Bcache, i: nat, data: Block)
    requires cache.Valid() && i < |cache.buf|
    requires cache.buf[i].locked && cache.buf[i].valid && cache.buf[i].dev == ROOTDEV && cache.buf[i].refcnt == 1
    modifies cache, cache.next, cache.prev
    ensures cache.Valid()
    ensures var b := old(cache.buf)[i].blockno;
            && cache.buf == old(cache.buf)[i := Released(b, false, data)]
            && cache.latest == old(cache.latest)[b := data]
            && cache.disk == old(cache.disk)[b := data]
            && cache.trace == old(cache.trace) + [Write(b, data)]
  {
    PutThrough(cache, i, data);
    cache.Brelse(i);
  }

  lemma SettledOne(bs: seq<Buf>, pinned: seq<nat>, i: nat, b: nat, data: Block)
    requires Settled(bs, pinned) && i < |bs| && !bs[i].dirty
    ensures Settled(bs[i := Released(b, false, data)], pinned)
    ensures OneSpare(bs[i := Released(b, false, data)])
  {
    var bs' := bs[i := Released(b, false, data)];
    assert !bs'[i].dirty;
    forall c | c in pinned ensures DirtyFor(bs', c) {
      var k :| 0 <= k < |bs| && bs[k].Holds(ROOTDEV, c) && bs[k].dirty;
      assert bs'[k] == bs[k];
    }
  }

  /** Contents that agree outside the log blocks proper. */
  predicate SameButLog(l: Image, m: Image, g: Geometry) {
    |l| == |m| && forall b :: 0 <= b < |l| && (b == g.start || !g.InLog(b)) ==> l[b] == m[b]
  }

  predicate SameInLog(l: Image, m: Image, g: Geometry) {
    |l| == |m| && forall b :: 0 <= b < |l| && g.InLog(b) ==> l[b] == m[b]
  }

  predicate InLogBlocks(l: Image, t: Txn, g: Geometry, n: nat)
    requires n <= |t.vals| && g.start + |t.vals| < |l|
  {
    forall i :: 0 <= i < n ==> l[g.start + 1 + i] == t.vals[i]
  }

  /** The header numbers together with the contents they stand for. */
  function Pending(blocks: seq<nat>, latest: Image): (t: Txn)
    requires forall i :: 0 <= i < |blocks| ==> blocks[i] < |latest|
    ensures t.blocks == blocks && |t.vals| == |blocks|
  {
    Crash.Txn(blocks, seq(|blocks|, i requires 0 <= i < |blocks| => latest[blocks[i]]))
  }

  lemma OneMore(before: seq<Write>, trace: seq<Write>, trace': seq<Write>, ws: seq<Write>, k: nat, w: Write)
    requires k < |ws| && trace == before + ws[..k] && trace' == trace + [w] && w == ws[k]
    ensures trace' == before + ws[..k + 1]
  {
    assert ws[..k + 1] == ws[..k] + [ws[k]];
  }

  lemma Logged(l0: Image, l: Image, l': Image, t: Txn, g: Geometry, k: nat)
    requires k < |t.blocks| == |t.vals| < g.size && g.start + g.size <= |l|
    requires |l0| == |l| && Crash.Loggable(t.blocks, g, |l|) && t == Pending(t.blocks, l0)
    requires SameButLog(l, l0, g) && InLogBlocks(l, t, g, k)
    requires l' == l[g.start + k + 1 := l[t.blocks[k]]]
    ensures SameButLog(l', l0, g) && InLogBlocks(l', t, g, k + 1)
    ensures l[t.blocks[k]] == t.vals[k]
  {
  }

  lemma Suffix(blocks: seq<nat>, k: nat)
    requires k < |blocks| && Distinct(blocks)
    ensures blocks[k] in blocks[k..] && blocks[k] !in blocks[k + 1..]
    ensures forall b :: b in blocks[k + 1..] ==> b in blocks[k..]
    ensures forall b :: b in blocks[k..] ==> b in blocks[k + 1..] || b == blocks[k]
  {
    assert blocks[k..] == [blocks[k]] + blocks[k + 1..];
  }

  /** The state of write_log before round k. */
  ghost predicate Logging(cache: Bcache, g: Geometry, t: Txn, before: seq<Write>, latest: Image, k: nat)
    reads cache, cache.next, cache.prev
  {
    && cache.Valid() && Settled(cache.buf, t.blocks) && OneSpare(cache.buf)
    && |cache.disk| == |latest| && g.start + g.size <= |latest|
    && Crash.Loggable(t.blocks, g, |latest|) && t == Pending(t.blocks, latest)
    && k <= |t.blocks|
    && cache.trace == before + Crash.LogWrites(g, t)[..k]
    && SameButLog(cache.latest, latest, g)
    && InLogBlocks(cache.latest, t, g, k)
  }

  method LogRound(cache: Bcache, to: nat, from: nat, ghost g: Geometry, ghost t: Txn,
                  ghost before: seq<Write>, ghost latest: Image, ghost k: nat)
    requires Logging(cache, g, t, before, latest, k)
    requires k < |t.blocks| && to == g.start + k + 1 && from == t.blocks[k]
    modifies cache, cache.next, cache.prev
    ensures Logging(cache, g, t, before, latest, k + 1)
  {
    ghost var was, trace := cache.latest, cache.trace;
    CopyToLog(cache, to, from, t.blocks);
    hide Linked, Sound, Apply, Settled, OneSpare;
    Logged(latest, was, cache.latest, t, g, k);
    OneMore(before, trace, cache.trace, Crash.LogWrites(g, t), k, Write(to, was[from]));
  }

  method WriteLog(cache: Bcache, g: Geometry, blocks: seq<nat>)
    requires cache.Valid() && Settled(cache.buf, blocks) && OneSpare(cache.buf)
    requires g.start + g.size <= |cache.disk| && Crash.Loggable(blocks, g, |cache.disk|)
    modifies cache, cache.next, cache.prev
    ensures Logging(cache, g, Pending(blocks, old(cache.latest)), old(cache.trace), old(cache.latest), |blocks|)
  {
    ghost var t := Pending(blocks, cache.latest);
    var tail := 0;
    while tail < |blocks|
      invariant tail <= |blocks|
      invariant Logging(cache, g, t, old(cache.trace), old(cache.latest), tail)
    {
      LogRound(cache, g.start + tail + 1, blocks[tail], g, t, old(cache.trace), old(cache.latest), tail);
      tail := tail + 1;
    }
  }

  /** The blocks still pinned before round k of install_trans: at commit those
      not yet installed, at recovery none. */
  function StillPinned(blocks: seq<nat>, pinned: bool, k: nat): (r: seq<nat>)
    requires k <= |blocks|
  {
    if pinned then blocks[k..] else []
  }

  /** The state of install_trans before round k. */
  ghost predicate Installing(cache: Bcache, g: Geometry, t: Txn, pinned: bool,
                             before: seq<Write>, latest: Image, k: nat)
    reads cache, cache.next, cache.prev
  {
    && |t.blocks| == |t.vals| && k <= |t.blocks|
    && cache.Valid() && Settled(cache.buf, StillPinned(t.blocks, pinned, k))
    && OneSpare(cache.buf) && (pinned || TwoSpare(cache.buf))
    && |cache.disk| == |latest| && g.start + g.size <= |latest|
    && Crash.Loggable(t.blocks, g, |latest|) && (pinned ==> Distinct(t.blocks))
    && InLogBlocks(latest, t, g, |t.blocks|)
    && cache.trace == before + Crash.InstallWrites(t)[..k]
    && SameInLog(cache.latest, latest, g)
  }

  method InstallRound(cache: Bcache, from: nat, to: nat, ghost g: Geometry, ghost t: Txn, ghost pinned: bool,
                      ghost before: seq<Write>, ghost latest: Image, ghost k: nat)
    requires Installing(cache, g, t, pinned, before, latest, k)
    requires k < |t.blocks| && from == g.start + k + 1 && to == t.blocks[k]
    modifies cache, cache.next, cache.prev
    ensures Installing(cache, g, t, pinned, before, latest, k + 1)
  {
    ghost var was, trace := cache.latest, cache.trace;
    assert was[g.start + 1 + k] == t.vals[k];
    CopyHome(cache, from, to, StillPinned(t.blocks, pinned, k), StillPinned(t.blocks, pinned, k + 1));
    SpareAgain(cache.buf);
    hide Linked, Sound, Apply, Settled, OneSpare, TwoSpare;
    OneMore(before, trace, cache.trace, Crash.InstallWrites(t), k, Write(to, was[from]));
  }

  lemma SpareAgain(bs: seq<Buf>)
    requires TwoSpare(bs)
    ensures OneSpare(bs)
  {
  }

  /** install_trans, at commit (the home blocks are pinned) or at recovery
      (nothing is, and two buffers are spare). */
  method InstallTrans(cache: Bcache, g: Geometry, blocks: seq<nat>, ghost t: Txn, ghost pinned: bool)
    requires Installing(cache, g, t, pinned, cache.trace, cache.latest, 0) && t.blocks == blocks
    modifies cache, cache.next, cache.prev
    ensures Installing(cache, g, t, pinned, old(cache.trace), old(cache.latest), |blocks|)
  {
    var tail := 0;
    while tail < |blocks|
      invariant tail <= |blocks|
      invariant Installing(cache, g, t, pinned, old(cache.trace), old(cache.latest), tail)
    {
      InstallRound(cache, g.start + tail + 1, blocks[tail], g, t, pinned, old(cache.trace), old(cache.latest), tail);
      tail := tail + 1;
    }
  }

  lemma SameTrace(before: seq<Write>, ws: seq<Write>, trace: seq<Write>)
    requires trace == before + ws[..|ws|]
    ensures trace == before + ws
  {
    assert ws[..|ws|] == ws;
  }

  lemma Joined(before: seq<Write>, mid: seq<Write>, after: seq<Write>, h: Block, g: Geometry, t: Txn)
    requires |t.blocks| == |t.vals| && 0 < |t.blocks| <= LOGSIZE
    requires mid == before + Crash.LogWrites(g, t) + [Write(g.start, Crash.HeaderWith(h, t.blocks))]
    requires after == mid + Crash.InstallWrites(t)
                          + [Write(g.start, Crash.HeaderWith(Crash.HeaderWith(h, t.blocks), []))]
    ensures after == before + Crash.CommitWrites(h, g, t)
  {
    hide Crash.HeaderWith, Crash.LogWrites, Crash.InstallWrites;
  }

  /** A settled cache with nothing pinned shows the disk. */
  lemma NothingPinned(cache: Bcache)
    requires cache.Valid() && Settled(cache.buf, [])
    ensures cache.latest == cache.disk
  {
    assert forall b :: 0 <= b < |cache.disk| ==> !Pinned(cache.buf, b);
  }

  /** What the disk holds once the writes of a commit are on it. */
  lemma AfterCommit(cache: Bcache, was: seq<Buf>, disk: Image, latest: Image,
                    before: seq<Write>, g: Geometry, t: Txn)
    requires Crash.LogEmpty(disk, g) && Crash.TxnOk(t, g, |disk|)
    requires Agrees(was, disk, latest) && Settled(was, t.blocks) && t == Pending(t.blocks, latest)
    requires InRange(before, |cache.image|) && disk == Apply(cache.image, before)
    requires cache.Valid() && Settled(cache.buf, [])
    requires cache.trace == before + Crash.CommitWrites(disk[g.start], g, t)
    ensures Crash.LogEmpty(cache.disk, g) && Crash.HomeAfter(disk, cache.disk, t, g)
    ensures Crash.SameHome(cache.disk, latest, g) && cache.latest == cache.disk
  {
    Crash.CommittedImage(g, t, disk);
    ApplyAppend(cache.image, before, Crash.CommitWrites(disk[g.start], g, t));
    NothingPinned(cache);
    forall b | 0 <= b < |disk| && !g.InLog(b) ensures cache.disk[b] == latest[b] {
      if b !in t.blocks {
        assert !Pinned(was, b);
      }
    }
  }

  /** The disk as a crash finds it after the first k writes of a commit: recovery,
      itself cut short any number of times, ends with all of the transaction or none. */
  lemma CommitCrash(image: Image, before: seq<Write>, g: Geometry, t: Txn, k: nat, ks: seq<nat>)
    requires InRange(before, |image|)
    requires var d := Apply(image, before); Crash.LogEmpty(d, g) && Crash.TxnOk(t, g, |d|)
    requires k <= |Crash.CommitWrites(Apply(image, before)[g.start], g, t)|
    ensures var d := Apply(image, before);
            var trace := before + Crash.CommitWrites(d[g.start], g, t);
            && InRange(trace[..|before| + k], |image|)
            && var c := Apply(image, trace[..|before| + k]);
               && Crash.ImageOk(c, g)
               && var r := Crash.Recovered(Crash.AfterCrashes(c, g, ks), g);
                  Crash.SameHome(r, d, g) || Crash.HomeAfter(d, r, t, g)
  {
    var d := Apply(image, before);
    var ws := Crash.CommitWrites(d[g.start], g, t);
    assert (before + ws)[..|before| + k] == before + ws[..k];
    Crash.EveryCutBoots(g, t, d, k);
    Crash.CommitInRange(d[g.start], g, t, |d|);
    ApplyAppend(image, before, ws[..k]);
    Crash.CrashAtomicity(g, t, d, k, ks);
  }

  lemma AllSpare(bs: seq<Buf>)
    requires Settled(bs, []) && |bs| >= 2
    ensures OneSpare(bs) && TwoSpare(bs)
  {
    assert !bs[0].dirty && !bs[1].dirty;
  }

  lemma AfterRecovery(cache: Bcache, disk: Image, before: seq<Write>, g: Geometry)
    requires Crash.ImageOk(disk, g)
    requires InRange(before, |cache.image|) && disk == Apply(cache.image, before)
    requires cache.Valid() && Settled(cache.buf, [])
    requires cache.trace == before + Crash.InstallWrites(Crash.OnDisk(disk, g))
                                   + [Write(g.start, Crash.HeaderWith(disk[g.start], []))]
    ensures cache.trace == before + Crash.RecoveryWrites(disk, g)
    ensures cache.disk == Crash.Recovered(disk, g) && cache.latest == cache.disk
  {
    ApplyAppend(cache.image, before, Crash.RecoveryWrites(disk, g));
    assert cache.trace == before + Crash.RecoveryWrites(disk, g);
    NothingPinned(cache);
  }

  lemma PinOne(bs: seq<Buf>, i: nat, blocks: seq<nat>)
    requires Pins(bs, blocks) && i < |bs| && bs[i].dev == ROOTDEV
    ensures Pins(bs[i := bs[i].(dirty := true)], Absorb(blocks, bs[i].blockno))
  {
    var b, bs' := bs[i].blockno, bs[i := bs[i].(dirty := true)];
    forall c | c in Absorb(blocks, b) ensures DirtyFor(bs', c) {
      if c == b {
        assert bs'[i].Holds(ROOTDEV, b) && bs'[i].dirty;
      } else {
        var k :| 0 <= k < |bs| && bs[k].Holds(ROOTDEV, c) && bs[k].dirty;
        assert bs'[k].Holds(ROOTDEV, c) && bs'[k].dirty;
      }
    }
  }

  class Log {
    const cache: Bcache
    const g: Geometry
    const block: array<nat>   // lh.block
    var n: nat                // lh.n
    var outstanding: nat
    var committing: bool

    ghost predicate Shaped()
      reads this, block, cache
    {
      && block.Length == LOGSIZE && n <= LOGSIZE
      && block != cache.next && block != cache.prev
      && g.start + g.size <= |cache.disk|
      && Crash.Loggable(block[..n], g, |cache.disk|)
      && Distinct(block[..n])
    }

    /** No file-system call is running: nothing is held, and the dirty buffers
        are those of the logged blocks. */
    ghost predicate Quiet()
      reads this, block, cache, cache.next, cache.prev
    {
      Shaped() && cache.Valid() && Settled(cache.buf, block[..n])
    }

    /** initlog, before it calls recover_from_log. */
    constructor (c: Bcache, start: nat, size: nat)
      requires start + size <= |c.disk| && 0 < size
      ensures cache == c && g == Crash.Geometry(start, size) && n == 0 && outstanding == 0 && !committing
      ensures Shaped() && fresh(block)
    {
      cache, g := c, Crash.Geometry(start, size);
      block := new nat[LOGSIZE](_ => 0);
      n, outstanding, committing := 0, 0, false;
    }

    /** commit(). One clean buffer is enough for it, and fewer logged blocks
        than buffers leave one. */
    method Commit()
      requires Quiet() && Crash.LogEmpty(cache.disk, g) && n < |cache.buf|
      modifies `n, cache, cache.next, cache.prev
      ensures Quiet() && n == 0
      ensures var t := Pending(old(block[..n]), old(cache.latest));
              && cache.trace == old(cache.trace) + Crash.CommitWrites(old(cache.disk)[g.start], g, t)
              && Crash.HomeAfter(old(cache.disk), cache.disk, t, g)
      ensures Crash.LogEmpty(cache.disk, g)
      ensures Crash.SameHome(cache.disk, old(cache.latest), g) && cache.latest == cache.disk
    {
      ghost var all := Pending(block[..n], cache.latest);
      ghost var disk, latest, was := cache.disk, cache.latest, cache.buf;
      if n > 0 {
        ghost var t := Pending(block[..n], cache.latest);
        assert !Pinned(cache.buf, g.start);
        SpareLeft(cache.buf, block[..n]);
        LogAll(t);
        ghost var trace := cache.trace;
        InstallAll(t);
        Joined(old(cache.trace), trace, cache.trace, old(cache.disk)[g.start], g, t);
      }
      AfterCommit(cache, was, disk, latest, old(cache.trace), g, all);
    }

    /** The first half: after it the header on disk spells the transaction. */
    method LogAll(ghost t: Txn)
      requires Quiet() && n > 0 && OneSpare(cache.buf)
      requires t == Pending(block[..n], cache.latest)
      modifies cache, cache.next, cache.prev
      ensures Shaped() && Installing(cache, g, t, true, cache.trace, cache.latest, 0)
      ensures var full := Crash.HeaderWith(old(cache.latest)[g.start], block[..n]);
              && cache.trace == old(cache.trace) + Crash.LogWrites(g, t) + [Write(g.start, full)]
              && cache.latest[g.start] == full
    {
      var blocks := block[..n];
      WriteLog(cache, g, blocks);
      SameTrace(old(cache.trace), Crash.LogWrites(g, t), cache.trace);
      WriteHead(cache, g.start, blocks, blocks);
      assert blocks[0..] == blocks;
    }

    /** The second half. */
    method InstallAll(ghost t: Txn)
      requires Shaped() && t.blocks == block[..n]
      requires Installing(cache, g, t, true, cache.trace, cache.latest, 0)
      modifies `n, cache, cache.next, cache.prev
      ensures Quiet() && n == 0
      ensures var clear := Crash.HeaderWith(old(cache.latest)[g.start], []);
              cache.trace == old(cache.trace) + Crash.InstallWrites(t) + [Write(g.start, clear)]
    {
      InstallTrans(cache, g, block[..n], t, true);
      SameTrace(old(cache.trace), Crash.InstallWrites(t), cache.trace);
      n := 0;
      WriteHead(cache, g.start, [], []);
    }

    /** One turn of begin_op's loop: the space is reserved, or the caller sleeps. */
    method TryBegin() returns (ok: bool)
      modifies `outstanding
      ensures ok == MayBegin(n, old(outstanding), committing)
      ensures outstanding == if ok then old(outstanding) + 1 else old(outstanding)
    {
      if committing {
        ok := false;
      } else if n + (outstanding + 1) * MAXOPBLOCKS > LOGSIZE {
        ok := false;
      } else {
        outstanding := outstanding + 1;
        ok := true;
      }
    }

    /** The first critical section of end_op. */
    method EndOp() returns (r: EndResult)
      requires outstanding > 0
      modifies `outstanding, `committing
      ensures r == EndOutcome(old(outstanding), old(committing))
      ensures outstanding == old(outstanding) - 1
      ensures committing == (old(committing) || r.Commit?)
    {
      outstanding := outstanding - 1;
      if committing {
        return Panic;
      }
      if outstanding == 0 {
        committing := true;
        return EndResult.Commit;
      }
      return Wake;
    }

    /** log_write on a home block that the caller holds. False is the panic. */
    method LogWrite(i: nat) returns (ok: bool)
      requires Shaped() && cache.Valid() && Pins(cache.buf, block[..n])
      requires i < |cache.buf| && cache.buf[i].locked && cache.buf[i].valid && cache.buf[i].dev == ROOTDEV
      requires !g.InLog(cache.buf[i].blockno)
      modifies `n, block, cache`buf
      ensures ok == MayLog(old(n), outstanding, g.size)
      ensures Shaped() && cache.Valid() && Pins(cache.buf, block[..n])
      ensures ok ==> block[..n] == Absorb(old(block[..n]), cache.buf[i].blockno)
      ensures ok ==> cache.buf == old(cache.buf)[i := old(cache.buf)[i].(dirty := true)]
      ensures !ok ==> block[..n] == old(block[..n]) && cache.buf == old(cache.buf)
    {
      if n >= LOGSIZE || n >= g.size - 1 || outstanding < 1 {
        return false;
      }
      var b := cache.buf[i].blockno;
      ghost var blocks, bs := block[..n], cache.buf;
      var k := 0;
      while k < n && block[k] != b
        invariant 0 <= k <= n && forall j :: 0 <= j < k ==> block[j] != b
      {
        k := k + 1;
      }
      block[k] := b;
      if k == n {
        n := n + 1;
        assert block[..n] == blocks + [b];
      } else {
        assert block[..n] == blocks;
      }
      PinOne(bs, i, blocks);
      cache.MarkDirty(i);
      return true;
    }

    /** read_head. */
    method ReadHead()
      requires Shaped() && cache.Valid() && Settled(cache.buf, []) && OneSpare(cache.buf)
      requires Crash.ImageOk(cache.disk, g)
      modifies `n, block, cache, cache.next, cache.prev
      ensures block.Length == LOGSIZE && n <= LOGSIZE
      ensures block[..n] == Crash.Logged(old(cache.disk)[g.start], g, |old(cache.disk)|)
      ensures cache.Valid() && cache.disk == old(cache.disk) && cache.trace == old(cache.trace)
      ensures Settled(cache.buf, []) && |cache.buf| == |old(cache.buf)|
    {
      ghost var bs := cache.buf;
      NothingPinned(cache);
      var r := cache.Bread(g.start);
      var i := r.value;
      var h := cache.buf[i].data;
      assert !bs[i].dirty && cache.buf == bs[i := Using(g.start, false, h)];
      CopyHead(h);
      cache.Brelse(i);
      assert cache.buf == bs[i := Released(g.start, false, h)];
      SettledOne(bs, [], i, g.start, h);
    }

    method CopyHead(h: Block)
      requires block.Length == LOGSIZE && Crash.HeaderOk(h, g, |cache.disk|)
      modifies `n, block
      ensures n <= LOGSIZE && block[..n] == Crash.Logged(h, g, |cache.disk|)
    {
      n := h[0];
      for i := 0 to n
        invariant n == h[0] && forall j :: 0 <= j < i ==> block[j] == h[1 + j]
      {
        block[i] := h[1 + i];
      }
    }

    /** recover_from_log. It needs two buffers, one per block of a copy. */
    method RecoverFromLog()
      requires Shaped() && cache.Valid() && Settled(cache.buf, []) && |cache.buf| >= 2
      requires Crash.ImageOk(cache.disk, g)
      modifies `n, block, cache, cache.next, cache.prev
      ensures Quiet() && n == 0
      ensures cache.trace == old(cache.trace) + Crash.RecoveryWrites(old(cache.disk), g)
      ensures cache.disk == Crash.Recovered(old(cache.disk), g) && cache.latest == cache.disk
    {
      hide Linked, Apply, Sound, Agrees;
      AllSpare(cache.buf);
      ReadHead();
      AllSpare(cache.buf);
      NothingPinned(cache);
      ghost var disk := cache.disk;
      ghost var t := Crash.OnDisk(disk, g);
      InstallTrans(cache, g, block[..n], t, false);
      SameTrace(old(cache.trace), Crash.InstallWrites(t), cache.trace);
      n := 0;
      WriteHead(cache, g.start, [], []);
      AfterRecovery(cache, disk, old(cache.trace), g);
    }
  }
}
