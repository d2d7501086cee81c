/** Crash atomicity of the redo log (log.c): what the disk holds after any crash
    in commit(), any number of crashes in recover_from_log(), and a recovery that
    finally runs to its end. */
module Crash {
  import opened Disk
  import opened Counting
  import opened Params

  /** Where the log lies on disk: sb.logstart and sb.nlog. */
  datatype Geometry = Geometry(start: nat, size: nat) {
    predicate InLog(b: nat) { start <= b < start + size }
  }

  /** A group commit: the block numbers of log.lh and the cached contents. */
  datatype Txn = Txn(blocks: seq<nat>, vals: seq<Block>)

  predicate Loggable(blocks: seq<nat>, g: Geometry, disksize: nat) {
    && |blocks| <= LOGSIZE
    && |blocks| < g.size
    && forall i :: 0 <= i < |blocks| ==> blocks[i] < disksize && !g.InLog(blocks[i])
  }

  predicate TxnOk(t: Txn, g: Geometry, disksize: nat) {
    && |t.blocks| == |t.vals|
    && Loggable(t.blocks, g, disksize)
    && Distinct(t.blocks)
  }

  // The header block: word 0 is n, words 1..n are the block numbers.

  predicate HeaderOk(h: Block, g: Geometry, disksize: nat) {
    && 0 <= h[0] <= LOGSIZE
    && h[0] < g.size
    && forall i :: 1 <= i <= h[0] ==> 0 <= h[i] < disksize && !g.InLog(h[i])
  }

  function Logged(h: Block, g: Geometry, disksize: nat): (blocks: seq<nat>)
    requires HeaderOk(h, g, disksize)
    ensures Loggable(blocks, g, disksize) && |blocks| == h[0]
  {
    seq(h[0], i requires 0 <= i < h[0] => h[1 + i])
  }

  /** write_head: the words past the last block number keep what they held. */
  function HeaderWith(h: Block, blocks: seq<nat>): (r: Block)
    requires |blocks| <= LOGSIZE
    ensures r[0] == |blocks| && forall i :: 0 <= i < |blocks| ==> r[1 + i] == blocks[i]
  {
    var asInts: seq<int> := seq(|blocks|, i requires 0 <= i < |blocks| => blocks[i]);
    [|blocks|] + asInts + h[1 + |blocks|..]
  }

  lemma HeaderRoundTrip(h: Block, blocks: seq<nat>, g: Geometry, disksize: nat)
    requires Loggable(blocks, g, disksize)
    ensures HeaderOk(HeaderWith(h, blocks), g, disksize)
    ensures Logged(HeaderWith(h, blocks), g, disksize) == blocks
    ensures forall i :: |blocks| < i < |h| ==> HeaderWith(h, blocks)[i] == h[i]
  {
    var r := HeaderWith(h, blocks);
    forall i | 1 <= i <= r[0] ensures r[i] == blocks[i - 1] {
      assert r[1 + (i - 1)] == blocks[i - 1];
    }
  }

  predicate ImageOk(d: Image, g: Geometry) {
    && 0 < g.size
    && g.start + g.size <= |d|
    && HeaderOk(d[g.start], g, |d|)
  }

  predicate LogEmpty(d: Image, g: Geometry) {
    ImageOk(d, g) && d[g.start][0] == 0
  }

  // The writes that commit() and recover_from_log() issue.

  function LogWrites(g: Geometry, t: Txn): (ws: seq<Write>)
    requires |t.blocks| == |t.vals|
  {
    seq(|t.blocks|, i requires 0 <= i < |t.blocks| => Write(g.start + 1 + i, t.vals[i]))
  }

  function InstallWrites(t: Txn): (ws: seq<Write>)
    requires |t.blocks| == |t.vals|
  {
    seq(|t.blocks|, i requires 0 <= i < |t.blocks| => Write(t.blocks[i], t.vals[i]))
  }

  function CommitWrites(h: Block, g: Geometry, t: Txn): (ws: seq<Write>)
    requires |t.blocks| == |t.vals| && |t.blocks| <= LOGSIZE
  {
    if t.blocks == [] then []
    else
      LogWrites(g, t)
      + [Write(g.start, HeaderWith(h, t.blocks))]
      + InstallWrites(t)
      + [Write(g.start, HeaderWith(HeaderWith(h, t.blocks), []))]
  }

  /** The transaction that the on-disk header and log blocks spell out. */
  function OnDisk(d: Image, g: Geometry): (t: Txn)
    requires ImageOk(d, g)
    ensures |t.blocks| == |t.vals| && Loggable(t.blocks, g, |d|)
  {
    var blocks := Logged(d[g.start], g, |d|);
    Txn(blocks, seq(|blocks|, i requires 0 <= i < |blocks| => d[g.start + 1 + i]))
  }

  function RecoveryWrites(d: Image, g: Geometry): (ws: seq<Write>)
    requires ImageOk(d, g)
    ensures InRange(ws, |d|)
  {
    InstallWrites(OnDisk(d, g)) + [Write(g.start, HeaderWith(d[g.start], []))]
  }

  function Recovered(d: Image, g: Geometry): (r: Image)
    requires ImageOk(d, g)
    ensures |r| == |d|
  {
    Apply(d, RecoveryWrites(d, g))
  }

  lemma CommitInRange(h: Block, g: Geometry, t: Txn, disksize: nat)
    requires TxnOk(t, g, disksize) && g.start + g.size <= disksize
    ensures InRange(CommitWrites(h, g, t), disksize)
  {
  }

  // The specification: home blocks before and after a transaction.

  predicate SameHome(d: Image, e: Image, g: Geometry) {
    |d| == |e| && forall b :: 0 <= b < |d| && !g.InLog(b) ==> d[b] == e[b]
  }

  /** Every block of the transaction has its new contents, no other home block changed. */
  predicate HomeAfter(d: Image, e: Image, t: Txn, g: Geometry)
    requires |t.blocks| == |t.vals|
  {
    && |d| == |e|
    && (forall i :: 0 <= i < |t.blocks| ==> t.blocks[i] < |e| && e[t.blocks[i]] == t.vals[i])
    && (forall b :: 0 <= b < |d| && !g.InLog(b) && b !in t.blocks ==> e[b] == d[b])
  }

  // Recovery.

  /** Block i of the transaction is named once more after it. */
  predicate Repeated(blocks: seq<nat>, i: nat)
    requires i < |blocks|
  {
    exists j :: i < j < |blocks| && blocks[j] == blocks[i]
  }

  lemma RecoveryShape(d: Image, g: Geometry)
    requires ImageOk(d, g)
    ensures var t, ws := OnDisk(d, g), RecoveryWrites(d, g);
            && |ws| == |t.blocks| + 1 && ws[|t.blocks|].blockno == g.start
            && forall i :: 0 <= i < |t.blocks| ==> ws[i] == Write(t.blocks[i], t.vals[i]) && !g.InLog(t.blocks[i])
  {
  }

  lemma RecoveredBlock(d: Image, g: Geometry, i: nat)
    requires ImageOk(d, g) && i < |OnDisk(d, g).blocks| && !Repeated(OnDisk(d, g).blocks, i)
    ensures Recovered(d, g)[OnDisk(d, g).blocks[i]] == OnDisk(d, g).vals[i]
  {
    hide OnDisk, RecoveryWrites, Apply;
    var t, ws := OnDisk(d, g), RecoveryWrites(d, g);
    RecoveryShape(d, g);
    forall j | i < j < |ws| ensures ws[j].blockno != ws[i].blockno {
      assert j < |t.blocks| ==> t.blocks[j] != t.blocks[i];
    }
    ApplyWritten(d, ws, i);
  }

  lemma RecoveredOther(d: Image, g: Geometry, b: nat)
    requires ImageOk(d, g) && b < |d| && !g.InLog(b) && b !in OnDisk(d, g).blocks
    ensures Recovered(d, g)[b] == d[b]
  {
    hide OnDisk, RecoveryWrites, Apply;
    RecoveryShape(d, g);
    ApplyUntouched(d, RecoveryWrites(d, g), b);
  }

  /** Recovery of any image that boots: a home block takes the last copy the log has
      of it, and a block the header does not name stays. */
  lemma RecoveredHome(d: Image, g: Geometry)
    requires ImageOk(d, g)
    ensures var t := OnDisk(d, g);
            && (forall i :: 0 <= i < |t.blocks| && !Repeated(t.blocks, i) ==> Recovered(d, g)[t.blocks[i]] == t.vals[i])
            && (forall b :: 0 <= b < |d| && !g.InLog(b) && b !in t.blocks ==> Recovered(d, g)[b] == d[b])
            && (Distinct(t.blocks) ==> HomeAfter(d, Recovered(d, g), t, g))
  {
    hide OnDisk, Recovered;
    var t := OnDisk(d, g);
    forall i | 0 <= i < |t.blocks| && !Repeated(t.blocks, i) ensures Recovered(d, g)[t.blocks[i]] == t.vals[i] {
      RecoveredBlock(d, g, i);
    }
    forall b | 0 <= b < |d| && !g.InLog(b) && b !in t.blocks ensures Recovered(d, g)[b] == d[b] {
      RecoveredOther(d, g, b);
    }
    if Distinct(t.blocks) {
      assert forall i :: 0 <= i < |t.blocks| ==> !Repeated(t.blocks, i);
    }
  }

  lemma RecoveredEmpty(d: Image, g: Geometry)
    requires ImageOk(d, g)
    ensures LogEmpty(Recovered(d, g), g)
    ensures LogEmpty(d, g) ==> SameHome(Recovered(d, g), d, g)
  {
    RecoveredHome(d, g);
    HeaderRoundTrip(d[g.start], [], g, |d|);
    var ws := RecoveryWrites(d, g);
    assert ws[|ws| - 1] == Write(g.start, HeaderWith(d[g.start], []));
  }

  /** A crash inside recovery leaves an image that recovers to the same result. */
  lemma RecoveryCrash(d: Image, g: Geometry, k: nat)
    requires ImageOk(d, g) && k <= |RecoveryWrites(d, g)|
    ensures InRange(RecoveryWrites(d, g)[..k], |d|)
    ensures var mid := Apply(d, RecoveryWrites(d, g)[..k]);
            ImageOk(mid, g) && Recovered(mid, g) == Recovered(d, g)
  {
    var ws := RecoveryWrites(d, g);
    var mid := Apply(d, ws[..k]);
    if k == |ws| {
      assert ws[..k] == ws;
      RecoveredEmpty(d, g);
      var last := ws[|ws| - 1];
      assert mid[g.start] == last.data;
      assert HeaderWith(mid[g.start], []) == mid[g.start];
      assert RecoveryWrites(mid, g) == [Write(g.start, mid[g.start])];
      assert RecoveryWrites(mid, g)[..0] == [];
      assert Apply(mid, [Write(g.start, mid[g.start])]) == mid;
    } else {
      forall b | g.start <= b < g.start + g.size ensures mid[b] == d[b] {
        assert forall i :: 0 <= i < k ==> ws[..k][i] == ws[i] && !g.InLog(ws[i].blockno);
        ApplyUntouched(d, ws[..k], b);
      }
      assert OnDisk(mid, g) == OnDisk(d, g);
      assert RecoveryWrites(mid, g) == ws;
      Replay(d, ws, k);
    }
  }

  /** The image after boots that each crash: the j-th recovery is cut off
      after ks[j] writes, or runs to its end if it has no more than that. */
  function AfterCrashes(d: Image, g: Geometry, ks: seq<nat>): (e: Image)
    requires ImageOk(d, g)
    ensures |e| == |d| && ImageOk(e, g)
    decreases |ks|
  {
    if ks == [] then d
    else
      var ws := RecoveryWrites(d, g);
      var k := if ks[0] <= |ws| then ks[0] else |ws|;
      RecoveryCrash(d, g, k);
      AfterCrashes(Apply(d, ws[..k]), g, ks[1..])
  }

  /** The first of several crashes cuts the first recovery after k of its writes, and
      the next recovery starts from what is then on disk. */
  lemma FirstCrash(d: Image, g: Geometry, k: nat, ks: seq<nat>)
    requires ImageOk(d, g) && k <= |RecoveryWrites(d, g)|
    ensures InRange(RecoveryWrites(d, g)[..k], |d|) && ImageOk(Apply(d, RecoveryWrites(d, g)[..k]), g)
    ensures AfterCrashes(d, g, [k] + ks) == AfterCrashes(Apply(d, RecoveryWrites(d, g)[..k]), g, ks)
    ensures AfterCrashes(d, g, []) == d
  {
    RecoveryCrash(d, g, k);
    assert ([k] + ks)[1..] == ks;
  }

  /** The log is its header and the size - 1 slots after it, no more. */
  lemma LogBlocks(g: Geometry, i: nat)
    ensures g.InLog(g.start + i) <==> i < g.size
    ensures i < g.start ==> !g.InLog(i)
  {
  }

  lemma {:induction false} ManyCrashes(d: Image, g: Geometry, ks: seq<nat>)
    requires ImageOk(d, g)
    ensures Recovered(AfterCrashes(d, g, ks), g) == Recovered(d, g)
    decreases |ks|
  {
    if ks != [] {
      var ws := RecoveryWrites(d, g);
      var k := if ks[0] <= |ws| then ks[0] else |ws|;
      RecoveryCrash(d, g, k);
      ManyCrashes(Apply(d, ws[..k]), g, ks[1..]);
    }
  }

  // Commit.

  function CutAt(h: Block, g: Geometry, t: Txn, d: Image, k: nat): (r: Image)
    requires TxnOk(t, g, |d|) && g.start + g.size <= |d|
    requires k <= |CommitWrites(h, g, t)|
    ensures |r| == |d|
  {
    CommitInRange(h, g, t, |d|);
    Apply(d, CommitWrites(h, g, t)[..k])
  }

  /** Up to and including the log blocks: the old header still stands. */
  lemma CutBeforeHead(g: Geometry, t: Txn, d: Image, k: nat)
    requires LogEmpty(d, g) && TxnOk(t, g, |d|)
    requires k <= |t.blocks|
    requires k <= |CommitWrites(d[g.start], g, t)|
    ensures var c := CutAt(d[g.start], g, t, d, k);
            LogEmpty(c, g) && SameHome(c, d, g) && SameHome(Recovered(c, g), d, g)
  {
    var ws := CommitWrites(d[g.start], g, t)[..k];
    CommitInRange(d[g.start], g, t, |d|);
    var c := CutAt(d[g.start], g, t, d, k);
    assert forall i :: 0 <= i < k ==> ws[i] == LogWrites(g, t)[i];
    forall b | 0 <= b < |d| && (b == g.start || !g.InLog(b)) ensures c[b] == d[b] {
      ApplyUntouched(d, ws, b);
    }
    RecoverNothing(c, g);
  }

  /** The writes of a commit, index by index. */
  predicate Shape(ws: seq<Write>, full: Block, clear: Block, g: Geometry, t: Txn)
    requires |t.blocks| == |t.vals|
  {
    var n := |t.blocks|;
    && |ws| == 2 * n + 2
    && (forall i :: 0 <= i < n ==> ws[i] == Write(g.start + 1 + i, t.vals[i]))
    && ws[n] == Write(g.start, full)
    && (forall i :: n < i <= 2 * n ==> ws[i] == Write(t.blocks[i - n - 1], t.vals[i - n - 1]))
    && ws[2 * n + 1] == Write(g.start, clear)
  }

  lemma Concatenated(g: Geometry, t: Txn, full: Block, clear: Block)
    requires |t.blocks| == |t.vals|
    ensures Shape(LogWrites(g, t) + [Write(g.start, full)] + InstallWrites(t) + [Write(g.start, clear)],
                  full, clear, g, t)
  {
  }

  /** Headers that hold what a commit writes: first the whole transaction, then nothing. */
  predicate Headers(full: Block, clear: Block, g: Geometry, t: Txn, disksize: nat) {
    && HeaderOk(full, g, disksize) && Logged(full, g, disksize) == t.blocks
    && clear[0] == 0
  }

  lemma CommitShape(h: Block, g: Geometry, t: Txn, disksize: nat) returns (full: Block, clear: Block)
    requires TxnOk(t, g, disksize) && t.blocks != []
    ensures Shape(CommitWrites(h, g, t), full, clear, g, t)
    ensures Headers(full, clear, g, t, disksize)
  {
    full := HeaderWith(h, t.blocks);
    clear := HeaderWith(full, []);
    Concatenated(g, t, full, clear);
    HeaderRoundTrip(h, t.blocks, g, disksize);
  }

  /** A cut at or after the header write and before the clearing write: the
      image spells the whole transaction. */
  lemma ShapeCut(us: seq<Write>, ws: seq<Write>, full: Block, clear: Block, g: Geometry, t: Txn, d: Image)
    requires ImageOk(d, g) && TxnOk(t, g, |d|)
    requires Shape(ws, full, clear, g, t) && Headers(full, clear, g, t, |d|)
    requires |t.blocks| < |us| < |ws| && us == ws[..|us|] && InRange(us, |d|)
    ensures var c := Apply(d, us);
            ImageOk(c, g) && OnDisk(c, g) == t && SameElsewhere(d, c, t, g)
  {
    var n := |t.blocks|;
    var c := Apply(d, us);
    forall i | 0 <= i < n ensures c[g.start + 1 + i] == t.vals[i] {
      ShapeLogBlock(us, ws, full, clear, g, t, d, i);
    }
    ShapeHeader(us, ws, full, clear, g, t, d);
    Spelled(c, full, clear, g, t);
    ShapeElsewhere(us, ws, full, clear, g, t, d);
  }

  lemma Spelled(c: Image, full: Block, clear: Block, g: Geometry, t: Txn)
    requires g.start + g.size <= |c| && TxnOk(t, g, |c|)
    requires Headers(full, clear, g, t, |c|) && c[g.start] == full
    requires forall i :: 0 <= i < |t.blocks| ==> c[g.start + 1 + i] == t.vals[i]
    ensures ImageOk(c, g) && OnDisk(c, g) == t
  {
    assert OnDisk(c, g).vals == t.vals;
  }

  lemma ShapeElsewhere(us: seq<Write>, ws: seq<Write>, full: Block, clear: Block,
                       g: Geometry, t: Txn, d: Image)
    requires ImageOk(d, g) && TxnOk(t, g, |d|)
    requires Shape(ws, full, clear, g, t)
    requires |us| <= |ws| && us == ws[..|us|] && InRange(us, |d|)
    ensures SameElsewhere(d, Apply(d, us), t, g)
  {
    forall b | 0 <= b < |d| && !g.InLog(b) && b !in t.blocks ensures Apply(d, us)[b] == d[b] {
      forall k | 0 <= k < |us| ensures us[k].blockno != b {
        ShapeAvoids(ws, full, clear, g, t, |d|, b, k);
      }
      ApplyUntouched(d, us, b);
    }
  }

  lemma ShapeAvoids(ws: seq<Write>, full: Block, clear: Block, g: Geometry, t: Txn, disksize: nat, b: nat, k: nat)
    requires TxnOk(t, g, disksize) && Shape(ws, full, clear, g, t)
    requires !g.InLog(b) && b !in t.blocks && k < |ws|
    ensures ws[k].blockno != b
  {
    if |t.blocks| < k <= 2 * |t.blocks| {
      assert ws[k].blockno == t.blocks[k - |t.blocks| - 1];
    }
  }

  predicate SameElsewhere(d: Image, c: Image, t: Txn, g: Geometry)
    requires |c| == |d|
  {
    forall b :: 0 <= b < |d| && !g.InLog(b) && b !in t.blocks ==> c[b] == d[b]
  }

  lemma ShapeLogBlock(us: seq<Write>, ws: seq<Write>, full: Block, clear: Block,
                      g: Geometry, t: Txn, d: Image, i: nat)
    requires ImageOk(d, g) && TxnOk(t, g, |d|) && i < |t.blocks|
    requires Shape(ws, full, clear, g, t)
    requires |t.blocks| < |us| < |ws| && us == ws[..|us|] && InRange(us, |d|)
    ensures Apply(d, us)[g.start + 1 + i] == t.vals[i]
  {
    assert us[i] == Write(g.start + 1 + i, t.vals[i]);
    ApplyWritten(d, us, i);
  }

  lemma ShapeHeader(us: seq<Write>, ws: seq<Write>, full: Block, clear: Block,
                    g: Geometry, t: Txn, d: Image)
    requires ImageOk(d, g) && TxnOk(t, g, |d|)
    requires Shape(ws, full, clear, g, t)
    requires |t.blocks| < |us| < |ws| && us == ws[..|us|] && InRange(us, |d|)
    ensures Apply(d, us)[g.start] == full
  {
    assert us[|t.blocks|] == Write(g.start, full);
    ApplyWritten(d, us, |t.blocks|);
  }

  /** All the writes: the transaction is installed, the log empty again. */
  lemma ShapeDone(ws: seq<Write>, full: Block, clear: Block, g: Geometry, t: Txn, d: Image)
    requires ImageOk(d, g) && TxnOk(t, g, |d|)
    requires Shape(ws, full, clear, g, t) && Headers(full, clear, g, t, |d|) && InRange(ws, |d|)
    ensures var e := Apply(d, ws);
            LogEmpty(e, g) && HomeAfter(d, e, t, g)
  {
    var n := |t.blocks|;
    var e := Apply(d, ws);
    forall i | 0 <= i < n ensures e[t.blocks[i]] == t.vals[i] {
      assert ws[n + 1 + i] == Write(t.blocks[i], t.vals[i]);
      ApplyWritten(d, ws, n + 1 + i);
    }
    assert ws[..|ws|] == ws;
    ShapeElsewhere(ws, ws, full, clear, g, t, d);
  }

  /** From the header write on, recovery gives the transaction as a whole. */
  lemma CutAfterHead(g: Geometry, t: Txn, d: Image, k: nat)
    requires LogEmpty(d, g) && TxnOk(t, g, |d|)
    requires |t.blocks| < k <= |CommitWrites(d[g.start], g, t)|
    ensures var c := CutAt(d[g.start], g, t, d, k);
            ImageOk(c, g) && HomeAfter(d, Recovered(c, g), t, g)
  {
    CommitInRange(d[g.start], g, t, |d|);
    var full, clear := CommitShape(d[g.start], g, t, |d|);
    ShapeRecovers(CommitWrites(d[g.start], g, t), full, clear, g, t, d, k);
  }

  lemma ShapeRecovers(ws: seq<Write>, full: Block, clear: Block, g: Geometry, t: Txn, d: Image, k: nat)
    requires ImageOk(d, g) && TxnOk(t, g, |d|)
    requires Shape(ws, full, clear, g, t) && Headers(full, clear, g, t, |d|) && InRange(ws, |d|)
    requires |t.blocks| < k <= |ws|
    ensures Survives(Apply(d, ws[..k]), d, g, t)
  {
    var us := ws[..k];
    if k == |ws| {
      assert us == ws;
      ShapeDone(ws, full, clear, g, t, d);
      RecoverInstalled(Apply(d, us), d, g, t);
    } else {
      ShapeCut(us, ws, full, clear, g, t, d);
      RecoverSpelled(Apply(d, us), d, g, t);
    }
  }

  predicate Survives(c: Image, d: Image, g: Geometry, t: Txn)
    requires |t.blocks| == |t.vals|
  {
    ImageOk(c, g) && HomeAfter(d, Recovered(c, g), t, g)
  }

  lemma RecoverInstalled(c: Image, d: Image, g: Geometry, t: Txn)
    requires LogEmpty(c, g) && TxnOk(t, g, |c|) && HomeAfter(d, c, t, g)
    ensures Survives(c, d, g, t)
  {
    RecoverNothing(c, g);
  }

  lemma RecoverSpelled(c: Image, d: Image, g: Geometry, t: Txn)
    requires ImageOk(c, g) && TxnOk(t, g, |c|) && OnDisk(c, g) == t
    requires |c| == |d| && SameElsewhere(d, c, t, g)
    ensures Survives(c, d, g, t)
  {
    RecoveredHome(c, g);
  }

  lemma RecoverNothing(c: Image, g: Geometry)
    requires LogEmpty(c, g)
    ensures SameHome(Recovered(c, g), c, g)
  {
    RecoveredEmpty(c, g);
  }

  /** commit() run to its end: installed, and the log empty again. */
  lemma CommittedImage(g: Geometry, t: Txn, d: Image)
    requires LogEmpty(d, g) && TxnOk(t, g, |d|)
    ensures InRange(CommitWrites(d[g.start], g, t), |d|)
    ensures var e := Apply(d, CommitWrites(d[g.start], g, t));
            LogEmpty(e, g) && HomeAfter(d, e, t, g)
  {
    CommitInRange(d[g.start], g, t, |d|);
    if t.blocks != [] {
      var full, clear := CommitShape(d[g.start], g, t, |d|);
      ShapeDone(CommitWrites(d[g.start], g, t), full, clear, g, t, d);
    }
  }

  /** Every cut of a commit can be booted from. */
  lemma EveryCutBoots(g: Geometry, t: Txn, d: Image, k: nat)
    requires LogEmpty(d, g) && TxnOk(t, g, |d|)
    requires k <= |CommitWrites(d[g.start], g, t)|
    ensures ImageOk(CutAt(d[g.start], g, t, d, k), g)
  {
    if k <= |t.blocks| {
      CutBeforeHead(g, t, d, k);
    } else {
      CutAfterHead(g, t, d, k);
    }
  }

  /** What the disk holds in the end: the commit is cut after k writes, then
      boots crash in recovery as ks says, then one recovery completes. */
  function Outcome(g: Geometry, t: Txn, d: Image, k: nat, ks: seq<nat>): (r: Image)
    requires LogEmpty(d, g) && TxnOk(t, g, |d|)
    requires k <= |CommitWrites(d[g.start], g, t)|
  {
    EveryCutBoots(g, t, d, k);
    Recovered(AfterCrashes(CutAt(d[g.start], g, t, d, k), g, ks), g)
  }

  /** Crash atomicity: the home blocks are those before the transaction, or those
      after it, as a whole, and the header write alone decides which. */
  lemma CrashAtomicity(g: Geometry, t: Txn, d: Image, k: nat, ks: seq<nat>)
    requires LogEmpty(d, g) && TxnOk(t, g, |d|)
    requires k <= |CommitWrites(d[g.start], g, t)|
    ensures LogEmpty(Outcome(g, t, d, k, ks), g)
    ensures k <= |t.blocks| ==> SameHome(Outcome(g, t, d, k, ks), d, g)
    ensures k > |t.blocks| ==> HomeAfter(d, Outcome(g, t, d, k, ks), t, g)
  {
    EveryCutBoots(g, t, d, k);
    var c := CutAt(d[g.start], g, t, d, k);
    ManyCrashes(c, g, ks);
    RecoveredEmpty(AfterCrashes(c, g, ks), g);
    if k <= |t.blocks| {
      CutBeforeHead(g, t, d, k);
    } else {
      CutAfterHead(g, t, d, k);
    }
  }

  // Whole histories of transactions.

  /** The images between the transactions of a history that runs undisturbed. */
  ghost predicate History(ds: seq<Image>, ts: seq<Txn>, g: Geometry) {
    && |ds| == |ts| + 1
    && LogEmpty(ds[0], g)
    && (forall i :: 0 <= i < |ts| ==>
          && LogEmpty(ds[i], g)
          && TxnOk(ts[i], g, |ds[i]|)
          && InRange(CommitWrites(ds[i][g.start], g, ts[i]), |ds[i]|)
          && ds[i + 1] == Apply(ds[i], CommitWrites(ds[i][g.start], g, ts[i])))
  }

  function AllWrites(ds: seq<Image>, ts: seq<Txn>, g: Geometry): (ws: seq<Write>)
    requires |ds| == |ts| + 1
    requires forall i :: 0 <= i < |ts| ==>
      |ts[i].blocks| == |ts[i].vals| && |ts[i].blocks| <= LOGSIZE && g.start < |ds[i]|
    decreases |ts|
  {
    if ts == [] then []
    else CommitWrites(ds[0][g.start], g, ts[0]) + AllWrites(ds[1..], ts[1..], g)
  }

  /** A crash anywhere in a history, and any further crashes in recovery: in the end
      the home blocks are those between some two transactions, never a mixture. j
      counts the transactions that survive: all that finished before the crash
      (durability), and at most the one that was being committed besides. */
  lemma HistoryCrash(ds: seq<Image>, ts: seq<Txn>, g: Geometry, k: nat, ks: seq<nat>) returns (j: nat)
    requires History(ds, ts, g)
    requires k <= |AllWrites(ds, ts, g)|
    ensures j <= |ts|
    ensures InRange(AllWrites(ds, ts, g)[..k], |ds[0]|)
    ensures var c := Apply(ds[0], AllWrites(ds, ts, g)[..k]);
            ImageOk(c, g) && SameHome(Recovered(AfterCrashes(c, g, ks), g), ds[j], g)
    ensures Keeps(ds, ts, g, k, j)
    ensures j > 0 ==> Before(ds, ts, g, j - 1) <= k
  {
    j := HistoryCut(ds, ts, g, k);
    ManyCrashes(Apply(ds[0], AllWrites(ds, ts, g)[..k]), g, ks);
  }

  /** How many writes come before those of transaction m. */
  function Before(ds: seq<Image>, ts: seq<Txn>, g: Geometry, m: nat): (n: nat)
    requires |ds| == |ts| + 1 && m <= |ts|
    requires forall i :: 0 <= i < |ts| ==>
      |ts[i].blocks| == |ts[i].vals| && |ts[i].blocks| <= LOGSIZE && g.start < |ds[i]|
  {
    |AllWrites(ds[..m + 1], ts[..m], g)|
  }

  /** The crash itself, with one recovery after it. */
  lemma {:induction false} HistoryCut(ds: seq<Image>, ts: seq<Txn>, g: Geometry, k: nat) returns (j: nat)
    requires History(ds, ts, g)
    requires k <= |AllWrites(ds, ts, g)|
    ensures j <= |ts|
    ensures InRange(AllWrites(ds, ts, g)[..k], |ds[0]|)
    ensures RecoversTo(Apply(ds[0], AllWrites(ds, ts, g)[..k]), ds[j], g)
    ensures Keeps(ds, ts, g, k, j)
    ensures j > 0 ==> Before(ds, ts, g, j - 1) <= k
    decreases |ts|
  {
    hide CommitWrites, Recovered, RecoveryWrites;
    if ts == [] {
      assert AllWrites(ds, ts, g)[..k] == [];
      RecoverNothing(ds[0], g);
      j := 0;
    } else if k < |CommitWrites(ds[0][g.start], g, ts[0])| {
      j := InFirst(ds, ts, g, k);
    } else {
      var first := CommitWrites(ds[0][g.start], g, ts[0]);
      var rest := AllWrites(ds[1..], ts[1..], g);
      HistoryTail(ds, ts, g);
      var i := HistoryCut(ds[1..], ts[1..], g, k - |first|);
      Joined(ds[0], first, rest, k);
      KeepsTail(ds, ts, g, k, i);
      if i > 0 {
        PrefixWrites(ds, ts, g, i);
      }
      j := i + 1;
    }
  }

  predicate RecoversTo(c: Image, d: Image, g: Geometry) {
    ImageOk(c, g) && SameHome(Recovered(c, g), d, g)
  }

  /** Every transaction whose writes all came before write k is among the first j,
      unless it wrote nothing. */
  ghost predicate Keeps(ds: seq<Image>, ts: seq<Txn>, g: Geometry, k: nat, j: nat)
    requires History(ds, ts, g) && j <= |ts|
  {
    forall m: nat :: m <= |ts| && Before(ds, ts, g, m) <= k ==> m <= j || ds[m] == ds[j]
  }

  lemma Joined(d: Image, first: seq<Write>, rest: seq<Write>, k: nat)
    requires InRange(first, |d|) && |first| <= k <= |first| + |rest|
    requires InRange(rest[..k - |first|], |d|)
    ensures InRange((first + rest)[..k], |d|)
    ensures Apply(d, (first + rest)[..k]) == Apply(Apply(d, first), rest[..k - |first|])
  {
    assert (first + rest)[..k] == first + rest[..k - |first|];
    ApplyAppend(d, first, rest[..k - |first|]);
  }

  lemma HistoryTail(ds: seq<Image>, ts: seq<Txn>, g: Geometry)
    requires History(ds, ts, g) && ts != []
    ensures History(ds[1..], ts[1..], g)
  {
    CommittedImage(g, ts[0], ds[0]);
  }

  lemma KeepsTail(ds: seq<Image>, ts: seq<Txn>, g: Geometry, k: nat, i: nat)
    requires History(ds, ts, g) && ts != [] && History(ds[1..], ts[1..], g)
    requires |CommitWrites(ds[0][g.start], g, ts[0])| <= k && i < |ts|
    requires Keeps(ds[1..], ts[1..], g, k - |CommitWrites(ds[0][g.start], g, ts[0])|, i)
    ensures Keeps(ds, ts, g, k, i + 1)
  {
    var first := CommitWrites(ds[0][g.start], g, ts[0]);
    forall m: nat | m <= |ts| && Before(ds, ts, g, m) <= k
      ensures m <= i + 1 || ds[m] == ds[i + 1]
    {
      if m > 0 {
        PrefixWrites(ds, ts, g, m);
        assert Before(ds[1..], ts[1..], g, m - 1) <= k - |first|;
        assert m - 1 <= i || ds[1..][m - 1] == ds[1..][i];
      }
    }
  }

  lemma PrefixWrites(ds: seq<Image>, ts: seq<Txn>, g: Geometry, m: nat)
    requires History(ds, ts, g) && 0 < m <= |ts|
    ensures AllWrites(ds[..m + 1], ts[..m], g)
         == CommitWrites(ds[0][g.start], g, ts[0]) + AllWrites(ds[1..][..m], ts[1..][..m - 1], g)
  {
    assert ds[..m + 1][1..] == ds[1..][..m];
    assert ts[..m][1..] == ts[1..][..m - 1];
  }

  /** The crash falls inside the first commit of the history. */
  lemma InFirst(ds: seq<Image>, ts: seq<Txn>, g: Geometry, k: nat) returns (j: nat)
    requires History(ds, ts, g) && ts != []
    requires k < |CommitWrites(ds[0][g.start], g, ts[0])|
    ensures j <= 1 && k <= |AllWrites(ds, ts, g)|
    ensures InRange(AllWrites(ds, ts, g)[..k], |ds[0]|)
    ensures RecoversTo(Apply(ds[0], AllWrites(ds, ts, g)[..k]), ds[j], g)
    ensures Keeps(ds, ts, g, k, j)
    ensures j > 0 ==> Before(ds, ts, g, j - 1) <= k
  {
    hide CommitWrites, Recovered, RecoveryWrites;
    var d, t := ds[0], ts[0];
    var first := CommitWrites(d[g.start], g, t);
    assert AllWrites(ds, ts, g)[..k] == first[..k];
    assert Apply(d, AllWrites(ds, ts, g)[..k]) == CutAt(d[g.start], g, t, d, k);
    CommittedImage(g, t, d);
    if k <= |t.blocks| {
      CutBeforeHead(g, t, d, k);
      j := 0;
    } else {
      CutAfterHead(g, t, d, k);
      SamePost(d, Recovered(CutAt(d[g.start], g, t, d, k), g), ds[1], t, g);
      j := 1;
    }
    forall m: nat | m <= |ts| && Before(ds, ts, g, m) <= k ensures m <= j {
      if m > 0 {
        PrefixWrites(ds, ts, g, m);
      }
    }
  }

  lemma SamePost(d: Image, e: Image, f: Image, t: Txn, g: Geometry)
    requires |t.blocks| == |t.vals|
    requires HomeAfter(d, e, t, g) && HomeAfter(d, f, t, g)
    ensures SameHome(e, f, g)
  {
    forall b | 0 <= b < |e| && !g.InLog(b) ensures e[b] == f[b] {
      if b in t.blocks {
        var i :| 0 <= i < |t.blocks| && t.blocks[i] == b;
      }
    }
  }
}
