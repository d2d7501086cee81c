/** The disk as memide.c presents it: a row of blocks, each written whole.
    A crash keeps exactly the writes that were issued before it, so a crash
    point is a prefix of a sequence of writes. */
module Disk {

  /** A 512-byte block, seen as its 128 32-bit words. */
  const WORDS := 128

  const ZERO_BLOCK: seq<int> := seq(WORDS, _ => 0)

  type Block = b: seq<int> | |b| == WORDS witness ZERO_BLOCK

  type Image = seq<Block>

  datatype Write = Write(blockno: nat, data: Block)

  predicate InRange(ws: seq<Write>, size: nat) {
    forall k :: 0 <= k < |ws| ==> ws[k].blockno < size
  }

  /** The image after the writes, in order. */
  function Apply(d: Image, ws: seq<Write>): (r: Image)
    requires InRange(ws, |d|)
    ensures |r| == |d|
    decreases |ws|
  {
    if ws == [] then d
    else
      var last := ws[|ws| - 1];
      Apply(d, ws[..|ws| - 1])[last.blockno := last.data]
  }

  predicate Writes(ws: seq<Write>, b: nat) {
    exists k :: 0 <= k < |ws| && ws[k].blockno == b
  }

  lemma {:induction false} ApplyAppend(d: Image, us: seq<Write>, ws: seq<Write>)
    requires InRange(us, |d|) && InRange(ws, |d|)
    ensures InRange(us + ws, |d|)
    ensures Apply(d, us + ws) == Apply(Apply(d, us), ws)
    decreases |ws|
  {
    if ws == [] {
      assert us + ws == us;
    } else {
      var init := ws[..|ws| - 1];
      ApplyAppend(d, us, init);
      assert (us + ws)[..|us + ws| - 1] == us + init;
    }
  }

  /** A block that no write names keeps its contents. */
  lemma {:induction false} ApplyUntouched(d: Image, ws: seq<Write>, b: nat)
    requires InRange(ws, |d|) && b < |d| && !Writes(ws, b)
    ensures Apply(d, ws)[b] == d[b]
    decreases |ws|
  {
    if ws != [] {
      var init := ws[..|ws| - 1];
      assert forall k :: 0 <= k < |init| ==> init[k] == ws[k];
      ApplyUntouched(d, init, b);
    }
  }

  /** Where a block is written, the old contents do not matter. */
  lemma {:induction false} ApplyForgets(d: Image, e: Image, ws: seq<Write>, b: nat)
    requires |d| == |e| && InRange(ws, |d|) && b < |d| && Writes(ws, b)
    ensures Apply(d, ws)[b] == Apply(e, ws)[b]
    decreases |ws|
  {
    var init := ws[..|ws| - 1];
    if ws[|ws| - 1].blockno != b {
      var k :| 0 <= k < |ws| && ws[k].blockno == b;
      assert init[k].blockno == b;
      ApplyForgets(d, e, init, b);
    }
  }

  /** A block holds what the last write to it carried. */
  lemma {:induction false} ApplyWritten(d: Image, ws: seq<Write>, k: nat)
    requires InRange(ws, |d|) && k < |ws| && forall j :: k < j < |ws| ==> ws[j].blockno != ws[k].blockno
    ensures Apply(d, ws)[ws[k].blockno] == ws[k].data
    decreases |ws|
  {
    if k < |ws| - 1 {
      var init := ws[..|ws| - 1];
      assert init[k] == ws[k];
      ApplyWritten(d, init, k);
    }
  }

  /** Replaying a sequence of writes over any prefix of itself gives what the
      sequence alone gives: redo is idempotent at every crash point. */
  lemma {:induction false} Replay(d: Image, ws: seq<Write>, k: nat)
    requires InRange(ws, |d|) && k <= |ws|
    ensures InRange(ws[..k], |d|)
    ensures Apply(Apply(d, ws[..k]), ws) == Apply(d, ws)
  {
    var mid := Apply(d, ws[..k]);
    forall b | 0 <= b < |d| ensures Apply(mid, ws)[b] == Apply(d, ws)[b] {
      if Writes(ws, b) {
        ApplyForgets(mid, d, ws, b);
      } else {
        ApplyUntouched(mid, ws, b);
        ApplyUntouched(d, ws, b);
        ApplyUntouched(d, ws[..k], b);
      }
    }
  }
}
