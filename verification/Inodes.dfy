/** Block allocation and file contents (fs.c): the free bitmap, direct and
    indirect blocks, and the byte sequence each inode presents. */
module Inodes {
  import opened Wrappers

  const BSIZE := 512
  const NDIRECT := 12
  const NINDIRECT := 128
  const MAXFILE := NDIRECT + NINDIRECT

  type Block = b: seq<int> | |b| == BSIZE witness seq(BSIZE, _ => 0)

  function ZeroBlock(): (b: Block) { seq(BSIZE, _ => 0) }

  // The address view of an indirect block: 128 little-endian words.

  function GetAddr(b: Block, e: nat): (a: int)
    requires e < NINDIRECT
  {
    b[4 * e] + 256 * b[4 * e + 1] + 65536 * b[4 * e + 2] + 16777216 * b[4 * e + 3]
  }

  function PutAddr(b: Block, e: nat, a: nat): (r: Block)
    requires e < NINDIRECT
  {
    b[4 * e := a % 256][4 * e + 1 := a / 256 % 256][4 * e + 2 := a / 65536 % 256][4 * e + 3 := a / 16777216]
  }

  lemma GetPut(b: Block, e: nat, a: nat, f: nat)
    requires e < NINDIRECT && f < NINDIRECT
    ensures GetAddr(PutAddr(b, e, a), f) == if f == e then a else GetAddr(b, f)
  {
    if f == e {
      var b' := PutAddr(b, e, a);
      assert b'[4 * e] == a % 256 && b'[4 * e + 1] == a / 256 % 256;
      assert b'[4 * e + 2] == a / 65536 % 256 && b'[4 * e + 3] == a / 16777216;
      Digits(a);
    }
  }

  lemma Digits(a: nat)
    ensures a == a % 256 + 256 * (a / 256 % 256) + 65536 * (a / 65536 % 256) + 16777216 * (a / 16777216)
  {
    var q := a / 256;
    assert a == 256 * q + a % 256;
    assert q / 256 == a / 65536;
    var r := q / 256;
    assert r / 256 == a / 16777216;
  }

  datatype Inode = Inode(size: nat, addrs: seq<nat>)

  /** The bitmap, the blocks and the inodes of one file system. Blocks below
      nmeta hold the boot block, the super block, log, inodes and bitmap. */
  datatype FS = FS(bits: seq<bool>, blocks: seq<Block>, inodes: seq<Inode>, nmeta: nat)

  ghost predicate Shaped(fs: FS) {
    && |fs.bits| == |fs.blocks| && 0 < fs.nmeta <= |fs.bits|
    && (forall i :: 0 <= i < |fs.inodes| ==> |fs.inodes[i].addrs| == NDIRECT + 1)
    && (forall i, k :: 0 <= i < |fs.inodes| && 0 <= k <= NDIRECT ==> fs.inodes[i].addrs[k] < |fs.blocks|)
  }

  /** The block number an inode keeps in slot k: a direct block, the indirect
      block (slot 12), or a block the indirect block lists (slots 13 to 140).
      Zero stands for none. */
  function Addr(fs: FS, i: nat, k: nat): (a: int)
    requires Shaped(fs) && i < |fs.inodes| && k <= MAXFILE
  {
    var addrs := fs.inodes[i].addrs;
    if k <= NDIRECT then addrs[k]
    else if addrs[NDIRECT] == 0 then 0
    else GetAddr(fs.blocks[addrs[NDIRECT]], k - NDIRECT - 1)
  }

  /** The slot of a file's bn-th block. */
  function SlotOf(bn: nat): (k: nat) { if bn < NDIRECT then bn else bn + 1 }

  ghost predicate Slot(fs: FS, i: nat, k: nat) { i < |fs.inodes| && k <= MAXFILE }

  /** own names the one slot that holds a block. Every block a slot holds is
      marked in the bitmap and lies in the data area. */
  ghost predicate Owned(fs: FS, own: map<int, (nat, nat)>) {
    && Shaped(fs)
    && (forall b :: 0 <= b < fs.nmeta ==> fs.bits[b])
    && (forall i, k :: Slot(fs, i, k) && Addr(fs, i, k) != 0 ==> Proper(fs, own, i, k))
  }

  ghost predicate Proper(fs: FS, own: map<int, (nat, nat)>, i: nat, k: nat)
    requires Shaped(fs) && Slot(fs, i, k)
  {
    var a := Addr(fs, i, k);
    a in own && own[a] == (i, k) && fs.nmeta <= a < |fs.bits| && fs.bits[a]
  }

  /** No block is held twice, in one file or in two. */
  lemma OwnedOnce(fs: FS, own: map<int, (nat, nat)>, i: nat, k: nat, j: nat, l: nat)
    requires Owned(fs, own) && Slot(fs, i, k) && Slot(fs, j, l)
    requires Addr(fs, i, k) == Addr(fs, j, l) != 0
    ensures i == j && k == l
  {
    assert Proper(fs, own, i, k) && Proper(fs, own, j, l);
  }

  /** A free block is held by no slot. */
  lemma FreeUnheld(fs: FS, own: map<int, (nat, nat)>, b: nat)
    requires Owned(fs, own) && b < |fs.bits| && !fs.bits[b]
    ensures fs.nmeta <= b
    ensures forall i, k :: Slot(fs, i, k) ==> Addr(fs, i, k) != b
  {
    forall i, k | Slot(fs, i, k) ensures Addr(fs, i, k) != b {
      assert Addr(fs, i, k) != 0 ==> Proper(fs, own, i, k);
    }
  }

  /** The file's first n blocks are there and no more, and the indirect block
      exactly when they need it: no holes. */
  ghost predicate Filled(fs: FS, i: nat, n: nat)
    requires Shaped(fs) && i < |fs.inodes|
  {
    && n <= MAXFILE
    && (forall bn: nat :: bn < MAXFILE ==> (Addr(fs, i, SlotOf(bn)) != 0 <==> bn < n))
    && (Addr(fs, i, NDIRECT) != 0 <==> n > NDIRECT)
  }

  // balloc and bmap, one block at a time.

  /** balloc: mark block b and zero it. */
  function Take(fs: FS, b: nat): (fs': FS)
    requires b < |fs.bits| == |fs.blocks|
  {
    fs.(bits := fs.bits[b := true], blocks := fs.blocks[b := ZeroBlock()])
  }

  /** bmap: enter block b in slot k, in the inode or in the indirect block. */
  function Enter(fs: FS, i: nat, k: nat, b: nat): (fs': FS)
    requires Shaped(fs) && Slot(fs, i, k)
    requires k > NDIRECT ==> fs.inodes[i].addrs[NDIRECT] < |fs.blocks|
  {
    var addrs := fs.inodes[i].addrs;
    if k <= NDIRECT then
      fs.(inodes := fs.inodes[i := fs.inodes[i].(addrs := addrs[k := b])])
    else
      var ib := addrs[NDIRECT];
      fs.(blocks := fs.blocks[ib := PutAddr(fs.blocks[ib], k - NDIRECT - 1, b)])
  }

  lemma TakeAddr(fs: FS, own: map<int, (nat, nat)>, b: nat, i: nat, k: nat)
    requires Owned(fs, own) && b < |fs.bits| && !fs.bits[b] && Slot(fs, i, k)
    ensures Shaped(Take(fs, b)) && Addr(Take(fs, b), i, k) == Addr(fs, i, k)
  {
    FreeUnheld(fs, own, b);
    assert Slot(fs, i, NDIRECT) && Addr(fs, i, NDIRECT) != b;
  }

  lemma ZeroAddrs(e: nat)
    requires e < NINDIRECT
    ensures GetAddr(ZeroBlock(), e) == 0
  {
  }

  /** Entering a new zeroed block in an empty slot changes that slot alone. */
  lemma EnterAddr(fs: FS, own: map<int, (nat, nat)>, i: nat, k: nat, b: nat, j: nat, l: nat)
    requires Owned(fs, own) && Slot(fs, i, k) && Slot(fs, j, l) && b < |fs.blocks|
    requires Addr(fs, i, k) == 0 && (k > NDIRECT ==> Addr(fs, i, NDIRECT) != 0)
    requires k == NDIRECT ==> fs.blocks[b] == ZeroBlock()
    ensures Shaped(Enter(fs, i, k, b))
    ensures Addr(Enter(fs, i, k, b), j, l) == if j == i && l == k then b else Addr(fs, j, l)
  {
    var fs' := Enter(fs, i, k, b);
    if k > NDIRECT {
      var ib := fs.inodes[i].addrs[NDIRECT];
      assert Proper(fs, own, i, NDIRECT);
      if l > NDIRECT && fs.inodes[j].addrs[NDIRECT] == ib {
        OwnedOnce(fs, own, i, NDIRECT, j, NDIRECT);
        GetPut(fs.blocks[ib], k - NDIRECT - 1, b, l - NDIRECT - 1);
      }
    } else if k == NDIRECT && j == i && l > NDIRECT {
      ZeroAddrs(l - NDIRECT - 1);
    }
  }

  /** balloc and the entry together. */
  function AllocAt(fs: FS, i: nat, k: nat, b: nat): (fs': FS)
    requires Shaped(fs) && Slot(fs, i, k) && b < |fs.bits|
  {
    Enter(Take(fs, b), i, k, b)
  }

  ghost predicate MayAlloc(fs: FS, own: map<int, (nat, nat)>, i: nat, k: nat, b: nat) {
    && Owned(fs, own) && Slot(fs, i, k) && b < |fs.bits| && !fs.bits[b]
    && Addr(fs, i, k) == 0 && (k > NDIRECT ==> Addr(fs, i, NDIRECT) != 0)
  }

  lemma TakeOwned(fs: FS, own: map<int, (nat, nat)>, b: nat)
    requires Owned(fs, own) && b < |fs.bits| && !fs.bits[b]
    ensures Owned(Take(fs, b), own)
  {
    var fs' := Take(fs, b);
    forall i, k | Slot(fs', i, k) && Addr(fs', i, k) != 0 ensures Proper(fs', own, i, k) {
      TakeAddr(fs, own, b, i, k);
      assert Proper(fs, own, i, k);
    }
  }

  lemma AllocAddr(fs: FS, own: map<int, (nat, nat)>, i: nat, k: nat, b: nat, j: nat, l: nat)
    requires MayAlloc(fs, own, i, k, b) && Slot(fs, j, l)
    ensures Shaped(AllocAt(fs, i, k, b))
    ensures Addr(AllocAt(fs, i, k, b), j, l) == if j == i && l == k then b else Addr(fs, j, l)
  {
    TakeOwned(fs, own, b);
    TakeAddr(fs, own, b, i, k);
    TakeAddr(fs, own, b, j, l);
    TakeAddr(fs, own, b, i, NDIRECT);
    EnterAddr(Take(fs, b), own, i, k, b, j, l);
  }

  lemma AllocOwned(fs: FS, own: map<int, (nat, nat)>, i: nat, k: nat, b: nat)
    requires MayAlloc(fs, own, i, k, b)
    ensures Owned(AllocAt(fs, i, k, b), own[b := (i, k)])
  {
    hide Addr;
    var fs', own' := AllocAt(fs, i, k, b), own[b := (i, k)];
    FreeUnheld(fs, own, b);
    AllocAddr(fs, own, i, k, b, i, k);
    forall j, l | Slot(fs', j, l) && Addr(fs', j, l) != 0 ensures Proper(fs', own', j, l) {
      AllocAddr(fs, own, i, k, b, j, l);
      assert !(j == i && l == k) ==> Proper(fs, own, j, l);
    }
  }

  /** The data blocks of all files keep their contents; the new one is zero. */
  lemma AllocData(fs: FS, own: map<int, (nat, nat)>, i: nat, k: nat, b: nat, j: nat, l: nat)
    requires MayAlloc(fs, own, i, k, b) && Slot(fs, j, l) && l != NDIRECT && Addr(fs, j, l) != 0
    ensures 0 <= Addr(fs, j, l) < |fs.blocks|
    ensures AllocAt(fs, i, k, b).blocks[Addr(fs, j, l)] == fs.blocks[Addr(fs, j, l)]
  {
    assert Proper(fs, own, j, l);
    FreeUnheld(fs, own, b);
    if k > NDIRECT {
      assert Addr(fs, i, NDIRECT) != Addr(fs, j, l) by {
        if Addr(fs, i, NDIRECT) == Addr(fs, j, l) {
          OwnedOnce(fs, own, i, NDIRECT, j, l);
        }
      }
    }
  }

  lemma AllocZero(fs: FS, own: map<int, (nat, nat)>, i: nat, k: nat, b: nat)
    requires MayAlloc(fs, own, i, k, b)
    ensures |AllocAt(fs, i, k, b).blocks| == |fs.blocks|
    ensures AllocAt(fs, i, k, b).blocks[b] == ZeroBlock()
  {
    FreeUnheld(fs, own, b);
    assert Slot(fs, i, NDIRECT);
  }

  /** Blocks may have been added to file i; what was there is unchanged, and
      the new data blocks are zero. */
  ghost predicate Extends(fs: FS, own: map<int, (nat, nat)>, fs': FS, own': map<int, (nat, nat)>, i: nat) {
    && Owned(fs, own) && Owned(fs', own')
    && |fs'.inodes| == |fs.inodes| && |fs'.blocks| == |fs.blocks| && fs'.nmeta == fs.nmeta
    && (forall j :: 0 <= j < |fs.inodes| ==> fs'.inodes[j].size == fs.inodes[j].size)
    && (forall j, l :: Slot(fs, j, l) ==> SlotExtends(fs, fs', i, j, l))
  }

  ghost predicate SlotExtends(fs: FS, fs': FS, i: nat, j: nat, l: nat)
    requires Shaped(fs) && Shaped(fs') && Slot(fs, j, l) && Slot(fs', j, l) && |fs'.blocks| == |fs.blocks|
  {
    var a, a' := Addr(fs, j, l), Addr(fs', j, l);
    && (a != 0 || j != i ==> a' == a)
    && (0 < a < |fs.blocks| && l != NDIRECT ==> fs'.blocks[a] == fs.blocks[a])
    && (a == 0 && 0 < a' < |fs.blocks| && l != NDIRECT ==> fs'.blocks[a'] == ZeroBlock())
  }

  lemma AllocExtends(fs: FS, own: map<int, (nat, nat)>, i: nat, k: nat, b: nat)
    requires MayAlloc(fs, own, i, k, b)
    ensures Extends(fs, own, AllocAt(fs, i, k, b), own[b := (i, k)], i)
  {
    hide Addr, Enter;
    var fs' := AllocAt(fs, i, k, b);
    AllocOwned(fs, own, i, k, b);
    AllocZero(fs, own, i, k, b);
    AllocSizes(fs, own, i, k, b);
    forall j, l | Slot(fs, j, l) ensures SlotExtends(fs, fs', i, j, l) {
      AllocAddr(fs, own, i, k, b, j, l);
      if Addr(fs, j, l) != 0 && l != NDIRECT {
        AllocData(fs, own, i, k, b, j, l);
      }
    }
  }

  lemma AllocSizes(fs: FS, own: map<int, (nat, nat)>, i: nat, k: nat, b: nat)
    requires MayAlloc(fs, own, i, k, b)
    ensures var fs' := AllocAt(fs, i, k, b);
            && |fs'.inodes| == |fs.inodes| && fs'.nmeta == fs.nmeta
            && (forall j :: 0 <= j < |fs.inodes| ==> fs'.inodes[j].size == fs.inodes[j].size)
  {
  }

  lemma ExtendsTwice(fs: FS, own: map<int, (nat, nat)>, fs1: FS, own1: map<int, (nat, nat)>,
                     fs2: FS, own2: map<int, (nat, nat)>, i: nat)
    requires Extends(fs, own, fs1, own1, i) && Extends(fs1, own1, fs2, own2, i)
    ensures Extends(fs, own, fs2, own2, i)
  {
    hide Addr;
    forall j, l | Slot(fs, j, l) ensures SlotExtends(fs, fs2, i, j, l) {
      assert SlotExtends(fs, fs1, i, j, l) && SlotExtends(fs1, fs2, i, j, l);
      assert Addr(fs, j, l) != 0 ==> Proper(fs, own, j, l);
    }
  }

  lemma ExtendsSelf(fs: FS, own: map<int, (nat, nat)>, i: nat)
    requires Owned(fs, own)
    ensures Extends(fs, own, fs, own, i)
  {
  }

  // Growing a file by its next block.

  lemma AddrUpdate(fs: FS, own: map<int, (nat, nat)>, i: nat, k: nat, b: nat, bn: nat)
    requires MayAlloc(fs, own, i, k, b) && bn < MAXFILE
    ensures Shaped(AllocAt(fs, i, k, b)) && i < |AllocAt(fs, i, k, b).inodes|
    ensures Addr(AllocAt(fs, i, k, b), i, SlotOf(bn)) == if SlotOf(bn) == k then b else Addr(fs, i, SlotOf(bn))
    ensures Addr(AllocAt(fs, i, k, b), i, NDIRECT) == if k == NDIRECT then b else Addr(fs, i, NDIRECT)
  {
    AllocAddr(fs, own, i, k, b, i, SlotOf(bn));
    AllocAddr(fs, own, i, k, b, i, NDIRECT);
  }

  /** The next data block, once the indirect block is there if it is needed. */
  lemma FilledNext(fs: FS, own: map<int, (nat, nat)>, i: nat, n: nat, b: nat)
    requires n < MAXFILE && MayAlloc(fs, own, i, SlotOf(n), b)
    requires forall bn: nat :: bn < MAXFILE ==> (Addr(fs, i, SlotOf(bn)) != 0 <==> bn < n)
    requires Addr(fs, i, NDIRECT) != 0 <==> n >= NDIRECT
    ensures Shaped(AllocAt(fs, i, SlotOf(n), b)) && i < |AllocAt(fs, i, SlotOf(n), b).inodes|
    ensures Filled(AllocAt(fs, i, SlotOf(n), b), i, n + 1)
  {
    hide Addr, AllocAt;
    var fs' := AllocAt(fs, i, SlotOf(n), b);
    AddrUpdate(fs, own, i, SlotOf(n), b, n);
    FreeUnheld(fs, own, b);
    forall bn: nat | bn < MAXFILE ensures Addr(fs', i, SlotOf(bn)) != 0 <==> bn < n + 1 {
      AddrUpdate(fs, own, i, SlotOf(n), b, bn);
    }
  }

  /** The indirect block, allocated before the first block it lists. */
  lemma FilledIndirect(fs: FS, own: map<int, (nat, nat)>, i: nat, b: nat)
    requires MayAlloc(fs, own, i, NDIRECT, b) && Filled(fs, i, NDIRECT)
    ensures var fs' := AllocAt(fs, i, NDIRECT, b);
            && Shaped(fs') && i < |fs'.inodes| && Addr(fs', i, NDIRECT) != 0
            && (forall bn: nat :: bn < MAXFILE ==> (Addr(fs', i, SlotOf(bn)) != 0 <==> bn < NDIRECT))
  {
    hide Addr, AllocAt;
    var fs' := AllocAt(fs, i, NDIRECT, b);
    AddrUpdate(fs, own, i, NDIRECT, b, 0);
    FreeUnheld(fs, own, b);
    forall bn: nat | bn < MAXFILE ensures Addr(fs', i, SlotOf(bn)) != 0 <==> bn < NDIRECT {
      AddrUpdate(fs, own, i, NDIRECT, b, bn);
    }
  }

  // File contents.

  function NumBlocks(size: nat): (n: nat) { (size + BSIZE - 1) / BSIZE }

  function ByteAt(fs: FS, i: nat, o: nat): (x: int)
    requires Shaped(fs) && i < |fs.inodes|
  {
    if o / BSIZE >= MAXFILE then 0
    else
      var a := Addr(fs, i, SlotOf(o / BSIZE));
      if 0 < a < |fs.blocks| then fs.blocks[a][o % BSIZE] else 0
  }

  function Contents(fs: FS, i: nat): (c: seq<int>)
    requires Shaped(fs) && i < |fs.inodes|
  {
    seq(fs.inodes[i].size, o requires 0 <= o => ByteAt(fs, i, o))
  }

  /** A well-formed image: blocks owned once, and every file without holes. */
  ghost predicate Inv(fs: FS, own: map<int, (nat, nat)>) {
    && Owned(fs, own)
    && (forall i :: 0 <= i < |fs.inodes| ==> Filled(fs, i, NumBlocks(fs.inodes[i].size)))
  }

  lemma ExtendsByte(fs: FS, own: map<int, (nat, nat)>, fs': FS, own': map<int, (nat, nat)>, i: nat, j: nat, o: nat)
    requires Extends(fs, own, fs', own', i) && j < |fs.inodes|
    ensures ByteAt(fs', j, o) == ByteAt(fs, j, o)
  {
    if o / BSIZE < MAXFILE {
      var k := SlotOf(o / BSIZE);
      assert Slot(fs, j, k) && Slot(fs', j, k) && SlotExtends(fs, fs', i, j, k);
      assert Addr(fs, j, k) != 0 ==> Proper(fs, own, j, k);
    }
  }

  lemma ExtendsFilled(fs: FS, own: map<int, (nat, nat)>, fs': FS, own': map<int, (nat, nat)>, i: nat, j: nat, n: nat)
    requires Extends(fs, own, fs', own', i) && j < |fs.inodes| && j != i && Filled(fs, j, n)
    ensures Filled(fs', j, n)
  {
    forall bn: nat | bn < MAXFILE ensures Addr(fs', j, SlotOf(bn)) != 0 <==> bn < n {
      assert Slot(fs, j, SlotOf(bn)) && SlotExtends(fs, fs', i, j, SlotOf(bn));
    }
    assert Slot(fs, j, NDIRECT) && SlotExtends(fs, fs', i, j, NDIRECT);
  }

  // The copy into one block.

  function Overlay(b: Block, off: nat, data: seq<int>): (r: Block)
    requires off + |data| <= BSIZE
    ensures forall x :: 0 <= x < BSIZE ==> r[x] == if off <= x < off + |data| then data[x - off] else b[x]
  {
    b[..off] + data + b[off + |data|..]
  }

  function Put(fs: FS, a: nat, off: nat, data: seq<int>): (fs': FS)
    requires a < |fs.blocks| && off + |data| <= BSIZE
  {
    fs.(blocks := fs.blocks[a := Overlay(fs.blocks[a], off, data)])
  }

  lemma PutAddrs(fs: FS, own: map<int, (nat, nat)>, i: nat, k: nat, off: nat, data: seq<int>, j: nat, l: nat)
    requires Owned(fs, own) && Slot(fs, i, k) && k != NDIRECT && 0 < Addr(fs, i, k) < |fs.blocks|
    requires off + |data| <= BSIZE && Slot(fs, j, l)
    ensures Shaped(Put(fs, Addr(fs, i, k), off, data))
    ensures Addr(Put(fs, Addr(fs, i, k), off, data), j, l) == Addr(fs, j, l)
  {
    assert Slot(fs, j, NDIRECT);
    if Addr(fs, j, NDIRECT) == Addr(fs, i, k) {
      OwnedOnce(fs, own, i, k, j, NDIRECT);
    }
  }

  lemma PutOwned(fs: FS, own: map<int, (nat, nat)>, i: nat, k: nat, off: nat, data: seq<int>)
    requires Owned(fs, own) && Slot(fs, i, k) && k != NDIRECT && 0 < Addr(fs, i, k) < |fs.blocks|
    requires off + |data| <= BSIZE
    ensures Owned(Put(fs, Addr(fs, i, k), off, data), own)
    ensures forall j: nat, n: nat :: j < |fs.inodes| && Filled(fs, j, n) ==>
            Filled(Put(fs, Addr(fs, i, k), off, data), j, n)
  {
    hide Addr;
    var fs' := Put(fs, Addr(fs, i, k), off, data);
    forall j, l | Slot(fs, j, l) ensures Shaped(fs') && Addr(fs', j, l) == Addr(fs, j, l) {
      PutAddrs(fs, own, i, k, off, data, j, l);
    }
    forall j, l | Slot(fs', j, l) && Addr(fs', j, l) != 0 ensures Proper(fs', own, j, l) {
      assert Proper(fs, own, j, l);
    }
    forall j: nat, n: nat | j < |fs.inodes| && Filled(fs, j, n) ensures Filled(fs', j, n) {
      forall bn: nat | bn < MAXFILE ensures Addr(fs', j, SlotOf(bn)) == Addr(fs, j, SlotOf(bn)) {
        assert Slot(fs, j, SlotOf(bn));
      }
      assert Slot(fs, j, NDIRECT);
    }
  }

  /** The copy changes the bytes it covers, in that file only. */
  lemma PutByte(fs: FS, own: map<int, (nat, nat)>, i: nat, bn: nat, off: nat, data: seq<int>, j: nat, o: nat)
    requires Owned(fs, own) && i < |fs.inodes| && bn < MAXFILE && 0 < Addr(fs, i, SlotOf(bn)) < |fs.blocks|
    requires off + |data| <= BSIZE && j < |fs.inodes|
    ensures var fs' := Put(fs, Addr(fs, i, SlotOf(bn)), off, data);
            && Shaped(fs')
            && ByteAt(fs', j, o) == if j == i && bn * BSIZE + off <= o < bn * BSIZE + off + |data|
                                    then data[o - bn * BSIZE - off] else ByteAt(fs, j, o)
  {
    var a := Addr(fs, i, SlotOf(bn));
    var fs' := Put(fs, a, off, data);
    PutAddrs(fs, own, i, SlotOf(bn), off, data, i, SlotOf(bn));
    assert o == o / BSIZE * BSIZE + o % BSIZE;
    if o / BSIZE < MAXFILE {
      var k := SlotOf(o / BSIZE);
      PutAddrs(fs, own, i, SlotOf(bn), off, data, j, k);
      if Addr(fs, j, k) == a {
        OwnedOnce(fs, own, i, SlotOf(bn), j, k);
        assert o / BSIZE == bn;
      }
    }
  }

  // writei, round by round.

  function Max(a: nat, b: nat): (r: nat) { if a < b then b else a }

  /** The state of writei when tot bytes of src have been copied to offset off:
      no other file has changed, and the bytes below the old size or the copied
      end are the old ones with the copied ones over them. */
  ghost predicate Writing(fs0: FS, own0: map<int, (nat, nat)>, fs: FS, own: map<int, (nat, nat)>,
                          i: nat, src: seq<int>, off: nat, tot: nat)
  {
    && Inv(fs0, own0) && Owned(fs, own) && i < |fs0.inodes| == |fs.inodes|
    && off <= fs0.inodes[i].size && tot <= |src| && off + |src| <= MAXFILE * BSIZE
    && (forall j :: 0 <= j < |fs.inodes| ==> fs.inodes[j].size == fs0.inodes[j].size)
    && (forall j :: 0 <= j < |fs.inodes| && j != i ==> Filled(fs, j, NumBlocks(fs0.inodes[j].size)))
    && Filled(fs, i, NumBlocks(Max(fs0.inodes[i].size, off + tot)))
    && (forall j, o :: 0 <= j < |fs.inodes| && 0 <= o && j != i ==> ByteAt(fs, j, o) == ByteAt(fs0, j, o))
    && (forall o :: 0 <= o < Max(fs0.inodes[i].size, off + tot) ==>
          ByteAt(fs, i, o) == if off <= o < off + tot then src[o - off] else ByteAt(fs0, i, o))
  }

  lemma WritingStart(fs: FS, own: map<int, (nat, nat)>, i: nat, src: seq<int>, off: nat)
    requires Inv(fs, own) && i < |fs.inodes| && off <= fs.inodes[i].size && off + |src| <= MAXFILE * BSIZE
    ensures Writing(fs, own, fs, own, i, src, off, 0)
  {
  }

  /** bmap has made the block at off + tot available. */
  ghost predicate Mapped(fs: FS, own: map<int, (nat, nat)>, fs': FS, own': map<int, (nat, nat)>,
                         i: nat, n: nat, bn: nat)
  {
    && Extends(fs, own, fs', own', i) && i < |fs.inodes| && bn < MAXFILE
    && Filled(fs', i, Max(n, bn + 1))
  }

  lemma WritingRound(fs0: FS, own0: map<int, (nat, nat)>, fs: FS, own: map<int, (nat, nat)>,
                     fs1: FS, own1: map<int, (nat, nat)>, i: nat, src: seq<int>, off: nat, tot: nat, m: nat)
    requires Writing(fs0, own0, fs, own, i, src, off, tot)
    requires 0 < m && tot + m <= |src| && (off + tot) % BSIZE + m <= BSIZE
    requires Mapped(fs, own, fs1, own1, i, NumBlocks(Max(fs0.inodes[i].size, off + tot)), (off + tot) / BSIZE)
    ensures var a := Addr(fs1, i, SlotOf((off + tot) / BSIZE));
            && 0 < a < |fs1.blocks|
            && Writing(fs0, own0, Put(fs1, a, (off + tot) % BSIZE, src[tot..tot + m]), own1, i, src, off, tot + m)
  {
    hide Addr, ByteAt, Filled;
    var at := off + tot;
    var bn := at / BSIZE;
    MappedAddr(fs, own, fs1, own1, i, NumBlocks(Max(fs0.inodes[i].size, at)), bn);
    var a := Addr(fs1, i, SlotOf(bn));
    var data := src[tot..tot + m];
    var fs2 := Put(fs1, a, at % BSIZE, data);
    assert Slot(fs1, i, SlotOf(bn));
    PutOwned(fs1, own1, i, SlotOf(bn), at % BSIZE, data);
    forall j | 0 <= j < |fs.inodes| && j != i ensures Filled(fs2, j, NumBlocks(fs0.inodes[j].size)) {
      ExtendsFilled(fs, own, fs1, own1, i, j, NumBlocks(fs0.inodes[j].size));
    }
    BlocksAfter(fs0.inodes[i].size, at, m);
    assert bn * BSIZE + at % BSIZE == at;
    forall j, o | 0 <= j < |fs.inodes| && 0 <= o
      ensures ByteAt(fs2, j, o) == if j == i && at <= o < at + m then data[o - at] else ByteAt(fs, j, o)
    {
      ExtendsByte(fs, own, fs1, own1, i, j, o);
      PutByte(fs1, own1, i, bn, at % BSIZE, data, j, o);
    }
  }

  lemma MappedAddr(fs: FS, own: map<int, (nat, nat)>, fs1: FS, own1: map<int, (nat, nat)>, i: nat, n: nat, bn: nat)
    requires Mapped(fs, own, fs1, own1, i, n, bn)
    ensures 0 < Addr(fs1, i, SlotOf(bn)) < |fs1.blocks|
  {
    assert Slot(fs1, i, SlotOf(bn)) && Proper(fs1, own1, i, SlotOf(bn));
  }

  lemma BlocksAfter(size: nat, at: nat, m: nat)
    requires 0 < m && at % BSIZE + m <= BSIZE
    ensures Max(NumBlocks(Max(size, at)), at / BSIZE + 1) == NumBlocks(Max(size, at + m))
  {
  }

  // The end of writei, and readi.

  function Splice(c: seq<int>, off: nat, src: seq<int>): (r: seq<int>)
    requires off <= |c|
  {
    if off + |src| < |c| then c[..off] + src + c[off + |src|..] else c[..off] + src
  }

  function Resized(fs: FS, i: nat, size: nat): (fs': FS)
    requires i < |fs.inodes|
  {
    fs.(inodes := fs.inodes[i := fs.inodes[i].(size := size)])
  }

  lemma ResizedSame(fs: FS, i: nat, size: nat, j: nat, k: nat)
    requires Shaped(fs) && i < |fs.inodes| && Slot(fs, j, k)
    ensures Shaped(Resized(fs, i, size)) && Addr(Resized(fs, i, size), j, k) == Addr(fs, j, k)
  {
  }

  lemma ResizedByte(fs: FS, i: nat, size: nat, j: nat, o: nat)
    requires Shaped(fs) && i < |fs.inodes| && j < |fs.inodes|
    ensures Shaped(Resized(fs, i, size)) && ByteAt(Resized(fs, i, size), j, o) == ByteAt(fs, j, o)
  {
  }

  lemma ResizedInv(fs: FS, own: map<int, (nat, nat)>, i: nat, size: nat)
    requires Owned(fs, own) && i < |fs.inodes| && Filled(fs, i, NumBlocks(size))
    requires forall j :: 0 <= j < |fs.inodes| && j != i ==> Filled(fs, j, NumBlocks(fs.inodes[j].size))
    ensures Inv(Resized(fs, i, size), own)
  {
    hide Addr;
    var fs' := Resized(fs, i, size);
    forall j, k | Slot(fs, j, k) ensures Shaped(fs') && Addr(fs', j, k) == Addr(fs, j, k) {
      ResizedSame(fs, i, size, j, k);
    }
    forall j, k | Slot(fs', j, k) && Addr(fs', j, k) != 0 ensures Proper(fs', own, j, k) {
      assert Proper(fs, own, j, k);
    }
    forall j | 0 <= j < |fs'.inodes| ensures Filled(fs', j, NumBlocks(fs'.inodes[j].size)) {
      forall bn: nat | bn < MAXFILE ensures Addr(fs', j, SlotOf(bn)) == Addr(fs, j, SlotOf(bn)) {
        assert Slot(fs, j, SlotOf(bn));
      }
      assert Slot(fs, j, NDIRECT);
    }
  }

  /** When all of src is copied and the size is set, the file is the splice and
      every other file is as before. */
  lemma WritingDone(fs0: FS, own0: map<int, (nat, nat)>, fs: FS, own: map<int, (nat, nat)>,
                    i: nat, src: seq<int>, off: nat)
    requires Writing(fs0, own0, fs, own, i, src, off, |src|)
    ensures var fs' := Resized(fs, i, Max(fs0.inodes[i].size, off + |src|));
            && Inv(fs', own) && |fs'.inodes| == |fs0.inodes|
            && Contents(fs', i) == Splice(Contents(fs0, i), off, src)
            && (forall j :: 0 <= j < |fs0.inodes| && j != i ==> Contents(fs', j) == Contents(fs0, j))
  {
    hide Addr, ByteAt, Filled;
    var size := Max(fs0.inodes[i].size, off + |src|);
    var fs' := Resized(fs, i, size);
    ResizedInv(fs, own, i, size);
    forall j, o | 0 <= j < |fs.inodes| && 0 <= o ensures ByteAt(fs', j, o) == ByteAt(fs, j, o) {
      ResizedByte(fs, i, size, j, o);
    }
    assert Contents(fs', i) == Splice(Contents(fs0, i), off, src);
  }

  class FileSystem {
    var fs: FS
    ghost var own: map<int, (nat, nat)>

    const BPB := BSIZE * 8

    /** A well-formed image, as mkfs leaves it or earlier calls did. */
    constructor (image: FS, ghost o: map<int, (nat, nat)>)
      requires Inv(image, o)
      ensures fs == image && own == o
    {
      fs, own := image, o;
    }

    /** balloc's scan of the bitmap, block of bits by block of bits. None is
        the panic "balloc: out of blocks". */
    method Balloc() returns (r: Option<nat>)
      requires Shaped(fs)
      modifies `fs
      ensures r.None? ==> fs == old(fs) && forall b :: 0 <= b < |fs.bits| ==> fs.bits[b]
      ensures r.Some? ==>
        && r.value < |old(fs).bits| && !old(fs).bits[r.value] && fs == Take(old(fs), r.value)
        && (forall b :: 0 <= b < r.value ==> old(fs).bits[b])
    {
      var b := 0;
      while b < |fs.bits|
        invariant 0 <= b && fs == old(fs)
        invariant forall c :: 0 <= c < b && c < |fs.bits| ==> fs.bits[c]
      {
        var bi := 0;
        while bi < BPB && b + bi < |fs.bits|
          invariant 0 <= bi <= BPB && fs == old(fs)
          invariant forall c :: 0 <= c < b + bi && c < |fs.bits| ==> fs.bits[c]
        {
          if !fs.bits[b + bi] {
            fs := Take(fs, b + bi);
            return Some(b + bi);
          }
          bi := bi + 1;
        }
        b := b + BPB;
      }
      return None;
    }

    /** bfree. False is the panic "freeing free block". */
    method Bfree(b: nat) returns (ok: bool)
      requires b < |fs.bits|
      modifies `fs
      ensures ok == old(fs).bits[b] && fs == old(fs).(bits := old(fs).bits[b := false])
    {
      ok := fs.bits[b];
      fs := fs.(bits := fs.bits[b := false]);
    }

    /** bmap's idiom: if the slot is empty, fill it from balloc. */
    method FillSlot(i: nat, k: nat) returns (r: Option<nat>)
      requires Owned(fs, own) && Slot(fs, i, k) && (k > NDIRECT ==> Addr(fs, i, NDIRECT) != 0)
      modifies `fs, `own
      ensures r.None? ==> fs == old(fs) && own == old(own) && forall b :: 0 <= b < |fs.bits| ==> fs.bits[b]
      ensures Addr(old(fs), i, k) != 0 ==> r.Some?
      ensures r.Some? ==> Slot(fs, i, k) && Shaped(fs) && Addr(fs, i, k) == r.value
      ensures r.Some? && Addr(old(fs), i, k) != 0 ==> fs == old(fs) && own == old(own)
      ensures r.Some? && Addr(old(fs), i, k) == 0 ==>
        && MayAlloc(old(fs), old(own), i, k, r.value)
        && fs == AllocAt(old(fs), i, k, r.value) && own == old(own)[r.value := (i, k)]
    {
      var a := Addr(fs, i, k);
      if a != 0 {
        assert Proper(fs, own, i, k);
        return Some(a);
      }
      r := Balloc();
      if r.Some? {
        ghost var fs0 := old(fs);
        AllocAddr(fs0, own, i, k, r.value, i, k);
        TakeAddr(fs0, own, r.value, i, NDIRECT);
        TakeOwned(fs0, own, r.value);
        fs := Enter(fs, i, k, r.value);
        own := own[r.value := (i, k)];
      }
    }

    /** bmap on a file without holes, for one of its blocks or the next one.
        None is the panic of balloc. */
    method Bmap(i: nat, bn: nat, ghost n: nat) returns (r: Option<nat>)
      requires Owned(fs, own) && i < |fs.inodes| && Filled(fs, i, n) && bn <= n && bn < MAXFILE
      modifies `fs, `own
      ensures r.None? ==> forall b :: 0 <= b < |fs.bits| ==> fs.bits[b]
      ensures r.Some? ==> Mapped(old(fs), old(own), fs, own, i, n, bn) && r.value == Addr(fs, i, SlotOf(bn))
      ensures bn < n ==> r.Some? && fs == old(fs) && own == old(own)
    {
      hide Addr, AllocAt;
      ghost var fs0, own0 := fs, own;
      ExtendsSelf(fs, own, i);
      assert Addr(fs, i, SlotOf(bn)) != 0 <==> bn < n;
      if bn < NDIRECT {
        r := FillSlot(i, bn);
        if r.Some? && bn == n {
          FilledNext(fs0, own0, i, n, r.value);
          AllocExtends(fs0, own0, i, bn, r.value);
        }
        return;
      }
      r := FillSlot(i, NDIRECT);
      if r.None? {
        return;
      }
      ghost var fs1, own1 := fs, own;
      if n == NDIRECT {
        FilledIndirect(fs0, own0, i, r.value);
        AllocExtends(fs0, own0, i, NDIRECT, r.value);
      }
      r := FillSlot(i, bn + 1);
      if r.Some? && bn == n {
        FilledNext(fs1, own1, i, n, r.value);
        AllocExtends(fs1, own1, i, bn + 1, r.value);
        ExtendsTwice(fs0, own0, fs1, own1, fs, own, i);
      }
    }

    /** writei on an ordinary file. -1 is its error return; None is the panic
        of balloc, which leaves no free block. */
    method Writei(i: nat, src: seq<int>, off: nat) returns (r: Option<int>)
      requires Inv(fs, own) && i < |fs.inodes|
      modifies this
      ensures r.None? ==> forall b :: 0 <= b < |fs.bits| ==> fs.bits[b]
      ensures r.Some? ==> Inv(fs, own) && |fs.inodes| == |old(fs).inodes|
      ensures r == Some(-1) <==>
        off > old(fs).inodes[i].size || off + |src| >= 0x1_0000_0000 || off + |src| > MAXFILE * BSIZE
      ensures r == Some(-1) ==> fs == old(fs)
      ensures r.Some? && r.value != -1 ==>
        && r.value == |src|
        && Contents(fs, i) == Splice(Contents(old(fs), i), off, src)
        && (forall j :: 0 <= j < |fs.inodes| && j != i ==> Contents(fs, j) == Contents(old(fs), j))
    {
      hide Addr, Writing, Contents, Inv;
      if off > fs.inodes[i].size || off + |src| >= 0x1_0000_0000 {
        return Some(-1);
      }
      if off + |src| > MAXFILE * BSIZE {
        return Some(-1);
      }
      ghost var fs0, own0 := fs, own;
      WritingStart(fs, own, i, src, off);
      var tot := 0;
      while tot < |src|
        invariant 0 <= tot <= |src| && Writing(fs0, own0, fs, own, i, src, off, tot)
      {
        var m := if |src| - tot < BSIZE - (off + tot) % BSIZE then |src| - tot else BSIZE - (off + tot) % BSIZE;
        var ok := WriteRound(i, src, off, tot, m, fs0, own0);
        if !ok {
          return None;
        }
        tot := tot + m;
      }
      WritingDone(fs0, own0, fs, own, i, src, off);
      WritingSize(fs0, own0, fs, own, i, src, off);
      if |src| > 0 && off + |src| > fs.inodes[i].size {
        fs := Resized(fs, i, off + |src|);
      }
      return Some(|src|);
    }

    /** One turn of writei's loop: bread of the mapped block, copy, log_write. */
    method WriteRound(i: nat, src: seq<int>, off: nat, tot: nat, m: nat,
                      ghost fs0: FS, ghost own0: map<int, (nat, nat)>) returns (ok: bool)
      requires Writing(fs0, own0, fs, own, i, src, off, tot)
      requires 0 < m && tot + m <= |src| && (off + tot) % BSIZE + m <= BSIZE
      modifies this
      ensures ok ==> Writing(fs0, own0, fs, own, i, src, off, tot + m)
      ensures !ok ==> forall b :: 0 <= b < |fs.bits| ==> fs.bits[b]
    {
      hide Addr, ByteAt, Filled;
      NextBlock(fs0.inodes[i].size, off, tot, |src|);
      ghost var fs1, own1 := fs, own;
      var a := Bmap(i, (off + tot) / BSIZE, NumBlocks(Max(fs0.inodes[i].size, off + tot)));
      if a.None? {
        return false;
      }
      WritingRound(fs0, own0, fs1, own1, fs, own, i, src, off, tot, m);
      fs := Put(fs, a.value, (off + tot) % BSIZE, src[tot..tot + m]);
      return true;
    }

    /** readi on an ordinary file. None is its error return -1; a read never
        allocates, since the file has no holes. */
    method Readi(i: nat, off: nat, n: nat) returns (r: Option<seq<int>>)
      requires Inv(fs, own) && i < |fs.inodes|
      modifies this
      ensures fs == old(fs) && own == old(own)
      ensures r.None? <==> off > fs.inodes[i].size || off + n >= 0x1_0000_0000
      ensures r.Some? ==>
        var size := fs.inodes[i].size;
        r.value == Contents(fs, i)[off..if off + n < size then off + n else size]
    {
      hide Addr, Filled;
      var size := fs.inodes[i].size;
      if off > size || off + n >= 0x1_0000_0000 {
        return None;
      }
      var len := if off + n > size then size - off else n;
      var dst: seq<int> := [];
      ghost var all := Contents(fs, i);
      while |dst| < len
        invariant fs == old(fs) && own == old(own) && |dst| <= len && dst == all[off..off + |dst|]
        decreases len - |dst|
      {
        var at := off + |dst|;
        var m := if len - |dst| < BSIZE - at % BSIZE then len - |dst| else BSIZE - at % BSIZE;
        Within(fs, own, i, at);
        var a := Bmap(i, at / BSIZE, NumBlocks(size));
        BlockSlice(fs, own, i, at, m);
        dst := dst + fs.blocks[a.value][at % BSIZE..at % BSIZE + m];
      }
      return Some(dst);
    }

    /** itrunc: free the direct blocks, the blocks the indirect block lists, and
        the indirect block. bfree never meets its panic. */
    method Itrunc(i: nat)
      requires Inv(fs, own) && i < |fs.inodes|
      modifies `fs
      ensures Inv(fs, own) && |fs.inodes| == |old(fs).inodes|
      ensures Contents(fs, i) == []
      ensures forall j :: 0 <= j < |fs.inodes| && j != i ==> Contents(fs, j) == Contents(old(fs), j)
      ensures Cleared(old(fs), own, fs.bits, i, Done(NDIRECT, true, NINDIRECT))
    {
      hide Addr, Filled, Contents, Cleared;
      ghost var fs0 := fs;
      ClearedNone(fs0, own, i);
      var k := 0;
      while k < NDIRECT
        invariant 0 <= k <= NDIRECT && Truncating(fs0, fs, i, k)
        invariant Cleared(fs0, own, fs.bits, i, Done(k, false, 0))
      {
        DirectSlot(fs0, fs, i, k);
        var b := fs.inodes[i].addrs[k];
        FreeSlot(i, k, b, Done(k, false, 0), Done(k + 1, false, 0), fs0);
        fs := fs.(inodes := fs.inodes[i := fs.inodes[i].(addrs := fs.inodes[i].addrs[k := 0])]);
        k := k + 1;
      }
      DirectSlot(fs0, fs, i, NDIRECT);
      var ib := fs.inodes[i].addrs[NDIRECT];
      var j := 0;
      while j < NINDIRECT && ib != 0
        invariant 0 <= j <= NINDIRECT && (ib == 0 ==> j == 0) && Truncating(fs0, fs, i, NDIRECT)
        invariant ib == Addr(fs0, i, NDIRECT) && Cleared(fs0, own, fs.bits, i, Done(NDIRECT, false, j))
      {
        ListedSlot(fs0, own, fs, i, j);
        FreeSlot(i, NDIRECT + 1 + j, GetAddr(fs.blocks[ib], j),
                 Done(NDIRECT, false, j), Done(NDIRECT, false, j + 1), fs0);
        j := j + 1;
      }
      if ib == 0 {
        NothingListed(fs0, own, fs.bits, i);
      }
      FreeSlot(i, NDIRECT, ib, Done(NDIRECT, false, NINDIRECT), Done(NDIRECT, true, NINDIRECT), fs0);
      fs := fs.(inodes := fs.inodes[i := Inode(0, fs.inodes[i].addrs[NDIRECT := 0])]);
      Truncated(fs0, own, fs, i);
    }

    /** if (a) bfree(a), for the next slot. */
    method FreeSlot(i: nat, k: nat, b: nat, ghost d: Done, ghost d': Done, ghost fs0: FS)
      requires Inv(fs0, own) && Slot(fs0, i, k) && b == Addr(fs0, i, k) && |fs.bits| == |fs0.bits|
      requires Cleared(fs0, own, fs.bits, i, d) && !d.Has(k) && (forall l :: d'.Has(l) <==> d.Has(l) || l == k)
      modifies `fs
      ensures fs == old(fs).(bits := fs.bits) && |fs.bits| == |fs0.bits|
      ensures Cleared(fs0, own, fs.bits, i, d')
    {
      hide Filled;
      if b != 0 {
        ClearedOne(fs0, own, fs.bits, i, k, d, d');
        var ok := Bfree(b);
        assert ok;
      } else {
        ClearedSame(fs0, own, fs.bits, i, k, d, d');
      }
    }
  }

  /** The slots itrunc has been through: the first direct ones, the indirect
      block or not, and the first listed ones. */
  datatype Done = Done(direct: nat, indirect: bool, listed: nat) {
    predicate Has(l: nat) {
      l < direct || (l == NDIRECT && indirect) || NDIRECT < l <= NDIRECT + listed
    }
  }

  /** Block b is in one of file i's slots that are done. */
  ghost predicate HeldIn(fs: FS, own: map<int, (nat, nat)>, i: nat, d: Done, b: nat)
    requires Shaped(fs) && i < |fs.inodes|
  {
    && b in own && own[b].0 == i && own[b].1 <= MAXFILE && d.Has(own[b].1)
    && Addr(fs, i, own[b].1) == b && b != 0
  }

  /** Exactly the blocks of the slots done have been unmarked. */
  ghost predicate Cleared(fs: FS, own: map<int, (nat, nat)>, bits: seq<bool>, i: nat, d: Done) {
    && Shaped(fs) && i < |fs.inodes| && |bits| == |fs.bits|
    && (forall b :: 0 <= b < |bits| ==> (bits[b] <==> fs.bits[b] && !HeldIn(fs, own, i, d, b)))
  }

  lemma ClearedNone(fs: FS, own: map<int, (nat, nat)>, i: nat)
    requires Inv(fs, own) && i < |fs.inodes|
    ensures Cleared(fs, own, fs.bits, i, Done(0, false, 0)) && Truncating(fs, fs, i, 0)
  {
  }

  /** The block of a slot not done is still marked, so bfree accepts it. */
  lemma ClearedOne(fs: FS, own: map<int, (nat, nat)>, bits: seq<bool>, i: nat, k: nat, d: Done, d': Done)
    requires Inv(fs, own) && Slot(fs, i, k) && Addr(fs, i, k) != 0 && Cleared(fs, own, bits, i, d)
    requires !d.Has(k) && (forall l :: d'.Has(l) <==> d.Has(l) || l == k)
    ensures 0 < Addr(fs, i, k) < |bits| && bits[Addr(fs, i, k)]
    ensures Cleared(fs, own, bits[Addr(fs, i, k) := false], i, d')
  {
    var a := Addr(fs, i, k);
    assert Proper(fs, own, i, k);
    forall b | 0 <= b < |bits| ensures HeldIn(fs, own, i, d', b) <==> HeldIn(fs, own, i, d, b) || b == a {
    }
  }

  lemma ClearedSame(fs: FS, own: map<int, (nat, nat)>, bits: seq<bool>, i: nat, k: nat, d: Done, d': Done)
    requires Inv(fs, own) && Slot(fs, i, k) && Addr(fs, i, k) == 0 && Cleared(fs, own, bits, i, d)
    requires forall l :: d'.Has(l) <==> d.Has(l) || l == k
    ensures Cleared(fs, own, bits, i, d')
  {
    forall b | 0 <= b < |bits| ensures HeldIn(fs, own, i, d', b) <==> HeldIn(fs, own, i, d, b) {
    }
  }

  /** Without an indirect block there is nothing listed. */
  lemma NothingListed(fs: FS, own: map<int, (nat, nat)>, bits: seq<bool>, i: nat)
    requires Inv(fs, own) && i < |fs.inodes| && Addr(fs, i, NDIRECT) == 0
    requires Cleared(fs, own, bits, i, Done(NDIRECT, false, 0))
    ensures Cleared(fs, own, bits, i, Done(NDIRECT, false, NINDIRECT))
  {
    forall b | 0 <= b < |bits|
      ensures HeldIn(fs, own, i, Done(NDIRECT, false, NINDIRECT), b) <==> HeldIn(fs, own, i, Done(NDIRECT, false, 0), b)
    {
    }
  }

  /** Apart from the bitmap, itrunc has zeroed the first k addresses. */
  ghost predicate Truncating(fs0: FS, fs: FS, i: nat, k: nat) {
    && Shaped(fs0) && i < |fs0.inodes| && k <= NDIRECT
    && fs.blocks == fs0.blocks && fs.nmeta == fs0.nmeta && |fs.bits| == |fs0.bits|
    && |fs.inodes| == |fs0.inodes| && |fs.inodes[i].addrs| == NDIRECT + 1
    && (forall j :: 0 <= j < |fs.inodes| && j != i ==> fs.inodes[j] == fs0.inodes[j])
    && (forall l :: 0 <= l < k ==> fs.inodes[i].addrs[l] == 0)
    && (forall l :: k <= l <= NDIRECT ==> fs.inodes[i].addrs[l] == fs0.inodes[i].addrs[l])
  }

  lemma DirectSlot(fs0: FS, fs: FS, i: nat, k: nat)
    requires Truncating(fs0, fs, i, k)
    ensures Slot(fs0, i, k) && fs.inodes[i].addrs[k] == Addr(fs0, i, k)
  {
  }

  lemma ListedSlot(fs0: FS, own: map<int, (nat, nat)>, fs: FS, i: nat, j: nat)
    requires Inv(fs0, own) && Truncating(fs0, fs, i, NDIRECT) && j < NINDIRECT && Addr(fs0, i, NDIRECT) != 0
    ensures 0 < Addr(fs0, i, NDIRECT) < |fs.blocks| && Slot(fs0, i, NDIRECT + 1 + j)
    ensures GetAddr(fs.blocks[Addr(fs0, i, NDIRECT)], j) == Addr(fs0, i, NDIRECT + 1 + j) >= 0
  {
    assert Slot(fs0, i, NDIRECT) && Proper(fs0, own, i, NDIRECT);
    assert Addr(fs0, i, NDIRECT + 1 + j) != 0 ==> Proper(fs0, own, i, NDIRECT + 1 + j);
  }

  lemma Truncated(fs0: FS, own: map<int, (nat, nat)>, fs: FS, i: nat)
    requires Inv(fs0, own) && Truncating(fs0, fs.(inodes := fs0.inodes), i, 0) && i < |fs.inodes| == |fs0.inodes|
    requires fs.inodes[i].size == 0 && |fs.inodes[i].addrs| == NDIRECT + 1
    requires forall l :: 0 <= l <= NDIRECT ==> fs.inodes[i].addrs[l] == 0
    requires forall j :: 0 <= j < |fs.inodes| && j != i ==> fs.inodes[j] == fs0.inodes[j]
    requires Cleared(fs0, own, fs.bits, i, Done(NDIRECT, true, NINDIRECT))
    ensures Inv(fs, own) && Contents(fs, i) == []
    ensures forall j :: 0 <= j < |fs.inodes| && j != i ==> Contents(fs, j) == Contents(fs0, j)
  {
    forall j, l | Slot(fs, j, l) && j != i ensures Addr(fs, j, l) == Addr(fs0, j, l) {
    }
    forall j, l | Slot(fs, j, l) && Addr(fs, j, l) != 0 ensures Proper(fs, own, j, l) {
      assert Proper(fs0, own, j, l);
    }
    forall b | 0 <= b < fs.nmeta ensures fs.bits[b] {
      NotHeldMeta(fs0, own, i, b);
    }
    forall j | 0 <= j < |fs.inodes| ensures Filled(fs, j, NumBlocks(fs.inodes[j].size)) {
      if j != i {
        assert Filled(fs0, j, NumBlocks(fs0.inodes[j].size));
        forall bn: nat | bn < MAXFILE ensures Addr(fs, j, SlotOf(bn)) == Addr(fs0, j, SlotOf(bn)) {
          assert Slot(fs, j, SlotOf(bn));
        }
        assert Slot(fs, j, NDIRECT);
      }
    }
    forall j | 0 <= j < |fs.inodes| && j != i ensures Contents(fs, j) == Contents(fs0, j) {
    }
  }

  lemma NotHeldMeta(fs: FS, own: map<int, (nat, nat)>, i: nat, b: nat)
    requires Inv(fs, own) && i < |fs.inodes| && b < fs.nmeta
    ensures !HeldIn(fs, own, i, Done(NDIRECT, true, NINDIRECT), b)
  {
    if b in own && own[b].0 == i && own[b].1 <= MAXFILE && Addr(fs, i, own[b].1) == b && b != 0 {
      assert Slot(fs, i, own[b].1) && Proper(fs, own, i, own[b].1);
      assert false;
    }
  }

  lemma Within(fs: FS, own: map<int, (nat, nat)>, i: nat, at: nat)
    requires Inv(fs, own) && i < |fs.inodes| && at < fs.inodes[i].size
    ensures at / BSIZE < NumBlocks(fs.inodes[i].size) <= MAXFILE
  {
  }

  /** A stretch of a file inside one block is a stretch of that block. */
  lemma BlockSlice(fs: FS, own: map<int, (nat, nat)>, i: nat, at: nat, m: nat)
    requires Inv(fs, own) && i < |fs.inodes| && at % BSIZE + m <= BSIZE && at + m <= fs.inodes[i].size && m > 0
    ensures at / BSIZE < MAXFILE
    ensures var a := Addr(fs, i, SlotOf(at / BSIZE));
            0 < a < |fs.blocks| && fs.blocks[a][at % BSIZE..at % BSIZE + m] == Contents(fs, i)[at..at + m]
  {
    Within(fs, own, i, at);
    var k := SlotOf(at / BSIZE);
    assert Slot(fs, i, k) && Proper(fs, own, i, k);
    var a, c := Addr(fs, i, k), Contents(fs, i)[at..at + m];
    forall x | 0 <= x < m ensures fs.blocks[a][at % BSIZE..at % BSIZE + m][x] == c[x] {
      assert (at + x) / BSIZE == at / BSIZE && (at + x) % BSIZE == at % BSIZE + x;
    }
  }


  lemma NextBlock(size: nat, off: nat, tot: nat, n: nat)
    requires off <= size && tot < n && off + n <= MAXFILE * BSIZE
    ensures (off + tot) / BSIZE <= NumBlocks(Max(size, off + tot)) && (off + tot) / BSIZE < MAXFILE
  {
  }

  lemma WritingSize(fs0: FS, own0: map<int, (nat, nat)>, fs: FS, own: map<int, (nat, nat)>,
                    i: nat, src: seq<int>, off: nat)
    requires Writing(fs0, own0, fs, own, i, src, off, |src|)
    ensures i < |fs.inodes| && fs.inodes[i].size == fs0.inodes[i].size && off <= fs.inodes[i].size
    ensures Resized(fs, i, fs.inodes[i].size) == fs
  {
    assert fs.inodes[i := fs.inodes[i].(size := fs.inodes[i].size)] == fs.inodes;
  }
}
