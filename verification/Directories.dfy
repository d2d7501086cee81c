/** Directory contents and path names (fs.c, sysfile.c): directories as tables of
    entries searched and reused slot by slot, and paths taken apart by skipelem. */
module Directories {
  import opened Wrappers

  const DIRSIZ := 14

  /** struct dirent. An inum of 0 marks a free slot. */
  datatype Dirent = Dirent(inum: nat, name: string)

  /** Names as namecmp sees them: at most DIRSIZ characters count. */
  function Cut(name: string): (r: string) {
    if |name| <= DIRSIZ then name else name[..DIRSIZ]
  }

  /** namecmp: two names are the same if they are, or if their first 14 characters
      are. */
  lemma SameName(m: string, n: string)
    ensures Cut(m) == Cut(n) <==> m == n || (|m| >= 14 && |n| >= 14 && m[..14] == n[..14])
  {
    if |m| >= 14 {
      assert m[..14] == Cut(m);
    }
    if |n| >= 14 {
      assert n[..14] == Cut(n);
    }
  }

  predicate Names(de: Dirent, name: string) { de.inum != 0 && Cut(de.name) == Cut(name) }

  /** No two used slots carry the same name. */
  predicate Unambiguous(d: seq<Dirent>) {
    forall i, j :: 0 <= i < j < |d| && d[i].inum != 0 && d[j].inum != 0 ==> Cut(d[i].name) != Cut(d[j].name)
  }

  /** What a (shortened) name stands for in the directory. */
  function Bound(d: seq<Dirent>, n: string): (r: Option<nat>)
    decreases |d|
  {
    if d == [] then None
    else if d[|d| - 1].inum != 0 && Cut(d[|d| - 1].name) == n then Some(d[|d| - 1].inum)
    else Bound(d[..|d| - 1], n)
  }

  lemma {:induction false} BoundAt(d: seq<Dirent>, n: string, i: nat)
    requires Unambiguous(d) && i < |d| && d[i].inum != 0 && Cut(d[i].name) == n
    ensures Bound(d, n) == Some(d[i].inum)
    decreases |d|
  {
    if i < |d| - 1 {
      assert Cut(d[|d| - 1].name) != n || d[|d| - 1].inum == 0;
      BoundAt(d[..|d| - 1], n, i);
    }
  }

  lemma {:induction false} BoundNowhere(d: seq<Dirent>, n: string)
    requires forall i :: 0 <= i < |d| ==> d[i].inum == 0 || Cut(d[i].name) != n
    ensures Bound(d, n) == None
    decreases |d|
  {
    if d != [] {
      BoundNowhere(d[..|d| - 1], n);
    }
  }

  /** Names stand for the same in two directories whose used slots agree on them. */
  lemma SameBound(d: seq<Dirent>, e: seq<Dirent>, n: string)
    requires Unambiguous(d) && Unambiguous(e)
    requires forall i :: 0 <= i < |d| && d[i].inum != 0 && Cut(d[i].name) == n ==> i < |e| && e[i] == d[i]
    requires forall i :: 0 <= i < |e| && e[i].inum != 0 && Cut(e[i].name) == n ==> i < |d| && e[i] == d[i]
    ensures Bound(d, n) == Bound(e, n)
  {
    if i :| 0 <= i < |d| && d[i].inum != 0 && Cut(d[i].name) == n {
      BoundAt(d, n, i);
      BoundAt(e, n, i);
    } else {
      BoundNowhere(d, n);
      BoundNowhere(e, n);
    }
  }

  /** dirlookup: the slot that holds the name, if one does. */
  method Dirlookup(d: seq<Dirent>, name: string) returns (r: Option<nat>)
    requires Unambiguous(d)
    ensures r.None? <==> Bound(d, Cut(name)).None?
    ensures r.Some? ==> r.value < |d| && Names(d[r.value], name) && Bound(d, Cut(name)) == Some(d[r.value].inum)
  {
    var off := 0;
    while off < |d|
      invariant 0 <= off <= |d| && forall i :: 0 <= i < off ==> !Names(d[i], name)
    {
      if d[off].inum != 0 && Cut(name) == Cut(d[off].name) {
        BoundAt(d, Cut(name), off);
        return Some(off);
      }
      off := off + 1;
    }
    BoundNowhere(d, Cut(name));
    return None;
  }

  /** e is d with n bound to v and every other name as it was. */
  ghost predicate Rebound(d: seq<Dirent>, e: seq<Dirent>, n: string, v: Option<nat>) {
    && Unambiguous(e)
    && Bound(e, n) == v
    && forall m :: m != n ==> Bound(e, m) == Bound(d, m)
  }

  /** dirlink: refuse a name that is there; otherwise take the first free slot,
      or a new one at the end. */
  method Dirlink(d: seq<Dirent>, name: string, inum: nat) returns (r: Option<seq<Dirent>>)
    requires Unambiguous(d) && inum != 0
    ensures r.None? <==> Bound(d, Cut(name)).Some?
    ensures r.Some? ==> Rebound(d, r.value, Cut(name), Some(inum))
    ensures r.Some? ==> |d| <= |r.value| <= |d| + 1
    ensures r.Some? && |r.value| > |d| ==> forall i :: 0 <= i < |d| ==> d[i].inum != 0
    ensures r.Some? ==> exists off: nat :: InFirstFree(d, r.value, off, Dirent(inum, Cut(name)))
  {
    var found := Dirlookup(d, name);
    if found.Some? {
      return None;
    }
    var off := 0;
    while off < |d| && d[off].inum != 0
      invariant 0 <= off <= |d| && forall i :: 0 <= i < off ==> d[i].inum != 0
    {
      off := off + 1;
    }
    Linked(d, off, name, inum);
    assert InFirstFree(d, Place(d, off, Dirent(inum, Cut(name))), off, Dirent(inum, Cut(name)));
    return Some(Place(d, off, Dirent(inum, Cut(name))));
  }

  /** The entry is in slot off, the first that was free, and the others are as they
      were. */
  ghost predicate InFirstFree(d: seq<Dirent>, e: seq<Dirent>, off: nat, de: Dirent) {
    && off < |e| && off <= |d| <= |e| && e[off] == de && (off < |d| ==> d[off].inum == 0)
    && (forall i :: 0 <= i < off ==> d[i].inum != 0)
    && (forall i :: 0 <= i < |d| && i != off ==> e[i] == d[i])
  }

  function Place(d: seq<Dirent>, off: nat, de: Dirent): (r: seq<Dirent>)
    requires off <= |d|
  {
    if off < |d| then d[off := de] else d + [de]
  }

  lemma Linked(d: seq<Dirent>, off: nat, name: string, inum: nat)
    requires Unambiguous(d) && off <= |d| && (off < |d| ==> d[off].inum == 0) && inum != 0
    requires Bound(d, Cut(name)).None?
    ensures Rebound(d, Place(d, off, Dirent(inum, Cut(name))), Cut(name), Some(inum))
  {
    var n := Cut(name);
    var e := Place(d, off, Dirent(inum, n));
    forall i | 0 <= i < |d| && d[i].inum != 0 ensures Cut(d[i].name) != n {
      if Cut(d[i].name) == n {
        BoundAt(d, n, i);
      }
    }
    assert forall i :: 0 <= i < |e| && i != off ==> e[i] == d[i];
    assert Unambiguous(e);
    BoundAt(e, n, off);
    forall m | m != n ensures Bound(e, m) == Bound(d, m) {
      SameBound(e, d, m);
    }
  }

  /** sys_unlink's writei of a zeroed entry over the slot dirlookup found. */
  lemma Unlinked(d: seq<Dirent>, off: nat)
    requires Unambiguous(d) && off < |d| && d[off].inum != 0
    ensures Rebound(d, Place(d, off, Dirent(0, "")), Cut(d[off].name), None)
  {
    var n := Cut(d[off].name);
    var e := Place(d, off, Dirent(0, ""));
    BoundNowhere(e, n);
    forall m | m != n ensures Bound(e, m) == Bound(d, m) {
      SameBound(e, d, m);
    }
  }

  ghost predicate DotsFirst(d: seq<Dirent>) {
    |d| >= 2 && d[0].inum != 0 && d[0].name == "." && d[1].inum != 0 && d[1].name == ".."
  }

  /** isdirempty looks from the third entry on. With "." and ".." in the first
      two slots that is: no other name stands for anything. */
  method Isdirempty(d: seq<Dirent>) returns (empty: bool)
    ensures empty <==> forall i :: 2 <= i < |d| ==> d[i].inum == 0
    ensures Unambiguous(d) && DotsFirst(d) ==> (empty <==> forall n :: n != "." && n != ".." ==> Bound(d, n).None?)
  {
    var off := 2;
    while off < |d|
      invariant 2 <= off && forall i :: 2 <= i < off && i < |d| ==> d[i].inum == 0
    {
      if d[off].inum != 0 {
        if Unambiguous(d) {
          BoundAt(d, Cut(d[off].name), off);
        }
        return false;
      }
      off := off + 1;
    }
    forall n | n != "." && n != ".." && DotsFirst(d) ensures Bound(d, n).None? {
      BoundNowhere(d, n);
    }
    return true;
  }

  // Path names

  /** The pieces of a path between its slashes. */
  function Split(path: string): (r: seq<string>)
    ensures |r| >= 1
  {
    if path == [] then [""]
    else
      var r := Split(path[1..]);
      if path[0] == '/' then [""] + r else [[path[0]] + r[0]] + r[1..]
  }

  function NonEmpty(pieces: seq<string>): (r: seq<string>) {
    if pieces == [] then []
    else (if pieces[0] == "" then [] else [pieces[0]]) + NonEmpty(pieces[1..])
  }

  /** The elements of a path: its pieces that are not empty. */
  function Elements(path: string): (r: seq<string>) { NonEmpty(Split(path)) }

  lemma SlashSkipped(path: string)
    requires path != [] && path[0] == '/'
    ensures Elements(path) == Elements(path[1..])
  {
    assert Split(path)[1..] == Split(path[1..]);
  }

  lemma {:induction false} FirstElement(path: string, n: nat)
    requires 0 < n <= |path| && (forall k :: 0 <= k < n ==> path[k] != '/') && (n < |path| ==> path[n] == '/')
    ensures Elements(path) == [path[..n]] + Elements(path[n..])
  {
    FirstPiece(path, n);
    var rest := Split(path[n..]);
    assert Split(path)[0] == path[..n] && Split(path)[1..] == rest[1..];
    assert rest[0] == "";
    assert Elements(path) == [path[..n]] + NonEmpty(rest[1..]);
  }

  lemma {:induction false} FirstPiece(path: string, n: nat)
    requires n <= |path| && (forall k :: 0 <= k < n ==> path[k] != '/') && (n < |path| ==> path[n] == '/')
    ensures Split(path) == [path[..n]] + Split(path[n..])[1..]
    decreases n
  {
    if n == 0 {
      assert path[0..] == path;
    } else {
      FirstPiece(path[1..], n - 1);
      assert path[1..][n - 1..] == path[n..];
      assert [path[0]] + path[1..][..n - 1] == path[..n];
    }
  }

  lemma {:induction false} NonEmptySplit(a: seq<string>, b: seq<string>)
    ensures NonEmpty(a + b) == NonEmpty(a) + NonEmpty(b)
    decreases |a|
  {
    if a == [] {
      assert a + b == b;
    } else {
      assert (a + b)[1..] == a[1..] + b;
      NonEmptySplit(a[1..], b);
    }
  }

  lemma {:induction false} SplitAt(a: string, b: string)
    ensures Split(a + "/" + b) == Split(a) + Split(b)
    decreases |a|
  {
    if a == "" {
      assert a + "/" + b == "/" + b && ("/" + b)[1..] == b;
    } else {
      assert (a + "/" + b)[1..] == a[1..] + "/" + b;
      SplitAt(a[1..], b);
    }
  }

  /** What the elements of a path are: those of its parts, at any slash, and a part
      without a slash is one, unless it is empty. */
  lemma ElementsAre(a: string, b: string, w: string)
    requires '/' !in w
    ensures Elements(a + "/" + b) == Elements(a) + Elements(b)
    ensures Elements(w) == if w == "" then [] else [w]
  {
    SplitAt(a, b);
    NonEmptySplit(Split(a), Split(b));
    FirstPiece(w, |w|);
    assert Split("") == [""] && w[..|w|] == w && w[|w|..] == "";
    assert Split(w) == [w] && [w][1..] == [];
    assert NonEmpty([w]) == (if w == "" then [] else [w]) + NonEmpty([w][1..]);
  }

  /** skipelem: None where the source returns 0. The remaining path is empty just
      when the element taken was the last one, which nameiparent relies on. */
  method Skipelem(path: string) returns (r: Option<(string, string)>)
    ensures r.None? <==> Elements(path) == []
    ensures r.Some? ==> Elements(path) != [] && r.value.1 == Cut(Elements(path)[0])
    ensures r.Some? ==> Elements(r.value.0) == Elements(path)[1..] && |r.value.0| < |path|
    ensures r.Some? ==> (r.value.0 == "" <==> |Elements(path)| == 1)
  {
    var i := 0;
    while i < |path| && path[i] == '/'
      invariant i <= |path| && Elements(path[i..]) == Elements(path)
    {
      SlashSkipped(path[i..]);
      assert path[i..][1..] == path[i + 1..];
      i := i + 1;
    }
    if i == |path| {
      assert Split("") == [""];
      return None;
    }
    var s := i;
    while i < |path| && path[i] != '/'
      invariant s <= i <= |path| && forall k :: s <= k < i ==> path[k] != '/'
    {
      i := i + 1;
    }
    var elem := path[s..i];
    FirstElement(path[s..], i - s);
    assert path[s..][..i - s] == elem && path[s..][i - s..] == path[i..];
    ghost var after := Elements(path[i..]);
    while i < |path| && path[i] == '/'
      invariant s < i <= |path| && Elements(path[i..]) == after
    {
      SlashSkipped(path[i..]);
      assert path[i..][1..] == path[i + 1..];
      i := i + 1;
    }
    NoLeadingSlash(path[i..]);
    return Some((path[i..], Cut(elem)));
  }

  /** Short of a leading slash, only the empty path has no element. */
  lemma NoLeadingSlash(path: string)
    requires path != "" ==> path[0] != '/'
    ensures path == "" <==> Elements(path) == []
  {
    if path != "" {
      assert Split(path)[0] != "";
    }
  }

  /** A file tree: the directories, each with its entries. */
  type Tree = map<nat, seq<Dirent>>

  ghost predicate TreeOk(t: Tree) { forall d :: d in t ==> Unambiguous(t[d]) }

  /** The inode reached from ip by following the elements one after the other. */
  function Walk(t: Tree, ip: nat, elems: seq<string>): (r: Option<nat>)
    decreases |elems|
  {
    if elems == [] then Some(ip)
    else if ip !in t then None
    else
      var next := Bound(t[ip], Cut(elems[0]));
      if next.None? then None else Walk(t, next.value, elems[1..])
  }

  /** The walk that stops one element early, in a directory, with the last name. */
  function WalkParent(t: Tree, ip: nat, elems: seq<string>): (r: Option<(nat, string)>)
    decreases |elems|
  {
    if elems == [] || ip !in t then None
    else if |elems| == 1 then Some((ip, Cut(elems[0])))
    else
      var next := Bound(t[ip], Cut(elems[0]));
      if next.None? then None else WalkParent(t, next.value, elems[1..])
  }

  /** A walk reaches j just when there are inodes from ip to j, each a directory in
      which the next element, cut to DIRSIZ, stands for the next inode. */
  ghost predicate Leads(t: Tree, ns: seq<nat>, elems: seq<string>) {
    && |ns| == |elems| + 1
    && forall k :: 0 <= k < |elems| ==> ns[k] in t && Bound(t[ns[k]], Cut(elems[k])) == Some(ns[k + 1])
  }

  lemma WalkIff(t: Tree, ip: nat, elems: seq<string>, j: nat)
    ensures Walk(t, ip, elems) == Some(j)
            <==> exists ns :: Leads(t, ns, elems) && ns[0] == ip && ns[|elems|] == j
  {
    if Walk(t, ip, elems) == Some(j) {
      var ns := WalkLeads(t, ip, elems);
    }
    if ns :| Leads(t, ns, elems) && ns[0] == ip && ns[|elems|] == j {
      LeadsWalk(t, ns, elems);
    }
  }

  lemma {:induction false} WalkLeads(t: Tree, ip: nat, elems: seq<string>) returns (ns: seq<nat>)
    requires Walk(t, ip, elems).Some?
    ensures Leads(t, ns, elems) && ns[0] == ip && Some(ns[|elems|]) == Walk(t, ip, elems)
    decreases |elems|
  {
    ns := [ip];
    if elems != [] {
      var more := WalkLeads(t, Bound(t[ip], Cut(elems[0])).value, elems[1..]);
      ns := [ip] + more;
      forall k | 0 <= k < |elems| ensures ns[k] in t && Bound(t[ns[k]], Cut(elems[k])) == Some(ns[k + 1]) {
        if k > 0 {
          assert ns[k] == more[k - 1] && elems[k] == elems[1..][k - 1];
        }
      }
    }
  }

  lemma {:induction false} LeadsWalk(t: Tree, ns: seq<nat>, elems: seq<string>)
    requires Leads(t, ns, elems)
    ensures Walk(t, ns[0], elems) == Some(ns[|elems|])
    decreases |elems|
  {
    if elems != [] {
      assert Leads(t, ns[1..], elems[1..]);
      LeadsWalk(t, ns[1..], elems[1..]);
    }
  }

  /** The parent walk is the whole walk of all elements but the last. */
  lemma {:induction false} ParentWalk(t: Tree, ip: nat, front: seq<string>, last: string)
    ensures var w := Walk(t, ip, front);
            WalkParent(t, ip, front + [last]) ==
            if w.None? || w.value !in t then None else Some((w.value, Cut(last)))
    decreases |front|
  {
    if front != [] && ip in t {
      var next := Bound(t[ip], Cut(front[0]));
      if next.Some? {
        ParentWalk(t, next.value, front[1..], last);
        assert (front + [last])[1..] == front[1..] + [last];
      }
    }
  }

  /** Looking the last name up in the directory that nameiparent returns gives what
      namei returns. */
  lemma ParentThenLookup(t: Tree, ip: nat, elems: seq<string>)
    requires elems != []
    ensures var p := WalkParent(t, ip, elems);
            Walk(t, ip, elems) == if p.None? then None else
                                  if p.value.0 in t then Bound(t[p.value.0], p.value.1) else None
    decreases |elems|
  {
    if ip in t {
      var next := Bound(t[ip], Cut(elems[0]));
      if next.Some? && |elems| > 1 {
        ParentThenLookup(t, next.value, elems[1..]);
      } else if next.Some? {
        assert elems[1..] == [];
      }
    }
  }

  /** namex: the inode reached and the name skipelem copied out last. An absolute path
      is walked from the root, any other from the current directory. */
  method Namex(t: Tree, root: nat, cwd: nat, path: string, parent: bool) returns (r: Option<(nat, string)>)
    requires TreeOk(t)
    ensures path != "" && path[0] == '/' ==> Resolves(t, root, Elements(path), parent, r)
    ensures path == "" || path[0] != '/' ==> Resolves(t, cwd, Elements(path), parent, r)
  {
    var ip := if path != "" && path[0] == '/' then root else cwd;
    r := Follow(t, ip, path, parent);
  }

  ghost predicate Resolves(t: Tree, from: nat, elems: seq<string>, parent: bool, r: Option<(nat, string)>) {
    if parent then r == WalkParent(t, from, elems)
    else (r.None? <==> Walk(t, from, elems).None?) && (r.Some? ==> Walk(t, from, elems) == Some(r.value.0))
  }

  /** The loop of namex. */
  method Follow(t: Tree, from: nat, path: string, parent: bool) returns (r: Option<(nat, string)>)
    requires TreeOk(t)
    ensures Resolves(t, from, Elements(path), parent, r)
  {
    hide Elements, Bound;
    var ip := from;
    var name := "";
    var rest := path;
    var step := Skipelem(rest);
    while step.Some?
      invariant Walk(t, ip, Elements(rest)) == Walk(t, from, Elements(path))
      invariant parent ==> WalkParent(t, ip, Elements(rest)) == WalkParent(t, from, Elements(path))
      invariant step.None? <==> Elements(rest) == []
      invariant step.Some? ==> step.value.1 == Cut(Elements(rest)[0]) && Elements(step.value.0) == Elements(rest)[1..]
      invariant step.Some? ==> (step.value.0 == "" <==> |Elements(rest)| == 1) && |step.value.0| < |rest|
      decreases |rest|
    {
      CutTwice(Elements(rest)[0]);
      name := step.value.1;
      if ip !in t {
        return None;
      }
      if parent && step.value.0 == "" {
        return Some((ip, name));
      }
      var found := Dirlookup(t[ip], name);
      if found.None? {
        return None;
      }
      ip := t[ip][found.value].inum;
      rest := step.value.0;
      step := Skipelem(rest);
    }
    if parent {
      return None;
    }
    return Some((ip, name));
  }

  lemma CutTwice(name: string)
    ensures Cut(Cut(name)) == Cut(name)
  {
  }
}
