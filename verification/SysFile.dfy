/** sys_link, sys_unlink, create (sysfile.c) and iput (fs.c) as they run alone, with
    their error paths, on the name space whose interleavings Links is about. */
module SysFile {
  import opened Links
  import opened Wrappers

  /** No call is in progress. */
  ghost predicate Quiet(s: State) { Inv(s) && s.linking == multiset{} && s.unlinking == {} && s.freeing == {} }

  /** t follows s, and its link counts are exact if those of s are. */
  ghost predicate Follows(s: State, t: State) { Quiet(t) && (Exact(s) ==> Exact(t)) }

  // The calls as runs of the steps of Links

  predicate Frees(s: State, i: Inum) { i in s.nlink && s.nlink[i] == 0 && s.ref[i] == 1 }

  ghost function PutState(s: State, i: Inum): (r: State) {
    var t := s.(ref := s.ref - multiset{i});
    if Frees(s, i) then
      t.(nlink := s.nlink - {i}, dirs := s.dirs - {i}, up := s.up - {i}, entry := Without(s.entry, i))
    else t
  }

  lemma PutRuns(s: State, i: Inum)
    requires Quiet(s) && s.ref[i] > 0
    ensures Quiet(PutState(s, i))
    ensures Exact(s) && (Frees(s, i) ==> Empty(s, i)) ==> Exact(PutState(s, i))
  {
    hide Slack;
    StepKeeps(s, Put(i));
    var t := Next(s, Put(i));
    if Frees(s, i) {
      assert t == s.(freeing := {i});
      StepKeeps(t, Free(i));
      assert Next(t, Free(i)) == PutState(s, i);
    } else {
      assert t == PutState(s, i);
    }
  }

  /** Taking a reference and giving it back: nothing changes, except that an inode
      which had neither links nor references goes. */
  ghost function PutBack(s: State, i: Inum): (r: State) { PutState(Referenced(s, i), i) }

  lemma PutBackSame(s: State, i: Inum)
    requires i in s.nlink ==> s.nlink[i] != 0 || s.ref[i] > 0
    ensures PutBack(s, i) == s
  {
    assert s.ref + multiset{i} - multiset{i} == s.ref;
  }

  /** sys_link from the old name's inode i, which is no directory and which some
      entry names, to the new name. */
  ghost function LinkState(s: State, i: Inum, d: Inum, name: string): (r: State)
    requires i in s.nlink
  {
    s.(nlink := s.nlink[i := s.nlink[i] + 1], entry := s.entry[Place(d, name) := i])
  }

  lemma LinkRuns(s: State, i: Inum, d: Inum, name: string)
    requires Quiet(s) && Live(s, i) && i !in s.dirs && Live(s, d) && d in s.dirs
    requires !Dot(name) && Place(d, name) !in s.entry
    ensures Follows(s, LinkState(s, i, d, name))
  {
    hide Slack;
    StepKeeps(s, LinkUp(i));
    var t := Next(s, LinkUp(i));
    StepKeeps(t, LinkEnter(i, d, name));
    assert multiset{} + multiset{i} - multiset{i} == multiset{};
    assert Next(t, LinkEnter(i, d, name)) == LinkState(s, i, d, name);
  }

  lemma Rereferenced(s: State, i: Inum, d: Inum, name: string)
    requires d in s.up
    ensures Target(Referenced(s, i), d, name) == Target(s, d, name)
    ensures i in s.nlink && s.nlink[i] >= 0 ==>
              PutState(LinkState(Referenced(s, i), i, d, name), i) == LinkState(s, i, d, name)
  {
    assert s.ref + multiset{i} - multiset{i} == s.ref;
  }

  ghost predicate MayUnlink(s: State, d: Inum, name: string) {
    && Live(s, d) && d in s.dirs && Place(d, name) in s.entry
    && (s.entry[Place(d, name)] in s.dirs ==> Empty(s, s.entry[Place(d, name)]))
  }

  ghost function UnlinkState(s: State, d: Inum, name: string): (r: State)
    requires Closed(s) && MayUnlink(s, d, name)
  {
    var i := s.entry[Place(d, name)];
    var n := if i in s.dirs then s.nlink[d := s.nlink[d] - 1] else s.nlink;
    s.(nlink := n[i := n[i] - 1], entry := s.entry - {Place(d, name)})
  }

  lemma UnlinkRuns(s: State, d: Inum, name: string)
    requires Quiet(s) && MayUnlink(s, d, name) && Live(s, s.entry[Place(d, name)])
    ensures Follows(s, UnlinkState(s, d, name))
    ensures s.entry[Place(d, name)] in s.dirs ==> s.entry[Place(d, name)] != d
  {
    hide Slack;
    var i := s.entry[Place(d, name)];
    StepKeeps(s, UnlinkErase(d, name));
    var t := Next(s, UnlinkErase(d, name));
    StepKeeps(t, UnlinkDown(i));
    assert Next(t, UnlinkDown(i)) == UnlinkState(s, d, name);
  }

  lemma CreateRuns(s: State, d: Inum, name: string, i: Inum, dir: bool)
    requires Quiet(s) && MayCreate(s, d, name, i)
    ensures Follows(s, Created(s, d, name, i, dir))
  {
    hide Slack;
    StepKeeps(s, Create(d, name, i, dir));
  }

  /** What dirlookup finds. */
  function Target(s: State, d: Inum, name: string): (r: Option<Inum>)
    requires d in s.up
  {
    if name == "." then Some(d)
    else if name == ".." then Some(s.up[d])
    else if Place(d, name) in s.entry then Some(s.entry[Place(d, name)])
    else None
  }

  /** The name leads to a number that stands for no inode: ilock panics. */
  predicate LooksAtNothing(s: State, d: Inum, name: string)
    requires d in s.up
  {
    Target(s, d, name).Some? && Target(s, d, name).value !in s.nlink
  }

  predicate Linkable(s: State, d: Inum, name: string)
    requires d in s.up
  {
    Target(s, d, name).Some? && Target(s, d, name).value in s.nlink && Target(s, d, name).value !in s.dirs
  }

  /** A call that looked the name up and gave up. */
  ghost function TriedState(s: State, d: Inum, name: string): (r: State)
    requires d in s.up
  {
    if Target(s, d, name).None? then s else PutBack(s, Target(s, d, name).value)
  }

  lemma TriedSame(s: State, d: Inum, name: string)
    requires Quiet(s) && Live(s, d) && d in s.dirs && (name == ".." ==> Named(s, d) || NoOrphans(s))
    ensures d in s.up && TriedState(s, d, name) == s
  {
    hide Inv, Exact, Named;
    LookupRuns(s, d, name);
    if Target(s, d, name).Some? {
      assert NoOrphans(s) && s.up[d] in s.nlink ==> HeldOk(s, s.up[d]);
      PutBackSame(s, Target(s, d, name).value);
    }
  }

  /** A directory without links that nobody held goes when its ".." has been looked up. */
  lemma TriedFrees(s: State, d: Inum, name: string)
    requires d in s.up && Target(s, d, name).Some?
    ensures var i := Target(s, d, name).value;
            i in s.nlink ==> (i !in TriedState(s, d, name).nlink <==> s.nlink[i] == 0 && s.ref[i] == 0)
  {
  }

  /** Looking a name up takes a reference to what it stands for, which is an inode
      with a link, except for the ".." of a directory that has lost its own name. */
  lemma LookupRuns(s: State, d: Inum, name: string)
    requires Quiet(s) && Live(s, d) && d in s.dirs
    ensures d in s.up
    ensures Target(s, d, name).Some? ==> Follows(s, Referenced(s, Target(s, d, name).value))
    ensures Place(d, name) in s.entry ==> !Dot(name) && s.entry[Place(d, name)] in s.nlink
                                          && s.nlink[s.entry[Place(d, name)]] >= 1
    ensures name == ".." && Named(s, d) ==> s.up[d] in s.dirs && s.up[d] in s.nlink && s.nlink[s.up[d]] >= 1
  {
    hide Slack;
    HasUp(s, d);
    if name == ".." {
      StepKeeps(s, GetUp(d));
      if Named(s, d) {
        NamedUp(s, d);
      }
    } else if name == "." {
      StepKeeps(s, Dup(d));
    } else if Place(d, name) in s.entry {
      StepKeeps(s, Get(d, name));
      NotFreeing(s, Place(d, name));
    }
  }

  // What lookups find after the calls

  /** After sys_link the new name leads to the inode, every other name leads where it
      led before, and only this inode has one more link. */
  lemma LinkLookups(s: State, i: Inum, d: Inum, name: string, e: Inum, n: string)
    requires i in s.nlink && d in s.up && Target(s, d, name).None? && e in s.up
    ensures var t := LinkState(s, i, d, name);
            && e in t.up && Target(t, e, n) == (if e == d && n == name then Some(i) else Target(s, e, n))
            && t.nlink == s.nlink[i := s.nlink[i] + 1] && t.ref == s.ref && t.dirs == s.dirs && t.up == s.up
  {
  }

  /** After sys_unlink the name leads nowhere and every other name where it led. The
      inode has one link less, and the parent of a directory too. */
  lemma UnlinkLookups(s: State, d: Inum, name: string, e: Inum, n: string)
    requires Closed(s) && MayUnlink(s, d, name) && !Dot(name) && d in s.up && e in s.up
    ensures var t, i := UnlinkState(s, d, name), s.entry[Place(d, name)];
            && e in t.up && Target(t, e, n) == (if e == d && n == name then None else Target(s, e, n))
            && t.nlink.Keys == s.nlink.Keys && t.ref == s.ref && t.dirs == s.dirs && t.up == s.up
            && forall j :: j in s.nlink ==>
                 t.nlink[j] == s.nlink[j] - (if j == i then 1 else 0) - (if j == d && i in s.dirs then 1 else 0)
  {
  }

  /** After create the name leads to the new inode, which has one link and one holder;
      a new directory has itself for "." and its parent for "..", and the parent one
      link more. Every other name leads where it led. */
  lemma CreateLookups(s: State, d: Inum, name: string, i: Inum, dir: bool, e: Inum, n: string)
    requires Closed(s) && MayCreate(s, d, name, i) && e in s.up
    ensures var t := Created(s, d, name, i, dir);
            && e in t.up && Target(t, e, n) == (if e == d && n == name then Some(i) else Target(s, e, n))
            && t.nlink.Keys == s.nlink.Keys + {i} && t.nlink[i] == 1 && t.ref == s.ref + multiset{i}
            && t.dirs == (if dir then s.dirs + {i} else s.dirs)
            && (dir ==> i in t.up && Target(t, i, ".") == Some(i) && Target(t, i, "..") == Some(d))
            && (dir && n != "." && n != ".." ==> Target(t, i, n) == None)
            && forall j :: j in s.nlink ==> t.nlink[j] == s.nlink[j] + (if dir && j == d then 1 else 0)
  {
    assert i !in s.dirs && i != d;
    forall k | k in s.entry ensures k.dir != i {
    }
  }

  /** The free at the end of iput takes the inode and what was in it, and no other name. */
  lemma PutLookups(s: State, i: Inum, e: Inum, n: string)
    requires s.ref[i] > 0 && e in s.up && e != i
    ensures var t := PutState(s, i);
            && e in t.up && Target(t, e, n) == Target(s, e, n) && t.ref[i] == s.ref[i] - 1
            && (i in s.nlink ==> (i !in t.nlink <==> s.nlink[i] == 0 && s.ref[i] == 1))
            && forall j :: j != i ==> t.ref[j] == s.ref[j] && (j in t.nlink <==> j in s.nlink)
                                      && (j in s.nlink ==> t.nlink[j] == s.nlink[j]) && (j in t.dirs <==> j in s.dirs)
  {
  }

  // The calls

  datatype Outcome = Done(inum: Inum) | Refused | Panics | Hangs

  class Namespace {
    var nlink: map<Inum, int>
    var ref: multiset<Inum>
    var dirs: set<Inum>
    var up: map<Inum, Inum>
    var entry: map<Place, Inum>

    function Now(): (s: State)
      reads this
    {
      State(nlink, ref, dirs, up, entry, multiset{}, {}, {})
    }

    /** d is a directory that the caller has found by its path and holds. */
    ghost predicate Found(d: Inum)
      reads this
    {
      Live(Now(), d) && d in dirs
    }

    /** A file system with just its root, held by the first process. */
    constructor ()
      ensures Now() == OnlyRoot() && Quiet(Now()) && Exact(Now()) && NoOrphans(Now()) && Found(ROOTINO)
    {
      nlink, ref, dirs, entry := map[ROOTINO := 1], multiset{ROOTINO}, {ROOTINO}, map[];
      up := map[ROOTINO := ROOTINO];
      new;
      OnlyRootInit();
      assert Now() == OnlyRoot();
    }

    /** iput. */
    method Put(i: Inum)
      requires Quiet(Now()) && i in ref
      modifies this
      ensures Quiet(Now()) && Now() == PutState(old(Now()), i)
      ensures Exact(old(Now())) && (Frees(old(Now()), i) ==> Empty(old(Now()), i)) ==> Exact(Now())
    {
      hide Inv, Exact, Empty;
      PutRuns(Now(), i);
      if i in nlink && nlink[i] == 0 && ref[i] == 1 {
        entry := map k | k in entry && k.dir != i :: entry[k];
        nlink, dirs, up := nlink - {i}, dirs - {i}, up - {i};
      }
      ref := ref - multiset{i};
    }

    /** dirlookup: the entry, and the reference that iget takes. */
    method Lookup(d: Inum, name: string) returns (r: Option<Inum>)
      requires Quiet(Now()) && Found(d)
      modifies `ref
      ensures d in up && r == Target(old(Now()), d, name)
      ensures r.None? ==> Now() == old(Now())
      ensures r.Some? ==> Follows(old(Now()), Now()) && Now() == Referenced(old(Now()), r.value)
      ensures r.Some? && !Dot(name) ==> r.value in nlink && nlink[r.value] >= 1
    {
      hide Inv, Exact, Named;
      LookupRuns(Now(), d, name);
      r := if name == "." then Some(d) else if name == ".." then Some(up[d])
           else if Place(d, name) in entry then Some(entry[Place(d, name)]) else None;
      if r.Some? {
        ref := ref + multiset{r.value};
      }
    }

    /** sys_link. `nd` is the directory of the new path, if there is one. When the new
        name leads back to that directory, as "." does, dirlink puts the inode that
        sys_link has locked and waits for its own lock. */
    method SysLink(d: Inum, name: string, nd: Option<Inum>, newName: string) returns (r: Outcome)
      requires Quiet(Now()) && Found(d) && (nd.Some? ==> Found(nd.value))
      modifies this
      ensures d in old(up) && (nd.Some? ==> nd.value in old(up))
      ensures r.Panics? <==> LooksAtNothing(old(Now()), d, name)
      ensures r.Hangs? <==> Linkable(old(Now()), d, name) && nd.Some?
                            && Target(old(Now()), nd.value, newName) == Some(nd.value)
      ensures r.Done? <==> Linkable(old(Now()), d, name) && nd.Some? && Target(old(Now()), nd.value, newName).None?
      ensures r.Done? ==> Target(old(Now()), d, name) == Some(r.inum) && r.inum in old(nlink)
                          && Now() == LinkState(old(Now()), r.inum, nd.value, newName)
      ensures r.Done? ==> Follows(old(Now()), Now())
      ensures r.Refused? ==> Quiet(Now()) && Now() == TriedState(old(Now()), d, name)
      ensures r.Refused? && (name == ".." ==> Named(old(Now()), d) || NoOrphans(old(Now()))) ==> Now() == old(Now())
    {
      hide Quiet, Exact, Named, NoOrphans, Target, PutState, LinkState;
      ghost var s := Now();
      if nd.Some? {
        LookupRuns(s, nd.value, newName);
      }
      if name == ".." ==> Named(s, d) || NoOrphans(s) {
        TriedSame(s, d, name);
      }
      var t := Lookup(d, name);
      if t.None? {
        return Refused;
      }
      var i := t.value;
      if i !in nlink {
        return Panics;
      }
      if i in dirs {
        Put(i);
        return Refused;
      }
      r := LinkAt(i, nd, newName);
      if nd.Some? {
        NotNegative(s, i);
        Rereferenced(s, i, nd.value, newName);
      }
    }

    /** sys_link with its file found. */
    method LinkAt(i: Inum, nd: Option<Inum>, newName: string) returns (r: Outcome)
      requires Quiet(Now()) && Live(Now(), i) && i !in dirs && (nd.Some? ==> Found(nd.value))
      modifies this
      ensures (nd.Some? ==> nd.value in old(up)) && !r.Panics?
      ensures r.Hangs? <==> nd.Some? && Target(old(Now()), nd.value, newName) == Some(nd.value)
      ensures r.Done? <==> nd.Some? && Target(old(Now()), nd.value, newName).None?
      ensures r.Done? ==> r.inum == i && Follows(old(Now()), Now())
                          && Now() == PutState(LinkState(old(Now()), i, nd.value, newName), i)
      ensures r.Refused? ==> Quiet(Now()) && Now() == PutState(old(Now()), i)
    {
      hide Inv, Exact, Named, NoOrphans, Without;
      ghost var s := Now();
      nlink := nlink[i := nlink[i] + 1];
      if nd.Some? {
        LookupRuns(s, nd.value, newName);
        var u := Target(Now(), nd.value, newName);
        if u == nd {
          return Hangs;
        } else if u.None? {
          LinkRuns(s, i, nd.value, newName);
          entry := entry[Place(nd.value, newName) := i];
          NotNegative(s, i);
          Put(i);
          return Done(i);
        }
      }
      nlink := nlink[i := nlink[i] - 1];
      assert nlink == old(nlink);
      Put(i);
      return Refused;
    }

    /** sys_unlink. The inode goes with its last name, unless somebody holds it. */
    method SysUnlink(d: Inum, name: string) returns (ok: bool)
      requires Quiet(Now()) && Found(d)
      modifies this
      ensures Follows(old(Now()), Now())
      ensures ok <==> name != "." && name != ".." && MayUnlink(old(Now()), d, name)
      ensures !ok ==> Now() == old(Now())
      ensures ok ==> Unlinked(old(Now()), Now(), d, name)
    {
      hide Quiet, Exact, Target, MayUnlink, Unlinked, PutState, UnlinkState;
      ghost var s := Now();
      LookupRuns(s, d, name);
      if name == "." || name == ".." || Place(d, name) !in entry {
        NoUnlink(s, d, name);
        return false;
      }
      UnlinkAfter(s, d, name);
      var t := Lookup(d, name);
      var i := t.value;
      if i in dirs && !(forall k :: k in entry ==> k.dir != i) {
        Put(i);
        return false;
      }
      Erase(d, name, i);
      Put(i);
      return true;
    }

    /** The entry zeroed and the counts lowered. */
    method Erase(d: Inum, name: string, i: Inum)
      requires Quiet(Now()) && MayUnlink(Now(), d, name) && i == entry[Place(d, name)] && i in ref
      modifies this
      ensures Follows(old(Now()), Now()) && Closed(old(Now())) && Now() == UnlinkState(old(Now()), d, name)
    {
      hide Inv, Exact, Empty;
      QuietClosed(Now());
      UnlinkRuns(Now(), d, name);
      entry := entry - {Place(d, name)};
      if i in dirs {
        nlink := nlink[d := nlink[d] - 1];
      }
      nlink := nlink[i := nlink[i] - 1];
    }

    /** create, with the inode that ialloc would give. An existing file is opened
        when a file is asked for; anything else that exists is refused. */
    method Create(d: Inum, name: string, dir: bool, inum: Inum) returns (r: Outcome)
      requires Quiet(Now()) && Found(d) && inum !in nlink
      modifies this
      ensures d in old(up) && Quiet(Now()) && !r.Hangs?
      ensures r.Panics? <==> LooksAtNothing(old(Now()), d, name)
      ensures r.Refused? <==> var t := Target(old(Now()), d, name);
                              t.Some? && t.value in old(nlink) && (dir || t.value in old(dirs))
      ensures r.Refused? ==> Now() == TriedState(old(Now()), d, name)
      ensures r.Refused? && (name == ".." ==> Named(old(Now()), d) || NoOrphans(old(Now()))) ==> Now() == old(Now())
      ensures r.Done? ==> Follows(old(Now()), Now()) && Live(Now(), r.inum)
      ensures r.Done? && Target(old(Now()), d, name).Some? ==>
                Target(old(Now()), d, name) == Some(r.inum) && Now() == Referenced(old(Now()), r.inum)
      ensures Target(old(Now()), d, name).None? ==>
                r == Done(inum) && MayCreate(old(Now()), d, name, inum) && Closed(old(Now()))
                && Now() == Created(old(Now()), d, name, inum, dir)
    {
      hide Inv, Exact, Named, NoOrphans;
      if name == ".." ==> Named(Now(), d) || NoOrphans(Now()) {
        TriedSame(Now(), d, name);
      }
      var t := Lookup(d, name);
      if t.Some? {
        var i := t.value;
        if i !in nlink {
          return Panics;
        }
        if !dir && i !in dirs {
          return Done(i);
        }
        Put(i);
        return Refused;
      }
      Make(d, name, dir, inum);
      return Done(inum);
    }

    method Make(d: Inum, name: string, dir: bool, inum: Inum)
      requires Quiet(Now()) && MayCreate(Now(), d, name, inum)
      modifies this
      ensures Follows(old(Now()), Now()) && Closed(old(Now())) && Live(Now(), inum)
      ensures Now() == Created(old(Now()), d, name, inum, dir)
    {
      hide Inv, Exact, Closed;
      ghost var s := Now();
      QuietClosed(s);
      CreateRuns(s, d, name, inum, dir);
      ref := ref + multiset{inum};
      nlink := nlink[inum := 1];
      if dir {
        nlink := nlink[d := nlink[d] + 1];
        dirs, up := dirs + {inum}, up[inum := d];
      }
      entry := entry[Place(d, name) := inum];
      assert Now() == Created(s, d, name, inum, dir);
    }
  }

  lemma NotNegative(s: State, i: Inum)
    requires Quiet(s) && i in s.nlink
    ensures s.nlink[i] >= 0
  {
    assert Slack(s, i) >= 0;
  }

  /** What a successful unlink leaves: the name gone, the counts down, and the inode
      freed exactly when that was its last link and nobody held it. */
  ghost predicate Unlinked(s: State, t: State, d: Inum, name: string)
    requires MayUnlink(s, d, name)
  {
    var i := s.entry[Place(d, name)];
    && Closed(s)
    && var u := UnlinkState(s, d, name);
       t == if u.nlink[i] == 0 && s.ref[i] == 0
            then u.(nlink := u.nlink - {i}, dirs := u.dirs - {i}, up := u.up - {i}) else u
  }

  lemma QuietClosed(s: State)
    requires Quiet(s)
    ensures Closed(s)
  {
  }

  lemma NoUnlink(s: State, d: Inum, name: string)
    requires Quiet(s) && (Dot(name) || Place(d, name) !in s.entry)
    ensures !MayUnlink(s, d, name)
  {
  }

  /** sys_unlink once it has looked the name up: what it tests, what it leaves, and
      that what it frees has no entries that would go with it. */
  lemma UnlinkAfter(s: State, d: Inum, name: string)
    requires Quiet(s) && Live(s, d) && d in s.dirs && d in s.up && !Dot(name) && Place(d, name) in s.entry
    ensures Target(s, d, name) == Some(s.entry[Place(d, name)]) && s.entry[Place(d, name)] in s.nlink
    ensures var i := s.entry[Place(d, name)];
            && (MayUnlink(s, d, name) <==> i in s.dirs ==> Empty(s, i))
            && (MayUnlink(s, d, name) <==> MayUnlink(Referenced(s, i), d, name))
            && PutState(Referenced(s, i), i) == s
            && (MayUnlink(s, d, name) && Closed(Referenced(s, i)) ==>
                  var u := UnlinkState(Referenced(s, i), d, name);
                  i in u.ref && Empty(u, i) && Unlinked(s, PutState(u, i), d, name))
  {
    hide Slack;
    var i := s.entry[Place(d, name)];
    NotFreeing(s, Place(d, name));
    PutBackSame(s, i);
    if MayUnlink(s, d, name) {
      UnlinkedIs(s, d, name);
    }
  }

  lemma UnlinkedIs(s: State, d: Inum, name: string)
    requires Closed(s) && MayUnlink(s, d, name)
    ensures var i := s.entry[Place(d, name)];
            && MayUnlink(Referenced(s, i), d, name) && Closed(Referenced(s, i))
            && var u := UnlinkState(Referenced(s, i), d, name);
               i in u.ref && Empty(u, i) && Unlinked(s, PutState(u, i), d, name)
  {
    var i, k := s.entry[Place(d, name)], Place(d, name);
    var u := UnlinkState(Referenced(s, i), d, name);
    assert s.ref + multiset{i} - multiset{i} == s.ref;
    assert Without(s.entry - {k}, i) == s.entry - {k};
  }
}
