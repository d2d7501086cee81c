/** Link counts (sysfile.c, fs.c): sys_link, sys_unlink, create and iput as they
    interleave, and what nlink says about the names that are left. */
module Links {
  import opened Counting

  type Inum = nat

  const ROOTINO: Inum := 1

  datatype Place = Place(dir: Inum, name: string)

  /** Allocated inodes are the keys of nlink. ref has one element per reference that
      icache counts, also to an inode that was freed meanwhile. up is the ".." of
      each directory; the entry map has all other names but ".". An inode in linking
      was counted up by a sys_link that has not entered the new name yet (one element
      per such call). An inode in unlinking is still locked by the sys_unlink that
      erased an entry and has yet to count down; one in freeing is locked by an iput
      that found no link and no other reference. */
  datatype State = State(
    nlink: map<Inum, int>, ref: multiset<Inum>, dirs: set<Inum>, up: map<Inum, Inum>, entry: map<Place, Inum>,
    linking: multiset<Inum>, unlinking: set<Inum>, freeing: set<Inum>)

  predicate Dot(name: string) { name == "." || name == ".." }

  datatype Step =
    | Create(d: Inum, name: string, i: Inum, dir: bool)
    | LinkUp(i: Inum)
    | LinkEnter(i: Inum, d: Inum, name: string)
    | LinkBack(i: Inum)
    | UnlinkErase(d: Inum, name: string)
    | UnlinkDown(i: Inum)
    | Get(d: Inum, name: string)
    | GetUp(d: Inum)
    | Dup(i: Inum)
    | Put(i: Inum)
    | Free(i: Inum)

  ghost function Names(entry: map<Place, Inum>, i: Inum): (r: set<Place>) {
    set k | k in entry && entry[k] == i
  }

  /** The entries of d that are directories: each has a ".." back to d. */
  ghost function Subdirs(entry: map<Place, Inum>, dirs: set<Inum>, d: Inum): (r: set<Place>) {
    set k | k in entry && k.dir == d && entry[k] in dirs
  }

  ghost predicate Empty(s: State, d: Inum) { forall k :: k in s.entry ==> k.dir != d }

  ghost predicate Unlocked(s: State, i: Inum) { i !in s.unlinking && i !in s.freeing }

  predicate Live(s: State, i: Inum) { i in s.nlink && s.ref[i] > 0 }

  /** The partial updates need their targets to be allocated; Inv says they are. A
      directory with a name has the directory of that name for its "..". */
  ghost predicate Closed(s: State) {
    && s.dirs <= s.nlink.Keys && s.up.Keys == s.dirs && ROOTINO in s.dirs && s.up[ROOTINO] == ROOTINO
    && (forall k :: k in s.entry ==> k.dir in s.dirs && s.entry[k] in s.nlink && !Dot(k.name))
    && (forall k :: k in s.entry && s.entry[k] in s.dirs ==> s.up[s.entry[k]] == k.dir)
    && (forall i :: i in s.linking ==> i in s.nlink && i !in s.dirs)
    && s.unlinking <= s.nlink.Keys && s.freeing <= s.nlink.Keys
  }

  // What each step does

  ghost predicate MayCreate(s: State, d: Inum, name: string, i: Inum) {
    Live(s, d) && d in s.dirs && Unlocked(s, d) && !Dot(name) && Place(d, name) !in s.entry && i !in s.nlink
  }

  /** create: ialloc, nlink = 1, for a directory one more for the parent, and the
      new entry, all with both inodes locked. */
  ghost function Created(s: State, d: Inum, name: string, i: Inum, dir: bool): (r: State)
    requires Closed(s) && MayCreate(s, d, name, i)
  {
    var n := s.nlink[i := 1];
    s.(nlink := if dir then n[d := n[d] + 1] else n, ref := s.ref + multiset{i},
       dirs := if dir then s.dirs + {i} else s.dirs, up := if dir then s.up[i := d] else s.up,
       entry := s.entry[Place(d, name) := i])
  }

  ghost predicate MayEnter(s: State, i: Inum, d: Inum, name: string) {
    i in s.linking && Live(s, d) && d in s.dirs && Unlocked(s, d) && !Dot(name) && Place(d, name) !in s.entry
  }

  /** sys_link's dirlink. */
  ghost function Entered(s: State, i: Inum, d: Inum, name: string): (r: State) {
    s.(entry := s.entry[Place(d, name) := i], linking := s.linking - multiset{i})
  }

  ghost predicate MayErase(s: State, d: Inum, name: string) {
    && Live(s, d) && d in s.dirs && Unlocked(s, d)
    && Place(d, name) in s.entry && Live(s, s.entry[Place(d, name)]) && Unlocked(s, s.entry[Place(d, name)])
    && (s.entry[Place(d, name)] in s.dirs ==> Empty(s, s.entry[Place(d, name)]))
  }

  /** sys_unlink up to the release of the directory. */
  ghost function Erased(s: State, d: Inum, name: string): (r: State)
    requires Closed(s) && MayErase(s, d, name)
  {
    var i := s.entry[Place(d, name)];
    s.(nlink := if i in s.dirs then s.nlink[d := s.nlink[d] - 1] else s.nlink,
       entry := s.entry - {Place(d, name)}, unlinking := s.unlinking + {i})
  }

  ghost function CountedUp(s: State, i: Inum): (r: State)
    requires i in s.nlink
  {
    s.(nlink := s.nlink[i := s.nlink[i] + 1], linking := s.linking + multiset{i})
  }

  /** The bad: label of sys_link. */
  ghost function CountedBack(s: State, i: Inum): (r: State)
    requires i in s.nlink
  {
    s.(nlink := s.nlink[i := s.nlink[i] - 1], linking := s.linking - multiset{i})
  }

  ghost function CountedDown(s: State, i: Inum): (r: State)
    requires i in s.nlink
  {
    s.(nlink := s.nlink[i := s.nlink[i] - 1], unlinking := s.unlinking - {i})
  }

  /** iget: what the number stands for is not looked at. */
  ghost function Referenced(s: State, i: Inum): (r: State) {
    s.(ref := s.ref + multiset{i})
  }

  /** iput: with no link and no other reference the inode goes to be freed. */
  ghost function PutDown(s: State, i: Inum): (r: State) {
    if i in s.nlink && s.nlink[i] == 0 && s.ref[i] == 1 then s.(freeing := s.freeing + {i})
    else s.(ref := s.ref - multiset{i})
  }

  /** itrunc, type = 0: the inode and, for a directory, its entries are gone; then
      the reference goes too. */
  ghost function Dropped(s: State, i: Inum): (r: State) {
    s.(nlink := s.nlink - {i}, ref := s.ref - multiset{i}, dirs := s.dirs - {i}, up := s.up - {i},
       entry := Without(s.entry, i), freeing := s.freeing - {i})
  }

  ghost predicate Enabled(s: State, a: Step) {
    match a
    case Create(d, name, i, dir) => MayCreate(s, d, name, i)
    case LinkUp(i) => Live(s, i) && i !in s.dirs && Unlocked(s, i)
    case LinkEnter(i, d, name) => MayEnter(s, i, d, name)
    case LinkBack(i) => i in s.linking && Live(s, i) && Unlocked(s, i)
    case UnlinkErase(d, name) => MayErase(s, d, name)
    case UnlinkDown(i) => i in s.unlinking
    case Get(d, name) => Live(s, d) && d in s.dirs && Unlocked(s, d) && Place(d, name) in s.entry
    case GetUp(d) => Live(s, d) && d in s.dirs && Unlocked(s, d)
    case Dup(i) => Live(s, i) && (i in s.freeing ==> s.ref[i] > 1)
    case Put(i) => s.ref[i] > 0 && Unlocked(s, i)
    case Free(i) => i in s.freeing
  }

  ghost function Next(s: State, a: Step): (r: State)
    requires Closed(s) && Enabled(s, a)
  {
    match a
    case Create(d, name, i, dir) => Created(s, d, name, i, dir)
    case LinkUp(i) => CountedUp(s, i)
    case LinkEnter(i, d, name) => Entered(s, i, d, name)
    case LinkBack(i) => CountedBack(s, i)
    case UnlinkErase(d, name) => Erased(s, d, name)
    case UnlinkDown(i) => CountedDown(s, i)
    case Get(d, name) => Referenced(s, s.entry[Place(d, name)])
    case GetUp(d) => Referenced(s, s.up[d])
    case Dup(i) => Referenced(s, i)
    case Put(i) => PutDown(s, i)
    case Free(i) => Dropped(s, i)
  }

  /** What the names, subdirectories and calls in progress ask of i's link count. */
  ghost function Owed(s: State, i: Inum): (r: nat) {
    (if i == ROOTINO then 1 else 0) + |Names(s.entry, i)| + |Subdirs(s.entry, s.dirs, i)|
    + s.linking[i] + (if i in s.unlinking then 1 else 0)
  }

  /** How much more i's link count is than what it owes. */
  ghost function Slack(s: State, i: Inum): (r: int) {
    if i in s.nlink then s.nlink[i] - Owed(s, i) else 0
  }

  ghost predicate FreeingOk(s: State) {
    forall i :: i in s.freeing ==> Live(s, i) && s.nlink[i] == 0 && i !in s.unlinking
  }

  ghost predicate Inv(s: State) {
    && Closed(s)
    && (forall i :: i in s.nlink ==> Slack(s, i) >= 0)
    && FreeingOk(s)
  }

  /** No inode is kept by more than it owes. */
  ghost predicate Exact(s: State) { forall i :: i in s.nlink ==> Slack(s, i) == 0 }

  ghost predicate DirsExact(s: State) { forall d :: d in s.dirs ==> Slack(s, d) == 0 }

  /** Without links an inode stays only as long as somebody holds it. */
  ghost predicate NoOrphans(s: State) { forall i :: i in s.nlink ==> HeldOk(s, i) }

  predicate HeldOk(s: State, i: Inum)
    requires i in s.nlink
  {
    s.nlink[i] == 0 || i in s.unlinking ==> s.ref[i] > 0
  }

  // Counting entries

  lemma AddName(entry: map<Place, Inum>, k: Place, i: Inum, j: Inum)
    requires k !in entry
    ensures |Names(entry[k := i], j)| == |Names(entry, j)| + (if j == i then 1 else 0)
  {
    if j == i {
      assert Names(entry[k := i], j) == Names(entry, j) + {k};
    } else {
      assert Names(entry[k := i], j) == Names(entry, j);
    }
  }

  lemma AddSubdir(entry: map<Place, Inum>, dirs: set<Inum>, k: Place, i: Inum, j: Inum)
    requires k !in entry
    ensures |Subdirs(entry[k := i], dirs, j)| == |Subdirs(entry, dirs, j)| + (if k.dir == j && i in dirs then 1 else 0)
  {
    if k.dir == j && i in dirs {
      assert Subdirs(entry[k := i], dirs, j) == Subdirs(entry, dirs, j) + {k};
    } else {
      assert Subdirs(entry[k := i], dirs, j) == Subdirs(entry, dirs, j);
    }
  }

  lemma DropEntry(entry: map<Place, Inum>, dirs: set<Inum>, k: Place, j: Inum)
    requires k in entry
    ensures |Names(entry - {k}, j)| == |Names(entry, j)| - (if j == entry[k] then 1 else 0)
    ensures |Subdirs(entry - {k}, dirs, j)|
            == |Subdirs(entry, dirs, j)| - (if k.dir == j && entry[k] in dirs then 1 else 0)
  {
    var e := entry - {k};
    assert e[k := entry[k]] == entry;
    AddName(e, k, entry[k], j);
    AddSubdir(e, dirs, k, entry[k], j);
  }

  /** A number no entry stands for may become a directory. */
  lemma NewDir(entry: map<Place, Inum>, dirs: set<Inum>, i: Inum, j: Inum)
    requires forall k :: k in entry ==> entry[k] != i
    ensures Subdirs(entry, dirs + {i}, j) == Subdirs(entry, dirs, j)
    ensures Subdirs(entry, dirs - {i}, j) == Subdirs(entry, dirs, j)
  {
  }

  ghost function Without(entry: map<Place, Inum>, i: Inum): (r: map<Place, Inum>) {
    map k | k in entry && k.dir != i :: entry[k]
  }

  lemma FewerEntries(entry: map<Place, Inum>, dirs: set<Inum>, i: Inum, j: Inum)
    requires j != i
    ensures |Names(Without(entry, i), j)| <= |Names(entry, j)|
    ensures Subdirs(Without(entry, i), dirs, j) == Subdirs(entry, dirs, j)
  {
    assert Names(Without(entry, i), j) <= Names(entry, j);
    SubsetSize(Names(Without(entry, i), j), Names(entry, j));
  }

  // Every step keeps the invariant

  /** A name is a link: what an entry stands for is owed at least one. */
  lemma NamedOwes(s: State, k: Place)
    requires k in s.entry
    ensures Owed(s, s.entry[k]) >= 1
    ensures s.entry[k] in s.dirs ==> Owed(s, k.dir) >= 1
  {
    var i := s.entry[k];
    assert k in Names(s.entry, i);
    SubsetSize({k}, Names(s.entry, i));
    if i in s.dirs {
      assert k in Subdirs(s.entry, s.dirs, k.dir);
      SubsetSize({k}, Subdirs(s.entry, s.dirs, k.dir));
    }
  }

  /** What iput is about to free has no name, no subdirectory and no call in
      progress on it. */
  lemma Freed(s: State, i: Inum)
    requires Inv(s) && i in s.freeing
    ensures (forall k :: k in s.entry ==> s.entry[k] != i) && i != ROOTINO
    ensures (forall k :: k in s.entry && k.dir == i ==> s.entry[k] !in s.dirs)
    ensures i !in s.linking && i !in s.unlinking
  {
    hide Names, Subdirs, Closed;
    assert Slack(s, i) >= 0;
    forall k | k in s.entry ensures s.entry[k] != i && (k.dir == i ==> s.entry[k] !in s.dirs) {
      NamedOwes(s, k);
    }
  }

  /** t is a sound successor of s in which no inode has less to spare, no directory
      has more and, with `exact`, no inode has. */
  ghost predicate Kept(s: State, t: State, exact: bool) {
    && Closed(t) && FreeingOk(t)
    && forall j :: j in t.nlink ==>
         Slack(t, j) >= Slack(s, j) && (exact || j in t.dirs ==> Slack(t, j) == Slack(s, j))
  }

  lemma SlackCreate(s: State, d: Inum, name: string, i: Inum, dir: bool, j: Inum)
    requires Closed(s) && MayCreate(s, d, name, i) && j in Created(s, d, name, i, dir).nlink
    ensures Slack(Created(s, d, name, i, dir), j) == Slack(s, j)
  {
    var t := Created(s, d, name, i, dir);
    AddName(s.entry, Place(d, name), i, j);
    AddSubdir(s.entry, t.dirs, Place(d, name), i, j);
    NewDir(s.entry, s.dirs, i, j);
    if j == i {
      assert Names(s.entry, j) == {} && Subdirs(s.entry, s.dirs, j) == {};
    }
  }

  lemma ClosedCreate(s: State, d: Inum, name: string, i: Inum, dir: bool)
    requires Closed(s) && MayCreate(s, d, name, i)
    ensures Closed(Created(s, d, name, i, dir))
  {
  }

  lemma FreeingCreate(s: State, d: Inum, name: string, i: Inum, dir: bool)
    requires Closed(s) && FreeingOk(s) && MayCreate(s, d, name, i)
    ensures FreeingOk(Created(s, d, name, i, dir))
  {
  }

  lemma CreateKeeps(s: State, d: Inum, name: string, i: Inum, dir: bool)
    requires Inv(s) && MayCreate(s, d, name, i)
    ensures Kept(s, Created(s, d, name, i, dir), true)
  {
    hide Slack, Closed, FreeingOk, MayCreate;
    var t := Created(s, d, name, i, dir);
    ClosedCreate(s, d, name, i, dir);
    FreeingCreate(s, d, name, i, dir);
    forall j | j in t.nlink ensures Slack(t, j) == Slack(s, j) {
      SlackCreate(s, d, name, i, dir, j);
    }
  }

  lemma SlackEnter(s: State, i: Inum, d: Inum, name: string, j: Inum)
    requires Closed(s) && MayEnter(s, i, d, name)
    ensures Slack(Entered(s, i, d, name), j) == Slack(s, j)
  {
    hide Names, Subdirs;
    AddName(s.entry, Place(d, name), i, j);
    AddSubdir(s.entry, s.dirs, Place(d, name), i, j);
  }

  lemma EnterKeeps(s: State, i: Inum, d: Inum, name: string)
    requires Inv(s) && MayEnter(s, i, d, name)
    ensures Kept(s, Entered(s, i, d, name), true)
  {
    hide Slack;
    var t := Entered(s, i, d, name);
    forall j | j in t.nlink ensures Slack(t, j) == Slack(s, j) {
      SlackEnter(s, i, d, name, j);
    }
  }

  lemma SlackErase(s: State, d: Inum, name: string, j: Inum)
    requires Closed(s) && MayErase(s, d, name) && j in s.nlink
    ensures Slack(Erased(s, d, name), j) == Slack(s, j)
  {
    hide Names, Subdirs;
    DropEntry(s.entry, s.dirs, Place(d, name), j);
  }

  lemma EraseKeeps(s: State, d: Inum, name: string)
    requires Inv(s) && MayErase(s, d, name)
    ensures Kept(s, Erased(s, d, name), true)
  {
    hide Slack;
    var t := Erased(s, d, name);
    forall j | j in t.nlink ensures Slack(t, j) == Slack(s, j) {
      SlackErase(s, d, name, j);
    }
  }

  lemma CountUpKeeps(s: State, i: Inum)
    requires Inv(s) && i in s.nlink && i !in s.dirs && Unlocked(s, i)
    ensures Kept(s, CountedUp(s, i), true)
  {
    hide Names, Subdirs;
  }

  lemma CountBackKeeps(s: State, i: Inum)
    requires Inv(s) && i in s.linking && Unlocked(s, i)
    ensures i in s.nlink && Kept(s, CountedBack(s, i), true)
  {
    hide Slack;
    var t := CountedBack(s, i);
    forall j | j in t.nlink ensures Slack(t, j) == Slack(s, j) {
      SlackBack(s, i, j);
    }
  }

  lemma SlackBack(s: State, i: Inum, j: Inum)
    requires i in s.nlink && i in s.linking
    ensures Slack(CountedBack(s, i), j) == Slack(s, j)
  {
    hide Names, Subdirs;
  }

  lemma CountDownKeeps(s: State, i: Inum)
    requires Inv(s) && i in s.unlinking
    ensures i in s.nlink && Kept(s, CountedDown(s, i), true)
  {
    hide Names, Subdirs;
  }

  lemma PutKeeps(s: State, i: Inum)
    requires Inv(s) && s.ref[i] > 0 && Unlocked(s, i)
    ensures Kept(s, PutDown(s, i), true)
  {
    hide Names, Subdirs;
  }

  lemma GetKeeps(s: State, i: Inum)
    requires Inv(s)
    ensures Kept(s, Referenced(s, i), true)
  {
    hide Names, Subdirs;
  }

  lemma SlackFree(s: State, i: Inum, j: Inum)
    requires Inv(s) && i in s.freeing && j != i
    ensures Slack(Dropped(s, i), j) >= Slack(s, j)
    ensures Empty(s, i) || j in s.dirs ==> Slack(Dropped(s, i), j) == Slack(s, j)
  {
    hide Names, Subdirs;
    Freed(s, i);
    FewerEntries(s.entry, s.dirs, i, j);
    NewDir(Without(s.entry, i), s.dirs, i, j);
    if Empty(s, i) {
      assert Without(s.entry, i) == s.entry;
    } else if j in s.dirs {
      SameNames(s.entry, i, j);
    }
  }

  lemma SameNames(entry: map<Place, Inum>, i: Inum, j: Inum)
    requires forall k :: k in entry && k.dir == i ==> entry[k] != j
    ensures Names(Without(entry, i), j) == Names(entry, j)
  {
  }

  lemma FreeKeeps(s: State, i: Inum)
    requires Inv(s) && i in s.freeing
    ensures Kept(s, Dropped(s, i), Empty(s, i))
  {
    hide Slack;
    Freed(s, i);
    var t := Dropped(s, i);
    forall j | j in t.nlink
      ensures Slack(t, j) >= Slack(s, j) && (Empty(s, i) || j in t.dirs ==> Slack(t, j) == Slack(s, j))
    {
      SlackFree(s, i, j);
    }
  }

  /** Every step keeps the invariant. Only freeing a directory that still has
      entries leaves an inode with more links than names. */
  lemma StepKept(s: State, a: Step)
    requires Inv(s) && Enabled(s, a)
    ensures Kept(s, Next(s, a), !a.Free? || Empty(s, a.i))
  {
    hide Inv, Kept, Created, Entered, Erased, CountedUp, CountedBack, CountedDown, Referenced, PutDown, Dropped,
         MayCreate, MayEnter, MayErase, Slack;
    match a
    case Create(d, name, i, dir) => CreateKeeps(s, d, name, i, dir);
    case LinkUp(i) => CountUpKeeps(s, i);
    case LinkEnter(i, d, name) => EnterKeeps(s, i, d, name);
    case LinkBack(i) => CountBackKeeps(s, i);
    case UnlinkErase(d, name) => EraseKeeps(s, d, name);
    case UnlinkDown(i) => CountDownKeeps(s, i);
    case Get(d, name) => GetKeeps(s, s.entry[Place(d, name)]);
    case GetUp(d) => HasUp(s, d); GetKeeps(s, s.up[d]);
    case Dup(i) => GetKeeps(s, i);
    case Put(i) => PutKeeps(s, i);
    case Free(i) => FreeKeeps(s, i);
  }

  lemma HasUp(s: State, d: Inum)
    requires Inv(s) && d in s.dirs
    ensures d in s.up
  {
  }

  lemma NotFreeing(s: State, k: Place)
    requires Inv(s) && k in s.entry
    ensures s.entry[k] !in s.freeing && s.entry[k] in s.nlink && s.nlink[s.entry[k]] >= 1
  {
    hide Names, Subdirs;
    if s.entry[k] in s.freeing {
      Freed(s, s.entry[k]);
    }
    NamedOwes(s, k);
  }

  lemma StepKeeps(s: State, a: Step)
    requires Inv(s) && Enabled(s, a)
    ensures Inv(Next(s, a))
    ensures Exact(s) && (!a.Free? || Empty(s, a.i)) ==> Exact(Next(s, a))
    ensures DirsExact(s) ==> DirsExact(Next(s, a))
  {
    hide Slack, Next, Enabled, Closed, FreeingOk, Empty;
    StepKept(s, a);
    NewHasNone(s);
    NewDirs(s, a);
  }

  /** Only numbers that were free become directories. */
  lemma NewDirs(s: State, a: Step)
    requires Closed(s) && Enabled(s, a)
    ensures Next(s, a).dirs <= Next(s, a).nlink.Keys
    ensures forall d :: d in Next(s, a).dirs && d !in s.dirs ==> d !in s.nlink
  {
  }

  lemma NewHasNone(s: State)
    ensures forall i :: i !in s.nlink ==> Slack(s, i) == 0
  {
    hide Names, Subdirs;
  }

  // Whole runs

  ghost predicate Init(s: State) {
    Inv(s) && Exact(s) && s.linking == multiset{} && s.unlinking == {} && s.freeing == {}
  }

  ghost predicate Run(states: seq<State>, steps: seq<Step>) {
    && |states| == |steps| + 1 && Init(states[0])
    && forall n :: 0 <= n < |steps| ==> Takes(states[n], steps[n], states[n + 1])
  }

  ghost predicate Takes(s: State, a: Step, t: State) { Closed(s) && Enabled(s, a) && t == Next(s, a) }

  lemma {:induction false} RunInvariant(states: seq<State>, steps: seq<Step>, n: nat)
    requires Run(states, steps) && n < |states|
    ensures Inv(states[n])
    decreases n
  {
    hide Inv, Closed, Enabled, Next, Exact;
    if n == 0 {
      InitInv(states[0]);
    } else {
      RunInvariant(states, steps, n - 1);
      assert Takes(states[n - 1], steps[n - 1], states[n]);
      StepKeeps(states[n - 1], steps[n - 1]);
    }
  }

  lemma InitInv(s: State)
    requires Init(s)
    ensures Inv(s) && Exact(s)
  {
  }

  /** In every reachable state each entry stands for an allocated inode that has a
      link and is not being freed. So the panic in sys_unlink ("nlink < 1") cannot
      happen. */
  lemma NamesHold(states: seq<State>, steps: seq<Step>, n: nat, k: Place)
    requires Run(states, steps) && n < |states| && k in states[n].entry
    ensures var s := states[n]; s.entry[k] in s.nlink && s.nlink[s.entry[k]] >= 1 && s.entry[k] !in s.freeing
  {
    hide Names, Subdirs, Owed, Next, Enabled, Run, Inv;
    RunInvariant(states, steps, n);
    NotFreeing(states[n], k);
  }

  /** iput frees nothing that has a name, and neither sys_link nor sys_unlink is at
      work on it. */
  lemma FreesOnlyUnnamed(states: seq<State>, steps: seq<Step>, n: nat, i: Inum)
    requires Run(states, steps) && n < |steps| && steps[n] == Free(i)
    ensures var s := states[n];
            && (forall k :: k in s.entry ==> s.entry[k] != i)
            && i != ROOTINO && i !in s.linking && i !in s.unlinking && s.ref[i] >= 1
  {
    hide Names, Subdirs, Owed, Next, Slack;
    RunInvariant(states, steps, n);
    assert Takes(states[n], steps[n], states[n + 1]);
    Freed(states[n], i);
  }

  /** sys_unlink takes the name of a directory only when it has no entries. */
  lemma UnlinksEmpty(states: seq<State>, steps: seq<Step>, n: nat, d: Inum, name: string)
    requires Run(states, steps) && n < |steps| && steps[n] == UnlinkErase(d, name)
    ensures Place(d, name) in states[n].entry && Place(d, name) !in states[n + 1].entry
    ensures var i := states[n].entry[Place(d, name)]; i in states[n + 1].dirs ==> Empty(states[n + 1], i)
  {
    hide Inv, Init;
    assert Takes(states[n], steps[n], states[n + 1]);
  }

  // What ".." leads to

  ghost predicate Named(s: State, d: Inum) { d == ROOTINO || exists k :: k in s.entry && s.entry[k] == d }

  lemma NamedUp(s: State, d: Inum)
    requires Inv(s) && d in s.dirs && Named(s, d)
    ensures d in s.up && s.up[d] in s.dirs && s.up[d] in s.nlink
    ensures s.nlink[s.up[d]] >= 1 && s.up[d] !in s.freeing
  {
    hide Names, Subdirs;
    if d != ROOTINO {
      var k :| k in s.entry && s.entry[k] == d;
      NamedOwes(s, k);
      assert Slack(s, k.dir) >= 0;
    } else {
      assert Slack(s, d) >= 0;
    }
  }

  /** In every run the ".." of a directory that has a name stands for a directory that
      has a link and is not being freed. */
  lemma ParentHolds(states: seq<State>, steps: seq<Step>, n: nat, d: Inum)
    requires Run(states, steps) && n < |states| && d in states[n].dirs && Named(states[n], d)
    ensures var s := states[n];
            && d in s.up && s.up[d] in s.dirs && s.up[d] in s.nlink
            && s.nlink[s.up[d]] >= 1 && s.up[d] !in s.freeing
  {
    hide Inv, Run, Named;
    RunInvariant(states, steps, n);
    NamedUp(states[n], d);
  }

  /** A free leaves a ".." that stands for nothing just when some directory made in
      the freed one has been removed and is still allocated. */
  lemma DanglesIff(s: State, i: Inum)
    requires Inv(s) && i in s.freeing
    ensures (exists d :: d in Dropped(s, i).dirs && d in Dropped(s, i).up && Dropped(s, i).up[d] == i)
            <==> exists d :: d in s.dirs && d in s.up && d != i && s.up[d] == i && !Named(s, d)
  {
    hide Slack;
    var t := Dropped(s, i);
    if d :| d in t.dirs && d in t.up && t.up[d] == i {
      if Named(s, d) {
        NamedUp(s, d);
      }
      assert d in s.dirs && d in s.up && d != i && s.up[d] == i && !Named(s, d);
    }
    if d :| d in s.dirs && d in s.up && d != i && s.up[d] == i && !Named(s, d) {
      assert d in t.dirs && d in t.up && t.up[d] == i;
    }
  }

  lemma HeldStep(s: State, a: Step, i: Inum)
    requires Closed(s) && NoOrphans(s) && Enabled(s, a) && i in Next(s, a).nlink
    ensures HeldOk(Next(s, a), i)
  {
    hide Without, Empty, Closed, Created, Erased;
    assert i in s.nlink ==> HeldOk(s, i);
    match a
    case Create(d, name, j, dir) => HeldCreate(s, d, name, j, dir, i);
    case UnlinkErase(d, name) => HeldErase(s, d, name, i);
    case UnlinkDown(j) => InUse(s, j); assert HeldOk(s, j);
    case _ =>
  }

  lemma InUse(s: State, i: Inum)
    requires Closed(s) && i in s.unlinking
    ensures i in s.nlink
  {
  }

  lemma HeldCreate(s: State, d: Inum, name: string, j: Inum, dir: bool, i: Inum)
    requires Closed(s) && MayCreate(s, d, name, j) && (i in s.nlink ==> HeldOk(s, i))
    requires i in Created(s, d, name, j, dir).nlink
    ensures HeldOk(Created(s, d, name, j, dir), i)
  {
    hide Closed;
  }

  lemma HeldErase(s: State, d: Inum, name: string, i: Inum)
    requires Closed(s) && MayErase(s, d, name) && (i in s.nlink ==> HeldOk(s, i))
    requires i in Erased(s, d, name).nlink
    ensures HeldOk(Erased(s, d, name), i)
  {
    hide Closed, Empty;
  }

  lemma OrphanStep(s: State, a: Step)
    requires Closed(s) && NoOrphans(s) && Enabled(s, a)
    ensures NoOrphans(Next(s, a))
  {
    hide Closed, Enabled, Next, HeldOk;
    forall i | i in Next(s, a).nlink ensures HeldOk(Next(s, a), i) {
      HeldStep(s, a, i);
    }
  }

  /** Such a directory is held, or a directory made in it has a name. */
  lemma RemovedHeld(s: State, d: Inum)
    requires Inv(s) && DirsExact(s) && NoOrphans(s) && d in s.dirs && !Named(s, d)
    ensures s.ref[d] > 0 || exists k :: k in s.entry && k.dir == d && s.entry[k] in s.dirs
  {
    assert Names(s.entry, d) == {} && Slack(s, d) == 0;
    if !(exists k :: k in s.entry && k.dir == d && s.entry[k] in s.dirs) {
      assert Subdirs(s.entry, s.dirs, d) == {};
    }
  }

  lemma AllExact(s: State)
    requires Inv(s) && Exact(s)
    ensures DirsExact(s)
  {
    hide Slack;
  }

  /** All along, directories have exact link counts, and inodes without links are
      held, if it was so at the start. */
  lemma {:induction false} RunDirectories(states: seq<State>, steps: seq<Step>, n: nat)
    requires Run(states, steps) && n < |states|
    ensures DirsExact(states[n]) && (NoOrphans(states[0]) ==> NoOrphans(states[n]))
    decreases n
  {
    hide Inv, Closed, Enabled, Next, Exact, DirsExact, NoOrphans;
    if n == 0 {
      InitInv(states[0]);
      AllExact(states[0]);
    } else {
      RunDirectories(states, steps, n - 1);
      RunInvariant(states, steps, n - 1);
      assert Takes(states[n - 1], steps[n - 1], states[n]);
      StepKeeps(states[n - 1], steps[n - 1]);
      if NoOrphans(states[0]) {
        OrphanStep(states[n - 1], steps[n - 1]);
      }
    }
  }

  // References to what is gone

  /** Nobody holds a freed inode, and what is being freed is held by the iput alone.
      Locking a freed inode panics ("ilock: no type"). */
  ghost predicate Sound(s: State) { forall i :: SoundAt(s, i) }

  predicate SoundAt(s: State, i: Inum) { (i in s.ref ==> i in s.nlink) && (i in s.freeing ==> s.ref[i] == 1) }

  /** A lookup of ".." in a directory whose parent is gone or being freed. */
  predicate Strays(s: State, a: Step) {
    a.GetUp? && a.d in s.up && (s.up[a.d] !in s.nlink || s.up[a.d] in s.freeing)
  }

  lemma SoundAtStep(s: State, a: Step, i: Inum)
    requires Closed(s) && Sound(s) && Enabled(s, a) && !Strays(s, a)
    requires a.Get? ==> s.entry[Place(a.d, a.name)] !in s.freeing
    ensures SoundAt(Next(s, a), i)
  {
    assert SoundAt(s, i);
  }

  lemma StrayUnsound(s: State, a: Step)
    requires Closed(s) && Enabled(s, a) && Strays(s, a) && FreeingOk(s)
    ensures !SoundAt(Next(s, a), s.up[a.d])
  {
    assert Next(s, a).ref[s.up[a.d]] == s.ref[s.up[a.d]] + 1;
  }

  lemma SoundStep(s: State, a: Step)
    requires Inv(s) && Sound(s) && Enabled(s, a)
    ensures Sound(Next(s, a)) <==> !Strays(s, a)
  {
    hide Slack, Closed, FreeingOk, Next, SoundAt;
    if Strays(s, a) {
      StrayUnsound(s, a);
    } else {
      if a.Get? {
        NotFreeing(s, Place(a.d, a.name));
      }
      forall i ensures SoundAt(Next(s, a), i) {
        SoundAtStep(s, a, i);
      }
    }
  }

  lemma {:induction false} RunSound(states: seq<State>, steps: seq<Step>, n: nat)
    requires Run(states, steps) && n < |states| && Sound(states[0])
    requires forall m :: 0 <= m < n ==> !Strays(states[m], steps[m])
    ensures Sound(states[n])
    decreases n
  {
    hide Inv, Closed, Enabled, Next, Sound, Strays, Init;
    if n > 0 {
      RunSound(states, steps, n - 1);
      RunInvariant(states, steps, n - 1);
      assert Takes(states[n - 1], steps[n - 1], states[n]);
      SoundStep(states[n - 1], steps[n - 1]);
    }
  }

  /** Over every run, references are sound all along if and only if no lookup of ".."
      strays; none does in a directory that has a name. */
  lemma SoundIff(states: seq<State>, steps: seq<Step>)
    requires Run(states, steps) && Sound(states[0])
    ensures (forall n :: 0 <= n < |states| ==> Sound(states[n]))
            <==> forall m :: 0 <= m < |steps| ==> !Strays(states[m], steps[m])
    ensures forall m :: 0 <= m < |steps| && Strays(states[m], steps[m]) ==>
              steps[m].GetUp? && !Named(states[m], steps[m].d)
  {
    hide Inv, Closed, Enabled, Next, Sound, Strays, Init, Named;
    if forall n :: 0 <= n < |states| ==> Sound(states[n]) {
      forall m | 0 <= m < |steps| ensures !Strays(states[m], steps[m]) {
        RunInvariant(states, steps, m);
        assert Takes(states[m], steps[m], states[m + 1]);
        assert Sound(states[m]) && Sound(states[m + 1]);
        SoundStep(states[m], steps[m]);
      }
    }
    if forall m :: 0 <= m < |steps| ==> !Strays(states[m], steps[m]) {
      forall n | 0 <= n < |states| ensures Sound(states[n]) {
        RunSound(states, steps, n);
      }
    }
    forall m | 0 <= m < |steps| && Strays(states[m], steps[m])
      ensures steps[m].GetUp? && !Named(states[m], steps[m].d)
    {
      RunInvariant(states, steps, m);
      StraysUnnamed(states[m], steps[m]);
    }
  }

  lemma StraysUnnamed(s: State, a: Step)
    requires Inv(s) && Strays(s, a)
    ensures a.GetUp? && !Named(s, a.d)
  {
    hide Slack;
    if Named(s, a.d) {
      NamedUp(s, a.d);
    }
  }

  /** As long as none has strayed, iput frees only what nobody else holds. */
  lemma FreesOnlyUnheld(states: seq<State>, steps: seq<Step>, n: nat, i: Inum)
    requires Run(states, steps) && n < |steps| && steps[n] == Free(i) && Sound(states[0])
    requires forall m :: 0 <= m < n ==> !Strays(states[m], steps[m])
    ensures states[n].ref[i] == 1
  {
    hide Strays, Init, Closed, Next;
    RunSound(states, steps, n);
    assert Takes(states[n], steps[n], states[n + 1]) && SoundAt(states[n], i);
  }

  /** A link count never goes below zero. */
  lemma CountsNeverNegative(states: seq<State>, steps: seq<Step>, n: nat, i: Inum)
    requires Run(states, steps) && n < |states| && i in states[n].nlink
    ensures states[n].nlink[i] >= 0
  {
    hide Names, Subdirs, Next, Enabled, Run;
    RunInvariant(states, steps, n);
    assert Slack(states[n], i) >= 0;
  }

  /** As long as no directory is freed with entries in it, link counts are exactly
      the names, subdirectories and calls in progress. */
  lemma {:induction false} CountsExact(states: seq<State>, steps: seq<Step>, n: nat)
    requires Run(states, steps) && n < |states|
    requires forall m :: 0 <= m < n && steps[m].Free? ==> Empty(states[m], steps[m].i)
    ensures Exact(states[n])
    decreases n
  {
    hide Inv, Closed, Enabled, Next, Exact, Empty;
    if n == 0 {
      InitInv(states[0]);
    } else {
      CountsExact(states, steps, n - 1);
      RunInvariant(states, steps, n - 1);
      assert Takes(states[n - 1], steps[n - 1], states[n]);
      StepKeeps(states[n - 1], steps[n - 1]);
    }
  }

  /** Freeing keeps the counts exact just when the directory is empty: an entry
      that goes with it leaves what it named with a link too many, for good. */
  lemma FreeExactIff(s: State, i: Inum)
    requires Inv(s) && Exact(s) && i in s.freeing
    ensures Exact(Dropped(s, i)) <==> Empty(s, i)
  {
    hide Slack, Next, Closed, FreeingOk;
    FreeKeeps(s, i);
    NewHasNone(s);
    if k :| k in s.entry && k.dir == i {
      FreeLeaks(s, k);
    }
  }

  lemma FreeLeaks(s: State, k: Place)
    requires Inv(s) && k in s.entry && k.dir in s.freeing
    ensures var j := s.entry[k]; j in Dropped(s, k.dir).nlink && Slack(Dropped(s, k.dir), j) > Slack(s, j)
  {
    var i, j := k.dir, s.entry[k];
    Freed(s, i);
    FewerEntries(s.entry, s.dirs, i, j);
    NewDir(Without(s.entry, i), s.dirs, i, j);
    assert Names(Without(s.entry, i), j) <= Names(s.entry, j) - {k};
    SubsetSize(Names(Without(s.entry, i), j), Names(s.entry, j) - {k});
  }

  // A directory removed while it is someone's current directory

  ghost function OnlyRoot(): (r: State) {
    State(map[ROOTINO := 1], multiset{ROOTINO}, {ROOTINO}, map[ROOTINO := ROOTINO], map[], multiset{}, {}, {})
  }

  lemma OnlyRootInit()
    ensures Init(OnlyRoot())
  {
    var s := OnlyRoot();
    assert Names(s.entry, ROOTINO) == {} && Subdirs(s.entry, s.dirs, ROOTINO) == {};
    assert Slack(s, ROOTINO) == 0;
  }

  function LeakSteps(): (r: seq<Step>) {
    [Create(ROOTINO, "d", 2, true), UnlinkErase(ROOTINO, "d"), UnlinkDown(2),
     Create(2, "f", 3, false), Put(2), Free(2)]
  }

  ghost function LeakState(n: nat): (r: State) {
    var up := map[1 := 1, 2 := 1];
    if n == 0 then OnlyRoot()
    else if n == 1 then
      State(map[1 := 2, 2 := 1], multiset{1, 2}, {1, 2}, up, map[Place(1, "d") := 2], multiset{}, {}, {})
    else if n == 2 then State(map[1 := 1, 2 := 1], multiset{1, 2}, {1, 2}, up, map[], multiset{}, {2}, {})
    else if n == 3 then State(map[1 := 1, 2 := 0], multiset{1, 2}, {1, 2}, up, map[], multiset{}, {}, {})
    else
      var s := State(map[1 := 1, 2 := 0, 3 := 1], multiset{1, 2, 3}, {1, 2}, up, map[Place(2, "f") := 3],
                     multiset{}, {}, if n == 4 then {} else {2});
      if n <= 5 then s else Dropped(s, 2)
  }

  lemma LeakMakes()
    ensures Takes(LeakState(0), LeakSteps()[0], LeakState(1))
  {
  }

  lemma LeakErases()
    ensures Takes(LeakState(1), LeakSteps()[1], LeakState(2))
  {
  }

  lemma LeakCounts()
    ensures Takes(LeakState(2), LeakSteps()[2], LeakState(3))
  {
  }

  lemma LeakFills()
    ensures Takes(LeakState(3), LeakSteps()[3], LeakState(4))
  {
  }

  lemma LeakPuts()
    ensures Takes(LeakState(4), LeakSteps()[4], LeakState(5))
  {
  }

  lemma LeakFrees()
    ensures Takes(LeakState(5), LeakSteps()[5], LeakState(6))
  {
    hide Dropped;
  }

  lemma LeakEnds()
    ensures Place(2, "f") in LeakState(5).entry && LeakState(6).entry == map[]
    ensures 3 in LeakState(6).nlink && LeakState(6).nlink[3] == 1
  {
  }

  /** mkdir d; cd d; unlink ../d; create f; cd /: the run ends with a link to f
      that no name accounts for. */
  lemma RemovedDirectoryLeaks() returns (states: seq<State>)
    ensures Run(states, LeakSteps()) && |states| == 7 && !Exact(states[6])
    ensures states[6].entry == map[] && 3 in states[6].nlink && states[6].nlink[3] == 1
  {
    hide Takes, LeakSteps, Exact, Init;
    OnlyRootInit();
    LeakMakes();
    LeakErases();
    LeakCounts();
    LeakFills();
    LeakPuts();
    LeakFrees();
    LeakEnds();
    states := [OnlyRoot(), LeakState(1), LeakState(2), LeakState(3), LeakState(4), LeakState(5), LeakState(6)];
    SixSteps();
    LeakFound(states);
  }

  lemma SixSteps()
    ensures |LeakSteps()| == 6
  {
  }

  lemma LeakFound(states: seq<State>)
    requires Run(states, LeakSteps()) && |states| == 7 && Place(2, "f") in states[5].entry
    ensures !Exact(states[6])
  {
    hide Inv, Closed, Enabled, Exact, Slack;
    CountsExact(states, LeakSteps(), 5);
    RunInvariant(states, LeakSteps(), 5);
    assert Takes(states[5], LeakSteps()[5], states[6]);
    assert 2 in states[5].freeing by { Freeing2(states[5]); }
    FreeExactIff(states[5], 2);
  }

  lemma Freeing2(s: State)
    requires Enabled(s, Free(2))
    ensures 2 in s.freeing
  {
  }

  // A parent freed while its ".." is looked up

  function StraySteps(): (r: seq<Step>) {
    [Create(1, "p", 2, true), Create(2, "c", 3, true), UnlinkErase(2, "c"), UnlinkDown(3),
     UnlinkErase(1, "p"), UnlinkDown(2), Put(2), GetUp(3), Free(2)]
  }

  ghost function StrayState(n: nat): (r: State) {
    var p, c := Place(1, "p"), Place(2, "c");
    var dirs, up := {1, 2, 3}, map[1 := 1, 2 := 1, 3 := 2];
    if n == 0 then OnlyRoot()
    else if n == 1 then
      State(map[1 := 2, 2 := 1], multiset{1, 2}, {1, 2}, map[1 := 1, 2 := 1], map[p := 2], multiset{}, {}, {})
    else if n == 2 then
      State(map[1 := 2, 2 := 2, 3 := 1], multiset{1, 2, 3}, dirs, up, map[p := 2, c := 3], multiset{}, {}, {})
    else if n <= 4 then
      State(map[1 := 2, 2 := 1, 3 := if n == 3 then 1 else 0], multiset{1, 2, 3}, dirs, up, map[p := 2], multiset{},
            if n == 3 then {3} else {}, {})
    else
      var s := State(map[1 := 1, 2 := if n == 5 then 1 else 0, 3 := 0],
                     if n < 8 then multiset{1, 2, 3} else multiset{1, 2, 3, 2}, dirs, up, map[], multiset{},
                     if n == 5 then {2} else {}, if n < 7 then {} else {2});
      if n <= 8 then s else Dropped(s, 2)
  }

  lemma StrayMakes()
    requires Closed(StrayState(0))
    ensures Takes(StrayState(0), StraySteps()[0], StrayState(1))
  {
    hide Closed;
  }

  lemma StrayMakesChild()
    requires Closed(StrayState(1))
    ensures Takes(StrayState(1), StraySteps()[1], StrayState(2))
  {
    hide Closed;
  }

  lemma StrayErasesChild()
    requires Closed(StrayState(2))
    ensures Takes(StrayState(2), StraySteps()[2], StrayState(3))
  {
    hide Closed, MayErase;
    ChildErasable();
    ChildErased();
  }

  lemma ChildErasable()
    ensures MayErase(StrayState(2), 2, "c")
  {
  }

  lemma ChildErased()
    requires Closed(StrayState(2)) && MayErase(StrayState(2), 2, "c")
    ensures Erased(StrayState(2), 2, "c") == StrayState(3)
  {
    hide Closed, MayErase;
    assert map[Place(1, "p") := 2, Place(2, "c") := 3] - {Place(2, "c")} == map[Place(1, "p") := 2];
  }

  lemma StrayCountsChild()
    requires Closed(StrayState(3))
    ensures Takes(StrayState(3), StraySteps()[3], StrayState(4))
  {
    hide Closed;
  }

  lemma StrayErases()
    requires Closed(StrayState(4))
    ensures Takes(StrayState(4), StraySteps()[4], StrayState(5))
  {
    hide Closed;
  }

  lemma StrayCounts()
    requires Closed(StrayState(5))
    ensures Takes(StrayState(5), StraySteps()[5], StrayState(6))
  {
    hide Closed;
  }

  lemma StrayPuts()
    requires Closed(StrayState(6))
    ensures Takes(StrayState(6), StraySteps()[6], StrayState(7))
  {
    hide Closed;
  }

  lemma StrayLooksUp()
    requires Closed(StrayState(7))
    ensures Takes(StrayState(7), StraySteps()[7], StrayState(8)) && Strays(StrayState(7), StraySteps()[7])
  {
    hide Closed;
  }

  lemma StrayFrees()
    requires Closed(StrayState(8))
    ensures Takes(StrayState(8), StraySteps()[8], StrayState(9))
  {
    hide Closed, Dropped;
  }

  lemma StrayStep(n: nat)
    requires n < 9 && Closed(StrayState(n))
    ensures n < |StraySteps()| && Takes(StrayState(n), StraySteps()[n], StrayState(n + 1))
  {
    hide Closed, Takes, StrayState;
    if n == 0 {
      StrayMakes();
    } else if n == 1 {
      StrayMakesChild();
    } else if n == 2 {
      StrayErasesChild();
    } else if n == 3 {
      StrayCountsChild();
    } else if n == 4 {
      StrayErases();
    } else if n == 5 {
      StrayCounts();
    } else if n == 6 {
      StrayPuts();
    } else if n == 7 {
      StrayLooksUp();
    } else {
      StrayFrees();
    }
  }

  lemma {:induction false} StrayInv(n: nat)
    requires n <= 9
    ensures Inv(StrayState(n))
    decreases n
  {
    hide Inv, Closed, Enabled, Next, StrayState, StraySteps;
    if n == 0 {
      StrayStarts();
    } else {
      StrayInv(n - 1);
      InvClosed(StrayState(n - 1));
      StrayStep(n - 1);
      StepKeeps(StrayState(n - 1), StraySteps()[n - 1]);
    }
  }

  lemma StrayStarts()
    ensures Inv(StrayState(0)) && Init(StrayState(0))
  {
    OnlyRootInit();
  }

  lemma InvClosed(s: State)
    requires Inv(s)
    ensures Closed(s)
  {
  }

  lemma StrayEnds()
    ensures 2 in StrayState(9).ref && 2 !in StrayState(9).nlink && Sound(StrayState(0)) && |StraySteps()| == 9
  {
  }

  /** mkdir p; mkdir p/c; cd p/c; elsewhere unlink p/c and p, and while iput frees p,
      look up "..": the run ends with a reference to the freed p. */
  lemma ParentFreed() returns (states: seq<State>)
    ensures Run(states, StraySteps()) && |states| == 10 && Sound(states[0]) && Strays(states[7], StraySteps()[7])
    ensures 2 in states[9].ref && 2 !in states[9].nlink
  {
    hide Takes, StraySteps, StrayState, Sound, Init, Strays, Inv, Closed;
    StrayStarts();
    StrayEnds();
    states := seq(10, n requires 0 <= n < 10 => StrayState(n));
    forall n | 0 <= n < 9 ensures Takes(states[n], StraySteps()[n], states[n + 1]) {
      StrayInv(n);
      InvClosed(StrayState(n));
      StrayStep(n);
    }
    StrayInv(7);
    InvClosed(StrayState(7));
    StrayLooksUp();
  }
}
