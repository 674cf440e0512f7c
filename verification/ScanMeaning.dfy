/** What the tree of a finished scan says about the files: each one's bytes once, at its least name. */
module ScanMeaning {
  import opened PathOrder
  import opened Ordering
  import opened FiniteSum
  import opened Forest
  import opened TotalsMeaning
  import opened Relocation
  import opened AliasGraph
  import opened FileOwners
  import opened FileSystem
  import opened Confluence

  /** The entry carries its file's bytes: it has no other names, or none with a lesser path. */
  ghost predicate BearsItsFile(fs: FileSystem, root: DirKey, f: Tree, k: DirKey, n: string)
    requires Rooted(f, DirRef(root)) && LeafRef(k, n) in f && Holds(fs, k, n) && EntryAt(fs, k, n).FileEntry?
  {
    var key := EntryAt(fs, k, n).key;
    key.None? || forall j, m {:trigger LeafRef(j, m)} ::
      LeafRef(j, m) in f && Holds(fs, j, m) && EntryAt(fs, j, m).FileEntry? && EntryAt(fs, j, m).key == key ==>
        !Less(PathOf(f, DirRef(root), LeafRef(j, m)), PathOf(f, DirRef(root), LeafRef(k, n)))
  }

  /** The leaf shows the sizes and the time of its file; or, as a later name of it, only the time and a flag; or that it
      could not be read. */
  ghost predicate LeafSays(fs: FileSystem, root: DirKey, f: Tree, k: DirKey, n: string)
    requires Rooted(f, DirRef(root)) && LeafRef(k, n) in f && Holds(fs, k, n)
  {
    var v := f[LeafRef(k, n)];
    match EntryAt(fs, k, n)
    case FileEntry(key, apparent, alloc, mtime) =>
      && !v.isDir && !v.failed && v.totals.mtime == mtime && v.totals.files == 0 && v.totals.dirs == 0
      && (BearsItsFile(fs, root, f, k, n) ==> !v.hardlink && v.totals.apparent == apparent && v.totals.alloc == alloc)
      && (!BearsItsFile(fs, root, f, k, n) ==> v.hardlink && v.totals.apparent == 0 && v.totals.alloc == 0)
    case BadEntry => !v.isDir && v.failed && !v.hardlink && v.totals == Totals(0, 0, 0, 0, 0)
    case DirEntry(target) => false
  }

  /** The directory is flagged if reading it ended in an error, and only then. */
  predicate DirSays(fs: FileSystem, f: Tree, k: DirKey)
    requires DirRef(k) in f
  {
    k in fs && f[DirRef(k)].isDir && !f[DirRef(k)].hardlink && (f[DirRef(k)].failed <==> fs[k].failed)
  }

  ghost predicate NodesSay(fs: FileSystem, root: DirKey, f: Tree) {
    && Rooted(f, DirRef(root))
    && (forall k, n {:trigger LeafRef(k, n)} :: LeafRef(k, n) in f ==> Holds(fs, k, n) && LeafSays(fs, root, f, k, n))
    && (forall k {:trigger DirSays(fs, f, k)} :: DirRef(k) in f ==> DirSays(fs, f, k))
  }

  lemma NodesMeasured(fs: FileSystem, root: DirKey, name: string, f: Tree)
    requires Authoritative(fs, root, name, f)
    ensures NodesSay(fs, root, f)
  {
    CompleteRooted(fs, root, f);
    forall k, n | LeafRef(k, n) in f
      ensures Holds(fs, k, n) && LeafSays(fs, root, f, k, n)
    {
      assert LeafShown(fs, root, f, k, n);
      hide Rooted, PathOf, Complete, Canonical, Measured;
    }
    forall k | DirRef(k) in f
      ensures DirSays(fs, f, k)
    {
      assert DirShown(fs, f, k);
      hide Rooted, PathOf, Complete, Canonical, Measured;
    }
  }

  // The distinct files.

  datatype FileId = Alone(dir: DirKey, entry: string) | Shared(key: FileKey)

  function IdOf(fs: FileSystem, x: Ref): FileId
    requires IsFileRef(fs, x)
  {
    var key := EntryAt(fs, x.dir, x.entry).key;
    if key.Some? then Shared(key.value) else Alone(x.dir, x.entry)
  }

  predicate IsFileRef(fs: FileSystem, x: Ref) {
    x.LeafRef? && Holds(fs, x.dir, x.entry) && EntryAt(fs, x.dir, x.entry).FileEntry?
  }

  /** The files that the tree shows, each once however many names it has. */
  ghost function FilesShown(fs: FileSystem, f: Tree): set<FileId> {
    set x | x in f && IsFileRef(fs, x) :: IdOf(fs, x)
  }

  /** What a file holds, by any of its names. */
  ghost function SizesOf(fs: FileSystem, id: FileId): (int, int) {
    if exists x :: Names(fs, x, id) then
      var x := SomeName(fs, id);
      (EntryAt(fs, x.dir, x.entry).apparent, EntryAt(fs, x.dir, x.entry).alloc)
    else (0, 0)
  }

  predicate Names(fs: FileSystem, x: Ref, id: FileId) {
    IsFileRef(fs, x) && IdOf(fs, x) == id
  }

  ghost function SomeName(fs: FileSystem, id: FileId): (x: Ref)
    requires exists x :: Names(fs, x, id)
    ensures Names(fs, x, id)
  {
    var x :| Names(fs, x, id);
    x
  }

  ghost function ApparentOf(fs: FileSystem): FileId -> int {
    (id: FileId) => SizesOf(fs, id).0
  }

  ghost function AllocOf(fs: FileSystem): FileId -> int {
    (id: FileId) => SizesOf(fs, id).1
  }

  ghost function DirAlloc(fs: FileSystem): Ref -> int {
    (x: Ref) => if x.DirRef? && x.key in fs then fs[x.key].alloc else 0
  }

  ghost function DirsIn(f: Tree): set<Ref> {
    set x | x in f && x.DirRef?
  }

  /** The root shows the bytes of every distinct file once, and the allocation of every directory; it counts every leaf
      that could be read, and every directory but itself. */
  ghost predicate RootSays(fs: FileSystem, root: DirKey, f: Tree) {
    && DirRef(root) in f
    && var t := f[DirRef(root)].totals;
    && t.apparent == Sum(FilesShown(fs, f), ApparentOf(fs))
    && t.alloc == Sum(FilesShown(fs, f), AllocOf(fs)) + Sum(DirsIn(f), DirAlloc(fs))
    && t.files == |set x | x in f && IsFileRef(fs, x)|
    && t.dirs == |DirsIn(f)| - 1
    && IsNewest(fs, f, t.mtime)
  }

  function TimeIn(fs: FileSystem, x: Ref): nat {
    match x
    case DirRef(k) => if k in fs then fs[k].mtime else 0
    case LeafRef(k, n) => if IsFileRef(fs, x) then EntryAt(fs, k, n).mtime else 0
  }

  ghost predicate IsNewest(fs: FileSystem, f: Tree, time: nat) {
    && (forall x :: x in f ==> TimeIn(fs, x) <= time)
    && exists x :: x in f && TimeIn(fs, x) == time
  }

  lemma {:induction false} SumNewest(w: map<Ref, Totals>, s: set<Ref>)
    requires s <= w.Keys
    ensures forall x :: x in s ==> w[x].mtime <= SumSet(w, s).mtime
    ensures s != {} ==> exists x :: x in s && w[x].mtime == SumSet(w, s).mtime
  {
    if s != {} {
      var y := Pick(s);
      SumNewest(w, s - {y});
      if s - {y} == {} {
        assert SumSet(w, s - {y}) == NOTHING;
      }
      assert w[y].mtime <= SumSet(w, s).mtime;
    }
  }

  lemma TimesKnown(fs: FileSystem, root: DirKey, name: string, f: Tree, x: Ref)
    requires Authoritative(fs, root, name, f) && Rooted(f, DirRef(root)) && x in f
    ensures x in Owns(f, SelfMap(fs)) && Owns(f, SelfMap(fs))[x].mtime == TimeIn(fs, x)
  {
    NodesMeasured(fs, root, name, f);
    KindsKnown(fs, root, name, f, x);
    match x
    case DirRef(k) =>
      assert DirShown(fs, f, k);
    case LeafRef(k, n) =>
      assert LeafSays(fs, root, f, k, n);
      hide Rooted, PathOf, BearsItsFile, Authoritative;
  }

  lemma RootIsNewest(fs: FileSystem, root: DirKey, name: string, f: Tree)
    requires Authoritative(fs, root, name, f) && Rooted(f, DirRef(root)) && DirRef(root) in f
    ensures IsNewest(fs, f, SumSet(Owns(f, SelfMap(fs)), f.Keys).mtime)
  {
    hide Rooted, Authoritative, TimeIn, SelfMap;
    var w := Owns(f, SelfMap(fs));
    forall x | x in f
      ensures w[x].mtime == TimeIn(fs, x)
    {
      TimesKnown(fs, root, name, f, x);
    }
    SumNewest(w, f.Keys);
  }

  lemma SizesKnown(fs: FileSystem, x: Ref)
    requires WellFormed(fs) && IsFileRef(fs, x)
    ensures SizesOf(fs, IdOf(fs, x)) == (EntryAt(fs, x.dir, x.entry).apparent, EntryAt(fs, x.dir, x.entry).alloc)
  {
    assert Names(fs, x, IdOf(fs, x));
    var y := SomeName(fs, IdOf(fs, x));
    assert SameFileSameBytes(EntryAt(fs, x.dir, x.entry), EntryAt(fs, y.dir, y.entry));
  }

  // Sums of totals, field by field.

  ghost function ApparentIn(w: map<Ref, Totals>): Ref -> int {
    (x: Ref) => if x in w then w[x].apparent else 0
  }

  ghost function AllocIn(w: map<Ref, Totals>): Ref -> int {
    (x: Ref) => if x in w then w[x].alloc else 0
  }

  ghost function FilesIn(w: map<Ref, Totals>): Ref -> int {
    (x: Ref) => if x in w then w[x].files else 0
  }

  ghost function DirsCountIn(w: map<Ref, Totals>): Ref -> int {
    (x: Ref) => if x in w then w[x].dirs else 0
  }

  lemma {:induction false} SumByField(w: map<Ref, Totals>, s: set<Ref>)
    requires s <= w.Keys
    ensures SumSet(w, s).apparent == Sum(s, ApparentIn(w)) && SumSet(w, s).alloc == Sum(s, AllocIn(w))
    ensures SumSet(w, s).files == Sum(s, FilesIn(w)) && SumSet(w, s).dirs == Sum(s, DirsCountIn(w))
  {
    if s != {} {
      SumByField(w, s - {Pick(s)});
    }
  }

  lemma {:induction false} SumOnes<T(!new)>(s: set<T>, w: T -> int)
    requires forall x :: x in s ==> w(x) == 1
    ensures Sum(s, w) == |s|
  {
    if s != {} {
      SumOnes(s - {Pick(s)}, w);
    }
  }

  /** Summing over the images instead, where no two elements have the same. */
  lemma {:induction false} SumImage<T(!new), U(!new)>(s: set<T>, t: set<U>, g: T -> U, v: T -> int, w: U -> int)
    requires forall x, y :: x in s && y in s && g(x) == g(y) ==> x == y
    requires (forall x :: x in s ==> g(x) in t) && forall u :: u in t ==> exists x :: x in s && g(x) == u
    requires forall x :: x in s ==> v(x) == w(g(x))
    ensures Sum(s, v) == Sum(t, w)
  {
    if s != {} {
      var x := Pick(s);
      assert g(x) in t;
      SumImage(s - {x}, t - {g(x)}, g, v, w);
      SumTake(t, w, g(x));
    }
  }

  // One bearer for every file.

  ghost function Bearers(fs: FileSystem, root: DirKey, f: Tree): set<Ref>
    requires Rooted(f, DirRef(root))
  {
    set x | x in f && IsFileRef(fs, x) && BearsItsFile(fs, root, f, x.dir, x.entry)
  }

  /** Among some names one has the least path. */
  lemma {:induction false} LeastName(f: Tree, root: Ref, s: set<Ref>) returns (o: Ref)
    requires Rooted(f, root) && s <= f.Keys && s != {}
    ensures o in s && forall y :: y in s ==> !Less(PathOf(f, root, y), PathOf(f, root, o))
  {
    hide Rooted, PathOf;
    var x :| x in s;
    if s == {x} {
      o := x;
      LessIrreflexive(PathOf(f, root, x));
    } else {
      assert s - {x} != {};
      o := LeastName(f, root, s - {x});
      LessTotal(PathOf(f, root, x), PathOf(f, root, o));
      if Less(PathOf(f, root, x), PathOf(f, root, o)) {
        ByTransitivity(f, root, s, x, o);
        o := x;
      }
    }
  }

  lemma ByTransitivity(f: Tree, root: Ref, s: set<Ref>, x: Ref, o: Ref)
    requires Rooted(f, root) && s <= f.Keys && x in s && o in s && Less(PathOf(f, root, x), PathOf(f, root, o))
    requires forall y :: y in s - {x} ==> !Less(PathOf(f, root, y), PathOf(f, root, o))
    ensures forall y :: y in s ==> !Less(PathOf(f, root, y), PathOf(f, root, x))
  {
    hide Rooted, PathOf;
    forall y | y in s
      ensures !Less(PathOf(f, root, y), PathOf(f, root, x))
    {
      if Less(PathOf(f, root, y), PathOf(f, root, x)) {
        LessTransitive(PathOf(f, root, y), PathOf(f, root, x), PathOf(f, root, o));
        LessIrreflexive(PathOf(f, root, x));
      }
    }
  }

  lemma OneBearer(fs: FileSystem, root: DirKey, name: string, f: Tree, x: Ref, y: Ref)
    requires Authoritative(fs, root, name, f) && Rooted(f, DirRef(root))
    requires x in Bearers(fs, root, f) && y in Bearers(fs, root, f) && IdOf(fs, x) == IdOf(fs, y)
    ensures x == y
  {
    hide Rooted, PathOf, Complete, Canonical, Measured;
    if EntryAt(fs, x.dir, x.entry).key.Some? {
      LessTotal(PathOf(f, DirRef(root), x), PathOf(f, DirRef(root), y));
      assert x == LeafRef(x.dir, x.entry) && y == LeafRef(y.dir, y.entry);
      PathsDistinct(fs, root, f, x, y);
    }
  }

  lemma EveryFileBorne(fs: FileSystem, root: DirKey, f: Tree, x: Ref)
    requires Rooted(f, DirRef(root)) && x in f && IsFileRef(fs, x)
    ensures exists o :: o in Bearers(fs, root, f) && IdOf(fs, o) == IdOf(fs, x)
  {
    hide Rooted, PathOf;
    var names := set y | y in f && IsFileRef(fs, y) && IdOf(fs, y) == IdOf(fs, x);
    assert x in names;
    var o := LeastName(f, DirRef(root), names);
    forall j, m | LeafRef(j, m) in f && Holds(fs, j, m) && EntryAt(fs, j, m).FileEntry?
      && EntryAt(fs, j, m).key == EntryAt(fs, o.dir, o.entry).key && EntryAt(fs, o.dir, o.entry).key.Some?
      ensures !Less(PathOf(f, DirRef(root), LeafRef(j, m)), PathOf(f, DirRef(root), o))
    {
      assert LeafRef(j, m) in names;
    }
    assert o in Bearers(fs, root, f);
  }

  lemma BearersAreFiles(fs: FileSystem, root: DirKey, name: string, f: Tree)
    requires Authoritative(fs, root, name, f) && Rooted(f, DirRef(root))
    ensures (set x | x in Bearers(fs, root, f) :: Named(fs, x)) == FilesShown(fs, f)
  {
    hide Rooted, PathOf, Authoritative, BearsItsFile;
    forall id | id in FilesShown(fs, f)
      ensures id in (set x | x in Bearers(fs, root, f) :: Named(fs, x))
    {
      var x :| x in f && IsFileRef(fs, x) && IdOf(fs, x) == id;
      EveryFileBorne(fs, root, f, x);
    }
  }

  function Named(fs: FileSystem, x: Ref): FileId {
    if IsFileRef(fs, x) then IdOf(fs, x) else Alone(DirKey(0, 0, ""), "")
  }

  // The root's totals.

  ghost function OwnApparent(fs: FileSystem, root: DirKey, f: Tree): Ref -> int
    requires Rooted(f, DirRef(root))
  {
    (x: Ref) => if x in Bearers(fs, root, f) then SizesOf(fs, Named(fs, x)).0 else 0
  }

  ghost function OwnAlloc(fs: FileSystem, root: DirKey, f: Tree): Ref -> int
    requires Rooted(f, DirRef(root))
  {
    (x: Ref) => if x in Bearers(fs, root, f) then SizesOf(fs, Named(fs, x)).1 else 0
  }

  /** What one node brings to the root. */
  lemma OwnSays(fs: FileSystem, root: DirKey, name: string, f: Tree, x: Ref)
    requires WellFormed(fs) && Authoritative(fs, root, name, f) && Rooted(f, DirRef(root)) && x in f
    ensures x in Owns(f, SelfMap(fs))
    ensures var t := Owns(f, SelfMap(fs))[x];
      && t.apparent == OwnApparent(fs, root, f)(x)
      && t.alloc == OwnAlloc(fs, root, f)(x) + DirAlloc(fs)(x)
      && t.files == (if IsFileRef(fs, x) then 1 else 0) && t.dirs == (if x.DirRef? then 1 else 0)
  {
    NodesMeasured(fs, root, name, f);
    KindsKnown(fs, root, name, f, x);
    match x
    case DirRef(k) =>
      assert DirShown(fs, f, k);
    case LeafRef(k, n) =>
      assert LeafSays(fs, root, f, k, n);
      if IsFileRef(fs, x) {
        SizesKnown(fs, x);
      }
      hide Rooted, PathOf, BearsItsFile, Authoritative, WellFormed, SizesOf;
  }

  /** What every node brings. */
  ghost predicate OwnsSay(fs: FileSystem, root: DirKey, f: Tree, w: map<Ref, Totals>)
    requires Rooted(f, DirRef(root))
  {
    w.Keys == f.Keys && forall x {:trigger w[x]} :: x in f ==>
      && ApparentIn(w)(x) == OwnApparent(fs, root, f)(x)
      && AllocIn(w)(x) == OwnAlloc(fs, root, f)(x) + DirAlloc(fs)(x)
      && FilesIn(w)(x) == (if IsFileRef(fs, x) then 1 else 0) && DirsCountIn(w)(x) == (if x.DirRef? then 1 else 0)
  }

  lemma BytesOnce(fs: FileSystem, root: DirKey, name: string, f: Tree)
    requires Authoritative(fs, root, name, f) && Rooted(f, DirRef(root))
    ensures Sum(f.Keys, OwnApparent(fs, root, f)) == Sum(FilesShown(fs, f), ApparentOf(fs))
    ensures Sum(f.Keys, OwnAlloc(fs, root, f)) == Sum(FilesShown(fs, f), AllocOf(fs))
  {
    hide Rooted, Authoritative, SizesOf, BearsItsFile, FilesShown;
    var s, g := Bearers(fs, root, f), (x: Ref) => Named(fs, x);
    forall x, y | x in s && y in s && g(x) == g(y)
      ensures x == y
    {
      OneBearer(fs, root, name, f, x, y);
    }
    SumPart(f.Keys, s, OwnApparent(fs, root, f));
    SumPart(f.Keys, s, OwnAlloc(fs, root, f));
    BearersAreFiles(fs, root, name, f);
    SumImage(s, FilesShown(fs, f), g, OwnApparent(fs, root, f), ApparentOf(fs));
    SumImage(s, FilesShown(fs, f), g, OwnAlloc(fs, root, f), AllocOf(fs));
  }

  lemma CountsAndDirs(fs: FileSystem, root: DirKey, f: Tree, w: map<Ref, Totals>)
    requires Rooted(f, DirRef(root)) && OwnsSay(fs, root, f, w)
    ensures Sum(f.Keys, ApparentIn(w)) == Sum(f.Keys, OwnApparent(fs, root, f))
    ensures Sum(f.Keys, AllocIn(w)) == Sum(f.Keys, OwnAlloc(fs, root, f)) + Sum(DirsIn(f), DirAlloc(fs))
    ensures Sum(f.Keys, FilesIn(w)) == |set x | x in f && IsFileRef(fs, x)| && Sum(f.Keys, DirsCountIn(w)) == |DirsIn(f)|
  {
    hide Rooted, OwnApparent, OwnAlloc, IsFileRef;
    assert forall x :: x in f ==> x in w && w[x] == w[x];
    FiniteSum.SumAgrees(f.Keys, ApparentIn(w), OwnApparent(fs, root, f));
    SumDifference(f.Keys, AllocIn(w), DirAlloc(fs), OwnAlloc(fs, root, f));
    SumPart(f.Keys, DirsIn(f), DirAlloc(fs));
    var files := set x | x in f && IsFileRef(fs, x);
    SumPart(f.Keys, files, FilesIn(w));
    SumOnes(files, FilesIn(w));
    SumPart(f.Keys, DirsIn(f), DirsCountIn(w));
    SumOnes(DirsIn(f), DirsCountIn(w));
  }

  /** The root's totals, in terms of the distinct files. */
  lemma RootShowsFiles(fs: FileSystem, root: DirKey, name: string, f: Tree)
    requires WellFormed(fs) && Authoritative(fs, root, name, f)
    ensures RootSays(fs, root, f)
  {
    hide Canonical, Complete, PathOf, SizesOf, Bearers, FilesShown, Owns, IsNewest, ApparentIn, AllocIn, FilesIn, DirsCountIn;
    var w := Owns(f, SelfMap(fs));
    CompleteRooted(fs, root, f);
    KindsKnown(fs, root, name, f, DirRef(root));
    RootCountsAll(f, DirRef(root), SelfMap(fs));
    OwnsKnown(fs, root, name, f);
    SumByField(w, f.Keys);
    RootIsNewest(fs, root, name, f);
    BytesOnce(fs, root, name, f);
    CountsAndDirs(fs, root, f, w);
  }

  lemma OwnsKnown(fs: FileSystem, root: DirKey, name: string, f: Tree)
    requires WellFormed(fs) && Authoritative(fs, root, name, f) && Rooted(f, DirRef(root))
    ensures OwnsSay(fs, root, f, Owns(f, SelfMap(fs)))
  {
    hide Rooted, Authoritative, WellFormed, OwnApparent, OwnAlloc, DirAlloc, IsFileRef;
    var w := Owns(f, SelfMap(fs));
    forall x | x in f
      ensures x in w && ApparentIn(w)(x) == OwnApparent(fs, root, f)(x)
      ensures AllocIn(w)(x) == OwnAlloc(fs, root, f)(x) + DirAlloc(fs)(x)
      ensures FilesIn(w)(x) == (if IsFileRef(fs, x) then 1 else 0) && DirsCountIn(w)(x) == (if x.DirRef? then 1 else 0)
    {
      OwnSays(fs, root, name, f, x);
    }
  }
}
