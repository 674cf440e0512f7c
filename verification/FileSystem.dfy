/** A fixed file system, as the scan's policy filters it, and the one tree a finished scan of it may show. */
module FileSystem {
  import opened Options
  import opened PathOrder
  import opened Forest
  import opened Ordering
  import opened Relocation
  import opened AliasGraph
  import opened FileOwners

  /** What a directory entry turns out to be once it is measured and its alias, if any, resolved.
      A file without a key cannot appear under a second name. */
  datatype Entry =
    | FileEntry(key: Option<FileKey>, apparent: int, alloc: int, mtime: nat)
    | DirEntry(target: DirKey)
    | BadEntry

  /** The entries that can be read, and whether reading them ended in an error. */
  datatype Directory = Directory(alloc: int, mtime: nat, entries: map<string, Entry>, failed: bool)

  type FileSystem = map<DirKey, Directory>

  predicate Holds(fs: FileSystem, k: DirKey, n: string) {
    k in fs && n in fs[k].entries
  }

  function EntryAt(fs: FileSystem, k: DirKey, n: string): Entry
    requires Holds(fs, k, n)
  {
    fs[k].entries[n]
  }

  ghost predicate WellFormed(fs: FileSystem) {
    && (forall k, n {:trigger Holds(fs, k, n)} :: Holds(fs, k, n) ==>
        IsName(n) && (EntryAt(fs, k, n).DirEntry? ==> EntryAt(fs, k, n).target in fs))
    && (forall k, n, j, m {:trigger Holds(fs, k, n), Holds(fs, j, m)} :: Holds(fs, k, n) && Holds(fs, j, m) ==>
        SameFileSameBytes(EntryAt(fs, k, n), EntryAt(fs, j, m)))
  }

  predicate SameFileSameBytes(a: Entry, b: Entry) {
    a.FileEntry? && b.FileEntry? && a.key.Some? && a.key == b.key ==> a.apparent == b.apparent && a.alloc == b.alloc
  }

  /** Links are not followed: a directory has one entry, and the root has none. */
  ghost predicate Unfollowed(fs: FileSystem, root: DirKey) {
    && (forall k, n, j, m {:trigger Holds(fs, k, n), Holds(fs, j, m)} :: Holds(fs, k, n) && Holds(fs, j, m) ==>
        OneEntry(fs, k, n, j, m))
    && forall k, n {:trigger Holds(fs, k, n)} :: Holds(fs, k, n) ==> EntryAt(fs, k, n) != DirEntry(root)
  }

  predicate OneEntry(fs: FileSystem, k: DirKey, n: string, j: DirKey, m: string)
    requires Holds(fs, k, n) && Holds(fs, j, m)
  {
    EntryAt(fs, k, n).DirEntry? && EntryAt(fs, k, n) == EntryAt(fs, j, m) ==> k == j && n == m
  }

  /** The node that shows an entry: a directory has one node however many entries reach it. */
  function EntryRef(fs: FileSystem, k: DirKey, n: string): Ref
    requires Holds(fs, k, n)
  {
    if EntryAt(fs, k, n).DirEntry? then DirRef(EntryAt(fs, k, n).target) else LeafRef(k, n)
  }

  /** x hangs below a directory under the name of one of that directory's entries for x. */
  ghost predicate InPlace(fs: FileSystem, f: Tree, x: Ref) {
    && x in f && f[x].parent.Some? && f[x].parent.value.DirRef?
    && Holds(fs, f[x].parent.value.key, f[x].name)
    && EntryRef(fs, f[x].parent.value.key, f[x].name) == x
  }

  /** Exactly the entries of the shown directories are shown, each in place. */
  ghost predicate Complete(fs: FileSystem, root: DirKey, f: Tree) {
    && Rooted(f, DirRef(root))
    && (forall x {:trigger InPlace(fs, f, x)} :: x in f && x != DirRef(root) ==> InPlace(fs, f, x))
    && (forall k :: DirRef(k) in f ==> k in fs)
    && (forall k, n {:trigger Holds(fs, k, n)} :: DirRef(k) in f && Holds(fs, k, n) ==> EntryRef(fs, k, n) in f)
  }

  /** No entry of the same file has a lesser path than x. */
  ghost predicate LeastOfFile(fs: FileSystem, root: DirKey, f: Tree, key: FileKey, x: Ref)
    requires Rooted(f, DirRef(root)) && x in f
  {
    forall k, n {:trigger LeafRef(k, n)} :: LeafRef(k, n) in f && IsFile(fs, k, n, key) ==>
      !Less(PathOf(f, DirRef(root), LeafRef(k, n)), PathOf(f, DirRef(root), x))
  }

  predicate IsFile(fs: FileSystem, k: DirKey, n: string, key: FileKey) {
    Holds(fs, k, n) && EntryAt(fs, k, n).FileEntry? && EntryAt(fs, k, n).key == Some(key)
  }

  /** A measured leaf; a duplicate is flagged and empty, and a failed stat measures nothing. */
  function LeafNode(name: string, e: Entry, duplicate: bool): Node<Ref> {
    if e.FileEntry? then
      Node(name, false, 0,
           if duplicate then Totals(0, 0, 0, 0, e.mtime) else Totals(e.apparent, e.alloc, 0, 0, e.mtime),
           duplicate, false, None, [])
    else
      Node(name, false, 0, NOTHING, false, true, None, [])
  }

  /** v carries the measurements of leaf. */
  predicate MeasuredAs(v: Node<Ref>, leaf: Node<Ref>) {
    v.isDir == leaf.isDir && v.totals == leaf.totals && v.hardlink == leaf.hardlink && v.failed == leaf.failed
  }

  /** The leaf x is measured, and its bytes are its own exactly if it is the least path of its file. */
  ghost predicate LeafShown(fs: FileSystem, root: DirKey, f: Tree, k: DirKey, n: string)
    requires Rooted(f, DirRef(root)) && LeafRef(k, n) in f
  {
    && Holds(fs, k, n) && !EntryAt(fs, k, n).DirEntry?
    && var e := EntryAt(fs, k, n);
    && MeasuredAs(f[LeafRef(k, n)], LeafNode(n, e, IsDuplicate(fs, root, f, k, n)))
  }

  ghost predicate IsDuplicate(fs: FileSystem, root: DirKey, f: Tree, k: DirKey, n: string)
    requires Rooted(f, DirRef(root)) && LeafRef(k, n) in f && Holds(fs, k, n)
  {
    var e := EntryAt(fs, k, n);
    e.FileEntry? && e.key.Some? && !LeastOfFile(fs, root, f, e.key.value, LeafRef(k, n))
  }

  ghost predicate DirShown(fs: FileSystem, f: Tree, k: DirKey) {
    && DirRef(k) in f && k in fs
    && f[DirRef(k)].isDir && !f[DirRef(k)].hardlink && f[DirRef(k)].failed == fs[k].failed
    && NameSorted(f, f[DirRef(k)].children)
  }

  /** Own metadata of every directory of the file system. */
  ghost function SelfMap(fs: FileSystem): map<Ref, SelfMetadata> {
    map x | x in (set k | k in fs :: DirRef(k)) :: SelfMetadata(fs[x.key].alloc, fs[x.key].mtime)
  }

  /** The directory edges of the file system. */
  ghost function FsEdges(fs: FileSystem): Edges {
    map k | k in fs :: EdgeList(fs[k].entries)
  }

  ghost function EdgeList(entries: map<string, Entry>): (es: seq<Edge>)
    ensures forall e :: e in es <==> e.name in entries && entries[e.name] == DirEntry(e.target)
    decreases |entries|
  {
    if entries == map[] then []
    else
      assert entries.Keys != {};
      var n := Pick(entries.Keys);
      var rest := entries - {n};
      assert |rest.Keys| < |entries.Keys| by {
        assert rest.Keys == entries.Keys - {n};
      }
      var es := EdgeList(rest);
      if entries[n].DirEntry? then es + [Edge(n, entries[n].target)] else es
  }

  /** What the scan promises of its result: the tree shows the whole file system, every directory and
      every file's bytes at their least paths, children by name, and totals that count everything once. */
  ghost predicate Authoritative(fs: FileSystem, root: DirKey, name: string, f: Tree) {
    && Complete(fs, root, f)
    && f[DirRef(root)].name == name
    && Canonical(f, root, FsEdges(fs))
    && (forall k {:trigger DirShown(fs, f, k)} :: DirRef(k) in f ==> DirShown(fs, f, k))
    && (forall k, n {:trigger LeafShown(fs, root, f, k, n)} :: LeafRef(k, n) in f ==> LeafShown(fs, root, f, k, n))
    && Measured(f, DirRef(root), SelfMap(fs))
  }
}
