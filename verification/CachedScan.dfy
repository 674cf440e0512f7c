/** From a finished scan to its cached snapshot: what the scanner stores, the cache accepts. */
module CachedScan {
  import opened Forest
  import opened AliasGraph
  import opened FileSystem
  import opened Confluence
  import opened Snapshot
  import opened SnapshotCheck
  import opened SnapshotLaws

  /** Names that a cache accepts and sizes that are sizes. */
  ghost predicate Cacheable(fs: FileSystem) {
    && (forall k :: k in fs ==> fs[k].alloc >= 0)
    && forall k, n {:trigger Holds(fs, k, n)} :: Holds(fs, k, n) ==>
         LegalName(n) && var e := EntryAt(fs, k, n); e.FileEntry? ==> e.apparent >= 0 && e.alloc >= 0
  }

  lemma NodeOfScan(fs: FileSystem, root: DirKey, name: string, f: Tree, x: Ref)
    requires WellFormed(fs) && Cacheable(fs) && Authoritative(fs, root, name, f) && x in f
    ensures NodeSane(f[x]) && (x != DirRef(root) ==> LegalName(f[x].name))
  {
    hide Rooted, Measured, Canonical, LegalName;
    if x != DirRef(root) {
      var p := PlaceOf(fs, root, f, x);
    }
    match x
    case DirRef(k) => assert DirShown(fs, f, k);
    case LeafRef(k, n) => assert LeafShown(fs, root, f, k, n);
  }

  lemma ScanIsScannerTree(fs: FileSystem, root: DirKey, name: string, f: Tree)
    requires WellFormed(fs) && Cacheable(fs) && Authoritative(fs, root, name, f)
    ensures ScannerTree(f, DirRef(root), SelfMap(fs))
  {
    hide Rooted, Measured, Canonical, LegalName, Complete;
    CompleteRooted(fs, root, f);
    KindsKnown(fs, root, name, f, DirRef(root));
    forall x | x in f
      ensures NodeSane(f[x]) && (x != DirRef(root) ==> LegalName(f[x].name))
    {
      NodeOfScan(fs, root, name, f, x);
    }
    forall d, x, y | d in f && x in f[d].children && y in f[d].children && SameName(f, x, y)
      ensures x == y
    {
      SiblingNames(fs, root, f, d, x, y);
    }
  }

  /** The snapshot of every authoritative tree is accepted when it is read back. */
  lemma ScanIsAccepted(fs: FileSystem, root: DirKey, name: string, f: Tree, order: seq<Ref>, s: Cached)
    requires WellFormed(fs) && Cacheable(fs) && Authoritative(fs, root, name, f)
    requires DirRef(root) in f && SnapshotOf(f, DirRef(root), order, s)
    ensures LayoutValid(s) && Renumbered(f, order, Built(s.rows))
  {
    hide Authoritative, LayoutValid, Renumbered, SnapshotOf, ScannerTree;
    ScanIsScannerTree(fs, root, name, f);
    ScannerSnapshotAccepted(f, DirRef(root), SelfMap(fs), order, s);
    IsFlattening(f, DirRef(root), SelfMap(fs), order, s);
    TreeIsRooted(f, DirRef(root), SelfMap(fs));
    RebuildFlattened(f, DirRef(root), order, s.rows);
  }

  lemma TreeIsRooted(f: Tree, root: Ref, self: map<Ref, SelfMetadata>)
    requires ScannerTree(f, root, self)
    ensures Rooted(f, root)
  {
  }
}
