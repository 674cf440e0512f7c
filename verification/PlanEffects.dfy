/** The symbolic file system of the operation-plan validator, and what executing one operation does
    to the real one. */
module PlanEffects {
  import opened Options
  import opened PathOrder

  /** An absolute path, one component per element; [] is the file system root. p < q says that q lies
      strictly inside p. */
  type Path = seq<string>

  datatype Kind = Directory | File | Symlink | Other

  /** stamp stands for identity, size and modification time: everything a guard compares. */
  datatype Object = Object(kind: Kind, stamp: nat)

  type Files = map<Path, Object>

  datatype Action =
    Delete | Copy | Move | Rename | Mkdir | Touch | Truncate | Chmod | Chown | Archive | Extract

  datatype ConflictPolicy = ConflictFail | ConflictOverwrite

  datatype Operation = Operation(
    id: string, action: Action, source: Path, destination: Option<Path>, recursive: bool,
    expected: Option<nat>, expectedDestination: Option<Option<Object>>)

  predicate AllowsMissingSource(a: Action) {
    a == Mkdir || a == Touch
  }

  predicate HasDestination(a: Action) {
    a == Copy || a == Move || a == Rename || a == Archive || a == Extract
  }

  /** Every object lies in a directory. */
  ghost predicate WellFormed(fs: Files) {
    && [] in fs && fs[[]].kind == Directory
    && forall p :: p in fs && p != [] ==> Dir(p) in fs && fs[Dir(p)].kind == Directory
  }

  // The symbolic side.

  datatype EffectKind = Produce | Remove | Mutate

  datatype Effect = Effect(
    path: Path, kind: EffectKind, objectKind: Option<Kind>, archiveValid: bool,
    tree: bool, parentChange: bool, operationID: string)

  datatype PathState = PathState(
    present: bool, objectKind: Option<Kind>, fromPlan: bool, changed: bool, archiveValid: bool, operationID: string)

  const ABSENT := PathState(false, None, false, false, false, "")

  function InitialState(fs: Files, p: Path): PathState {
    if p in fs then ABSENT.(present := true, objectKind := Some(fs[p].kind)) else ABSENT
  }

  /** What one effect does to what is known about path p. */
  function AfterEffect(s: PathState, e: Effect, p: Path): PathState {
    if e.path == p then
      var t := s.(changed := true, operationID := e.operationID);
      match e.kind
      case Produce => t.(present := true, objectKind := e.objectKind, fromPlan := true, archiveValid := e.archiveValid)
      case Remove => t.(present := false, objectKind := None, fromPlan := false)
      case Mutate => t
    else if e.kind == Remove && e.tree && e.path < p then
      ABSENT.(changed := true, operationID := e.operationID)
    else if e.parentChange && p < e.path then
      s.(changed := true, operationID := e.operationID)
    else s
  }

  /** The symbolic state of p after a list of effects. */
  function StateOf(fs: Files, effects: seq<Effect>, p: Path): PathState {
    if effects == [] then InitialState(fs, p)
    else AfterEffect(StateOf(fs, effects[..|effects| - 1], p), effects[|effects| - 1], p)
  }

  function RemoveEffect(op: Operation, source: PathState): Effect {
    Effect(op.source, Remove, None, false, source.objectKind == Some(Directory), true, op.id)
  }

  function ProduceEffect(op: Operation, p: Path, kind: Option<Kind>, archiveValid: bool): Effect {
    Effect(p, Produce, kind, archiveValid, false, true, op.id)
  }

  function MutateEffect(op: Operation): Effect {
    Effect(op.source, Mutate, None, false, false, false, op.id)
  }

  function Target(op: Operation): Path {
    if op.destination.Some? then op.destination.value else []
  }

  /** operationEffects. */
  function OperationEffects(op: Operation, source: PathState): seq<Effect> {
    match op.action
    case Delete => [RemoveEffect(op, source)]
    case Move | Rename =>
      [RemoveEffect(op, source), ProduceEffect(op, Target(op), source.objectKind, source.archiveValid)]
    case Copy => [ProduceEffect(op, Target(op), source.objectKind, source.archiveValid)]
    case Mkdir => [ProduceEffect(op, op.source, Some(Directory), false)]
    case Touch => if source.present then [MutateEffect(op)] else [ProduceEffect(op, op.source, Some(File), false)]
    case Truncate | Chmod | Chown => [MutateEffect(op)]
    case Archive => [ProduceEffect(op, Target(op), Some(File), true)]
    case Extract => [ProduceEffect(op, Target(op), Some(Directory), false)]
  }

  // The real side.

  /** p may differ between the two file systems in its stamp only. */
  ghost predicate KindKept(fs: Files, fs2: Files, p: Path) {
    p in fs && p in fs2 && fs2[p].kind == fs[p].kind
  }

  /** p and everything inside it is gone; directories above it may have new times. */
  ghost predicate Removed(fs: Files, fs2: Files, p: Path) {
    && p in fs && p != [] && WellFormed(fs2)
    && (forall q :: q in fs2 <==> q in fs && !(p <= q))
    && (forall q {:trigger KindKept(fs, fs2, q)} :: q in fs2 ==> KindKept(fs, fs2, q))
    && (forall q {:trigger fs2[q]} :: q in fs2 && !(q < p) ==> fs2[q] == fs[q])
  }

  /** Something new is at p, where nothing was; if it is a directory it may have come with contents. */
  ghost predicate Produced(fs: Files, fs2: Files, p: Path) {
    && p !in fs && p in fs2 && WellFormed(fs2)
    && (forall q :: q in fs ==> q in fs2)
    && (forall q :: q in fs2 && q !in fs ==> p <= q)
    && (forall q {:trigger KindKept(fs, fs2, q)} :: q in fs ==> KindKept(fs, fs2, q))
    && (forall q {:trigger fs2[q]} :: q in fs && !(q < p) ==> fs2[q] == fs[q])
  }

  ghost predicate ProducedAlone(fs: Files, fs2: Files, p: Path, kind: Kind) {
    Produced(fs, fs2, p) && fs2[p].kind == kind && forall q :: q in fs2 && q !in fs ==> q == p
  }

  /** fs2 holds at dst a copy of what fs holds at src. */
  ghost predicate Mirrored(fs: Files, src: Path, fs2: Files, dst: Path) {
    forall r: Path :: (src + r in fs <==> dst + r in fs2) && (src + r in fs ==> fs2[dst + r].kind == fs[src + r].kind)
  }

  ghost predicate Mutated(fs: Files, fs2: Files, p: Path) {
    && p in fs && fs2.Keys == fs.Keys && fs2[p].kind == fs[p].kind
    && forall q {:trigger fs2[q]} :: q in fs && q != p ==> fs2[q] == fs[q]
  }

  predicate IsDir(fs: Files, p: Path) {
    p in fs && fs[p].kind == Directory
  }

  /** The checks that execute repeats before it mutates anything, under ConflictFail: guards, preflight
      and kinds. A dry run stops after them. */
  predicate Preflight(fs: Files, unguarded: bool, op: Operation) {
    && (AllowsMissingSource(op.action) || op.source in fs)
    && (op.expected.None? && !unguarded ==> op.source !in fs)
    && (op.expected.Some? ==> op.source in fs && fs[op.source].stamp == op.expected.value)
    && (HasDestination(op.action) ==>
          op.destination.Some? && Target(op) !in fs && IsDir(fs, Dir(Target(op))))
    && (op.expectedDestination.Some? ==> HasDestination(op.action) && op.expectedDestination == Some(None))
    && (AllowsMissingSource(op.action) ==> IsDir(fs, Dir(op.source)))
    && (op.action in {Touch, Truncate, Chmod, Chown, Extract} && op.source in fs ==> fs[op.source].kind != Symlink)
    && (op.action in {Copy, Archive} && IsDir(fs, op.source) ==> !(op.source <= Target(op)))
    && (op.action == Copy ==> fs[op.source].kind != Other)
    && (op.action == Extract ==> fs[op.source].kind == File)
  }

  /** op was executed successfully. */
  ghost predicate Executed(fs: Files, unguarded: bool, op: Operation, fs2: Files) {
    && Preflight(fs, unguarded, op)
    && match op.action
       case Delete => Removed(fs, fs2, op.source)
       case Move | Rename => exists mid :: MovedVia(fs, op, mid, fs2)
       case Copy =>
         Produced(fs, fs2, Target(op)) && Mirrored(fs, op.source, fs2, Target(op))
       case Mkdir => ProducedAlone(fs, fs2, op.source, Directory)
       case Touch => if op.source in fs then Mutated(fs, fs2, op.source) else ProducedAlone(fs, fs2, op.source, File)
       case Truncate | Chmod | Chown => Mutated(fs, fs2, op.source)
       case Archive => ProducedAlone(fs, fs2, Target(op), File)
       case Extract => Produced(fs, fs2, Target(op)) && fs2[Target(op)].kind == Directory
  }

  /** A move is a removal and a production of the same contents; mid is only a way to say so. */
  ghost predicate MovedVia(fs: Files, op: Operation, mid: Files, fs2: Files)
  {
    && Removed(fs, mid, op.source) && Produced(mid, fs2, Target(op))
    && Mirrored(fs, op.source, fs2, Target(op))
  }

  // The symbolic state describes the real one.

  /** What the symbolic state of p claims about the file system fs that the plan made of fs0. */
  ghost predicate Claims(fs0: Files, effects: seq<Effect>, fs: Files, p: Path) {
    var s := StateOf(fs0, effects, p);
    && (s.present ==> p in fs && s.objectKind == Some(fs[p].kind))
    && (p in fs0 && !s.present ==> p !in fs)
    && (p in fs0 && !s.changed ==> p in fs && fs[p] == fs0[p])
  }

  /** An object the symbolic state does not know about arrived inside something the plan produced. */
  ghost predicate Accounted(fs0: Files, effects: seq<Effect>, fs: Files, p: Path) {
    p in fs && !StateOf(fs0, effects, p).present ==>
      p != [] && (StateOf(fs0, effects, Dir(p)).fromPlan || !StateOf(fs0, effects, Dir(p)).present)
  }

  ghost predicate Sound(fs0: Files, effects: seq<Effect>, fs: Files) {
    && WellFormed(fs0) && WellFormed(fs)
    && (forall p {:trigger Claims(fs0, effects, fs, p)} :: Claims(fs0, effects, fs, p))
    && (forall p {:trigger Accounted(fs0, effects, fs, p)} :: Accounted(fs0, effects, fs, p))
  }

  lemma Appended(fs0: Files, effects: seq<Effect>, e: Effect, p: Path)
    ensures StateOf(fs0, effects + [e], p) == AfterEffect(StateOf(fs0, effects, p), e, p)
  {
    assert (effects + [e])[..|effects|] == effects;
  }

  /** Nothing lies inside a path that is missing or is no directory. */
  lemma {:induction false} NothingInside(fs: Files, p: Path, q: Path)
    requires WellFormed(fs) && q in fs && p < q
    ensures p in fs && fs[p].kind == Directory
  {
    if Dir(q) != p {
      NothingInside(fs, p, Dir(q));
    }
  }

  lemma InitiallySound(fs0: Files)
    requires WellFormed(fs0)
    ensures Sound(fs0, [], fs0)
  {
  }

  /** Removing what the symbolic state knows to be there. */
  lemma RemoveKeeps(fs0: Files, effects: seq<Effect>, fs: Files, fs2: Files, e: Effect)
    requires Sound(fs0, effects, fs) && Removed(fs, fs2, e.path) && StateOf(fs0, effects, e.path).present
    requires e.kind == Remove && e.parentChange
    requires e.tree <==> StateOf(fs0, effects, e.path).objectKind == Some(Directory)
    ensures Sound(fs0, effects + [e], fs2)
  {
    assert Claims(fs0, effects, fs, e.path);
    forall p
      ensures Claims(fs0, effects + [e], fs2, p) && Accounted(fs0, effects + [e], fs2, p)
    {
      Appended(fs0, effects, e, p);
      Appended(fs0, effects, e, Dir(p));
      assert Claims(fs0, effects, fs, p) && Accounted(fs0, effects, fs, p);
      if e.path < p && !e.tree && p in fs {
        NothingInside(fs, e.path, p);
      }
      if p in fs2 {
        assert KindKept(fs, fs2, p);
      }
    }
  }

  /** Producing something where nothing was, or a whole tree where nothing ever was. */
  lemma ProduceKeeps(fs0: Files, effects: seq<Effect>, fs: Files, fs2: Files, e: Effect)
    requires Sound(fs0, effects, fs) && Produced(fs, fs2, e.path)
    requires e.kind == Produce && e.parentChange && e.objectKind == Some(fs2[e.path].kind)
    requires e.path in fs0 ==> forall q :: q in fs2 && q !in fs ==> q == e.path
    ensures Sound(fs0, effects + [e], fs2)
  {
    forall p
      ensures Claims(fs0, effects + [e], fs2, p) && Accounted(fs0, effects + [e], fs2, p)
    {
      Appended(fs0, effects, e, p);
      Appended(fs0, effects, e, Dir(p));
      assert Claims(fs0, effects, fs, p) && Accounted(fs0, effects, fs, p);
      if p in fs {
        assert KindKept(fs, fs2, p);
      }
      if e.path < p && p in fs0 {
        NothingInside(fs0, e.path, p);
      }
      assert Claims(fs0, effects, fs, Dir(p));
      if e.path < p && p !in fs {
        NewAccounted(fs, e.path, p);
      }
    }
  }

  lemma NewAccounted(fs: Files, p: Path, q: Path)
    requires WellFormed(fs) && p < q && p !in fs
    ensures Dir(q) !in fs && p <= Dir(q)
  {
    if Dir(q) in fs && Dir(q) != p {
      NothingInside(fs, p, Dir(q));
    }
  }

  lemma MutateKeeps(fs0: Files, effects: seq<Effect>, fs: Files, fs2: Files, e: Effect)
    requires Sound(fs0, effects, fs) && Mutated(fs, fs2, e.path)
    requires e.kind == Mutate && !e.parentChange && !e.tree
    ensures Sound(fs0, effects + [e], fs2)
  {
    forall p
      ensures Claims(fs0, effects + [e], fs2, p) && Accounted(fs0, effects + [e], fs2, p)
    {
      Appended(fs0, effects, e, p);
      Appended(fs0, effects, e, Dir(p));
      assert Claims(fs0, effects, fs, p) && Accounted(fs0, effects, fs, p);
    }
  }
}
