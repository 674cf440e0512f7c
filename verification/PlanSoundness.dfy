/** What an accepted plan may rely on while it is executed. */
module PlanSoundness {
  import opened Options
  import opened PathOrder
  import opened PlanEffects
  import opened PlanValidator

  /** A path that no effect changed is as it was inspected. */
  lemma {:induction false} UnchangedIsInitial(fs0: Files, effects: seq<Effect>, p: Path)
    requires !StateOf(fs0, effects, p).changed
    ensures StateOf(fs0, effects, p) == InitialState(fs0, p)
  {
    if effects != [] {
      UnchangedIsInitial(fs0, effects[..|effects| - 1], p);
    }
  }

  /** A touch of a path that the symbolic state takes for missing although something that is no file is
      there: it arrived inside a tree that the plan copied, moved or extracted. */
  ghost predicate TouchesHidden(fs0: Files, effects: seq<Effect>, fs: Files, op: Operation) {
    op.action == Touch && !StateOf(fs0, effects, op.source).present && op.source in fs && fs[op.source].kind != File
  }

  function After(fs0: Files, effects: seq<Effect>, op: Operation): seq<Effect> {
    effects + OperationEffects(op, StateOf(fs0, effects, op.source))
  }

  /** Where something new may appear under an accepted destination, nothing ever was. */
  lemma DestinationWasEmpty(fs0: Files, effects: seq<Effect>, fs: Files, d: Path)
    requires Sound(fs0, effects, fs) && !StateOf(fs0, effects, d).changed && d !in fs
    ensures d !in fs0
  {
    assert Claims(fs0, effects, fs, d);
  }

  lemma DeleteSound(fs0: Files, effects: seq<Effect>, fs: Files, op: Operation, fs2: Files)
    requires Sound(fs0, effects, fs) && StateOf(fs0, effects, op.source).present
    requires Removed(fs, fs2, op.source) && op.action == Delete
    ensures Sound(fs0, After(fs0, effects, op), fs2)
  {
    hide Sound, Removed;
    RemoveKeeps(fs0, effects, fs, fs2, RemoveEffect(op, StateOf(fs0, effects, op.source)));
  }

  lemma MoveSound(fs0: Files, effects: seq<Effect>, fs: Files, op: Operation, mid: Files, fs2: Files)
    requires Sound(fs0, effects, fs) && StateOf(fs0, effects, op.source).present
    requires (op.action == Move || op.action == Rename) && op.destination.Some?
    requires !StateOf(fs0, effects, Target(op)).changed && Target(op) !in fs
    requires MovedVia(fs, op, mid, fs2)
    ensures Sound(fs0, After(fs0, effects, op), fs2)
  {
    var s := StateOf(fs0, effects, op.source);
    var remove, produce := RemoveEffect(op, s), ProduceEffect(op, Target(op), s.objectKind, s.archiveValid);
    DestinationWasEmpty(fs0, effects, fs, Target(op));
    assert Claims(fs0, effects, fs, op.source);
    assert op.source + [] == op.source && Target(op) + [] == Target(op);
    hide Sound, Removed, Produced, StateOf;
    RemoveKeeps(fs0, effects, fs, mid, remove);
    ProduceKeeps(fs0, effects + [remove], mid, fs2, produce);
    assert After(fs0, effects, op) == effects + [remove] + [produce];
  }

  lemma CopySound(fs0: Files, effects: seq<Effect>, fs: Files, op: Operation, fs2: Files)
    requires Sound(fs0, effects, fs) && StateOf(fs0, effects, op.source).present
    requires op.action == Copy && op.destination.Some?
    requires !StateOf(fs0, effects, Target(op)).changed && Target(op) !in fs
    requires Produced(fs, fs2, Target(op)) && Mirrored(fs, op.source, fs2, Target(op))
    ensures Sound(fs0, After(fs0, effects, op), fs2)
  {
    var s := StateOf(fs0, effects, op.source);
    DestinationWasEmpty(fs0, effects, fs, Target(op));
    assert Claims(fs0, effects, fs, op.source);
    assert op.source + [] == op.source && Target(op) + [] == Target(op);
    ProduceKeeps(fs0, effects, fs, fs2, ProduceEffect(op, Target(op), s.objectKind, s.archiveValid));
  }

  /** mkdir, a touch that creates, archive and extract. */
  lemma ProduceSound(
      fs0: Files, effects: seq<Effect>, fs: Files, op: Operation, p: Path, kind: Kind, valid: bool, fs2: Files)
    requires Sound(fs0, effects, fs) && Produced(fs, fs2, p) && fs2[p].kind == kind
    requires (forall q :: q in fs2 && q !in fs ==> q == p) || !StateOf(fs0, effects, p).changed
    requires OperationEffects(op, StateOf(fs0, effects, op.source)) == [ProduceEffect(op, p, Some(kind), valid)]
    ensures Sound(fs0, After(fs0, effects, op), fs2)
  {
    if !StateOf(fs0, effects, p).changed {
      DestinationWasEmpty(fs0, effects, fs, p);
    }
    ProduceKeeps(fs0, effects, fs, fs2, ProduceEffect(op, p, Some(kind), valid));
  }

  /** Touching something the symbolic state does not know turns its claim into "a file is there". */
  lemma HiddenTouchSound(fs0: Files, effects: seq<Effect>, fs: Files, op: Operation, fs2: Files)
    requires Sound(fs0, effects, fs) && op.action == Touch && !StateOf(fs0, effects, op.source).present
    requires Mutated(fs, fs2, op.source)
    ensures Sound(fs0, After(fs0, effects, op), fs2) <==> fs[op.source].kind == File
  {
    var e := ProduceEffect(op, op.source, Some(File), false);
    assert After(fs0, effects, op) == effects + [e];
    Appended(fs0, effects, e, op.source);
    if fs[op.source].kind == File {
      forall p
        ensures Claims(fs0, effects + [e], fs2, p) && Accounted(fs0, effects + [e], fs2, p)
      {
        Appended(fs0, effects, e, p);
        Appended(fs0, effects, e, Dir(p));
        assert Claims(fs0, effects, fs, p) && Accounted(fs0, effects, fs, p);
      }
    } else {
      assert !Claims(fs0, effects + [e], fs2, op.source);
    }
  }

  lemma MutateSound(fs0: Files, effects: seq<Effect>, fs: Files, op: Operation, fs2: Files)
    requires Sound(fs0, effects, fs) && Mutated(fs, fs2, op.source)
    requires OperationEffects(op, StateOf(fs0, effects, op.source)) == [MutateEffect(op)]
    ensures Sound(fs0, After(fs0, effects, op), fs2)
  {
    MutateKeeps(fs0, effects, fs, fs2, MutateEffect(op));
  }

  /** One accepted operation that succeeds keeps every claim of the symbolic state, except exactly when
      it touches a hidden object that is no file. */
  lemma StepSound(
      fs0: Files, root: Path, unguarded: bool, effects: seq<Effect>, seen: set<string>, fs: Files, op: Operation,
      relaxed: bool, fs2: Files)
    requires Accepts(fs0, root, ConflictFail, unguarded, effects, seen, op)
    requires Sound(fs0, effects, fs) && Executed(fs, relaxed, op, fs2)
    ensures Sound(fs0, After(fs0, effects, op), fs2) <==> !TouchesHidden(fs0, effects, fs, op)
  {
    hide Sound, Removed, Produced, Mirrored, Mutated, StateOf, Inspectable, IsBlank;
    match op.action
    case Delete => DeleteSound(fs0, effects, fs, op, fs2);
    case Move | Rename =>
      var mid :| MovedVia(fs, op, mid, fs2);
      MoveSound(fs0, effects, fs, op, mid, fs2);
    case Copy => CopySound(fs0, effects, fs, op, fs2);
    case Mkdir => ProduceSound(fs0, effects, fs, op, op.source, Directory, false, fs2);
    case Touch =>
      TouchSound(fs0, effects, fs, op, fs2);
    case Truncate | Chmod | Chown => MutateSound(fs0, effects, fs, op, fs2);
    case Archive => ProduceSound(fs0, effects, fs, op, Target(op), File, true, fs2);
    case Extract => ProduceSound(fs0, effects, fs, op, Target(op), Directory, false, fs2);
  }

  lemma TouchSound(fs0: Files, effects: seq<Effect>, fs: Files, op: Operation, fs2: Files)
    requires Sound(fs0, effects, fs) && op.action == Touch
    requires if op.source in fs then Mutated(fs, fs2, op.source) else ProducedAlone(fs, fs2, op.source, File)
    ensures Sound(fs0, After(fs0, effects, op), fs2) <==> !TouchesHidden(fs0, effects, fs, op)
  {
    assert Claims(fs0, effects, fs, op.source);
    hide Sound, Mutated, StateOf;
    if op.source !in fs {
      ProduceSound(fs0, effects, fs, op, op.source, File, false, fs2);
    } else if StateOf(fs0, effects, op.source).present {
      MutateSound(fs0, effects, fs, op, fs2);
    } else {
      HiddenTouchSound(fs0, effects, fs, op, fs2);
    }
  }
}
