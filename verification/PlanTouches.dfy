/** A condition on the plan alone under which its symbolic state tells the truth about every run. */
module PlanTouches {
  import opened Options
  import opened PathOrder
  import opened PlanEffects
  import opened PlanValidator
  import opened PlanSoundness
  import opened PlanRuns

  /** What may have arrived with contents: destinations of copies, moves and extractions that were not removed since. */
  function Filled(ops: seq<Operation>): set<Path> {
    if ops == [] then {}
    else
      var op, before := ops[|ops| - 1], Filled(ops[..|ops| - 1]);
      FilledAfter(op, before)
  }

  function FilledAfter(op: Operation, before: set<Path>): set<Path> {
    match op.action
    case Delete => NotInside(before, op.source)
    case Move | Rename => NotInside(before, op.source) + {Target(op)}
    case Copy | Extract => before + {Target(op)}
    case _ => before
  }

  function NotInside(s: set<Path>, p: Path): set<Path> {
    set d | d in s && !(p <= d)
  }

  /** An object that the symbolic state does not know of lies in something that may have arrived with contents. */
  ghost predicate HiddenAt(fs0: Files, effects: seq<Effect>, filled: set<Path>, fs: Files, p: Path) {
    p in fs && !StateOf(fs0, effects, p).present && StateOf(fs0, effects, Dir(p)).present ==> Dir(p) in filled
  }

  ghost predicate Hidden(fs0: Files, effects: seq<Effect>, filled: set<Path>, fs: Files) {
    forall p {:trigger HiddenAt(fs0, effects, filled, fs, p)} :: HiddenAt(fs0, effects, filled, fs, p)
  }

  lemma HiddenRemove(fs0: Files, effects: seq<Effect>, filled: set<Path>, fs: Files, fs2: Files, e: Effect)
    requires Sound(fs0, effects, fs) && Hidden(fs0, effects, filled, fs)
    requires Removed(fs, fs2, e.path) && e.kind == Remove
    ensures Hidden(fs0, effects + [e], NotInside(filled, e.path), fs2)
  {
    forall p
      ensures HiddenAt(fs0, effects + [e], NotInside(filled, e.path), fs2, p)
    {
      Appended(fs0, effects, e, p);
      Appended(fs0, effects, e, Dir(p));
      assert HiddenAt(fs0, effects, filled, fs, p);
    }
  }

  lemma HiddenProduce(
      fs0: Files, effects: seq<Effect>, filled: set<Path>, fs: Files, fs2: Files, e: Effect, filled2: set<Path>)
    requires Sound(fs0, effects, fs) && Hidden(fs0, effects, filled, fs)
    requires Produced(fs, fs2, e.path) && e.kind == Produce && filled <= filled2
    requires (forall q :: q in fs2 && q !in fs ==> q == e.path) || e.path in filled2
    ensures Hidden(fs0, effects + [e], filled2, fs2)
  {
    forall p
      ensures HiddenAt(fs0, effects + [e], filled2, fs2, p)
    {
      Appended(fs0, effects, e, p);
      Appended(fs0, effects, e, Dir(p));
      assert HiddenAt(fs0, effects, filled, fs, p);
      assert Claims(fs0, effects, fs, Dir(p));
      if e.path < p && p !in fs {
        NewAccounted(fs, e.path, p);
      }
    }
  }

  lemma HiddenMutate(fs0: Files, effects: seq<Effect>, filled: set<Path>, fs: Files, fs2: Files, e: Effect)
    requires Hidden(fs0, effects, filled, fs) && Mutated(fs, fs2, e.path) && e.kind == Mutate && !e.parentChange
    ensures Hidden(fs0, effects + [e], filled, fs2)
  {
    forall p
      ensures HiddenAt(fs0, effects + [e], filled, fs2, p)
    {
      Appended(fs0, effects, e, p);
      Appended(fs0, effects, e, Dir(p));
      assert HiddenAt(fs0, effects, filled, fs, p);
    }
  }

  lemma HiddenMove(
      fs0: Files, effects: seq<Effect>, filled: set<Path>, fs: Files, op: Operation, mid: Files, fs2: Files)
    requires Sound(fs0, effects, fs) && Hidden(fs0, effects, filled, fs) && StateOf(fs0, effects, op.source).present
    requires (op.action == Move || op.action == Rename) && MovedVia(fs, op, mid, fs2)
    ensures Hidden(fs0, After(fs0, effects, op), FilledAfter(op, filled), fs2)
  {
    hide Sound, Removed, Produced, Mirrored, Hidden, StateOf;
    var s := StateOf(fs0, effects, op.source);
    var remove, produce := RemoveEffect(op, s), ProduceEffect(op, Target(op), s.objectKind, s.archiveValid);
    HiddenRemove(fs0, effects, filled, fs, mid, remove);
    RemoveKeeps(fs0, effects, fs, mid, remove);
    HiddenProduce(fs0, effects + [remove], NotInside(filled, op.source), mid, fs2, produce, FilledAfter(op, filled));
    assert After(fs0, effects, op) == effects + [remove] + [produce];
  }

  /** One accepted operation that succeeds without touching anything hidden. */
  lemma StepHidden(
      fs0: Files, root: Path, unguarded: bool, effects: seq<Effect>, seen: set<string>, filled: set<Path>,
      fs: Files, op: Operation, relaxed: bool, fs2: Files)
    requires Accepts(fs0, root, ConflictFail, unguarded, effects, seen, op)
    requires Sound(fs0, effects, fs) && Hidden(fs0, effects, filled, fs) && Executed(fs, relaxed, op, fs2)
    requires !TouchesUnseen(fs0, effects, fs, op)
    ensures Hidden(fs0, After(fs0, effects, op), FilledAfter(op, filled), fs2)
  {
    hide Sound, Removed, Produced, Mirrored, Mutated, StateOf, Inspectable, IsBlank, Hidden, NotInside;
    var s := StateOf(fs0, effects, op.source);
    match op.action
    case Delete => HiddenRemove(fs0, effects, filled, fs, fs2, RemoveEffect(op, s));
    case Move | Rename =>
      var mid :| MovedVia(fs, op, mid, fs2);
      HiddenMove(fs0, effects, filled, fs, op, mid, fs2);
    case Copy =>
      HiddenProduce(fs0, effects, filled, fs, fs2, ProduceEffect(op, Target(op), s.objectKind, s.archiveValid),
                    FilledAfter(op, filled));
    case Mkdir =>
      HiddenProduce(fs0, effects, filled, fs, fs2, ProduceEffect(op, op.source, Some(Directory), false), filled);
    case Touch =>
      HiddenTouch(fs0, effects, filled, fs, op, fs2);
    case Truncate | Chmod | Chown => HiddenMutate(fs0, effects, filled, fs, fs2, MutateEffect(op));
    case Archive =>
      HiddenProduce(fs0, effects, filled, fs, fs2, ProduceEffect(op, Target(op), Some(File), true), filled);
    case Extract =>
      HiddenProduce(fs0, effects, filled, fs, fs2, ProduceEffect(op, Target(op), Some(Directory), false),
                    FilledAfter(op, filled));
  }

  lemma HiddenTouch(fs0: Files, effects: seq<Effect>, filled: set<Path>, fs: Files, op: Operation, fs2: Files)
    requires Sound(fs0, effects, fs) && Hidden(fs0, effects, filled, fs) && op.action == Touch
    requires !TouchesUnseen(fs0, effects, fs, op)
    requires if op.source in fs then Mutated(fs, fs2, op.source) else ProducedAlone(fs, fs2, op.source, File)
    ensures Hidden(fs0, After(fs0, effects, op), filled, fs2)
  {
    assert Claims(fs0, effects, fs, op.source);
    hide Sound, Mutated, StateOf, Hidden;
    if op.source in fs {
      HiddenMutate(fs0, effects, filled, fs, fs2, MutateEffect(op));
    } else {
      HiddenProduce(fs0, effects, filled, fs, fs2, ProduceEffect(op, op.source, Some(File), false), filled);
    }
  }

  /** The plan touches nothing as missing directly inside what may have arrived with contents. */
  ghost predicate TouchesOutside(fs0: Files, ops: seq<Operation>) {
    forall j {:trigger TouchOutside(fs0, ops, j)} :: 0 <= j < |ops| ==> TouchOutside(fs0, ops, j)
  }

  predicate TouchOutside(fs0: Files, ops: seq<Operation>, j: nat)
    requires j < |ops|
  {
    ops[j].action == Touch && !StateOf(fs0, EffectsOf(fs0, ops[..j]), ops[j].source).present ==>
      Dir(ops[j].source) !in Filled(ops[..j])
  }

  /** Such a plan, guarded or not, never makes the symbolic state wrong: whatever run it is, after every prefix of it the
      symbolic state tells the truth. */
  lemma {:induction false} PlanSound(
      fs0: Files, root: Path, unguarded: bool, ops: seq<Operation>, states: seq<Files>, i: nat)
    requires WellFormed(fs0) && AcceptedPlan(fs0, root, ConflictFail, unguarded, ops) && TouchesOutside(fs0, ops)
    requires Ran(fs0, unguarded, ops, states) && i < |states|
    ensures Sound(fs0, EffectsOf(fs0, ops[..i]), states[i])
    ensures Hidden(fs0, EffectsOf(fs0, ops[..i]), Filled(ops[..i]), states[i])
  {
    hide Sound, Hidden, Accepts, Executed, StateOf, FilledAfter;
    if i == 0 {
      InitiallySound(fs0);
      InitiallyHidden(fs0);
    } else {
      PlanSound(fs0, root, unguarded, ops, states, i - 1);
      assert AcceptsAt(fs0, root, ConflictFail, unguarded, ops, i - 1) && RanStep(unguarded, ops, states, i - 1);
      assert TouchOutside(fs0, ops, i - 1);
      PlanExtends(fs0, ops, i - 1);
      assert ops[..i][..i - 1] == ops[..i - 1];
      var effects, op, fs := EffectsOf(fs0, ops[..i - 1]), ops[i - 1], states[i - 1];
      var relaxed := unguarded || op.source in AllCreated(ops[..i - 1]);
      NothingUnseen(fs0, root, unguarded, effects, IDs(ops[..i - 1]), Filled(ops[..i - 1]), fs, op);
      StepSound(fs0, root, unguarded, effects, IDs(ops[..i - 1]), fs, op, relaxed, states[i]);
      StepHidden(fs0, root, unguarded, effects, IDs(ops[..i - 1]), Filled(ops[..i - 1]), fs, op, relaxed, states[i]);
    }
  }

  lemma InitiallyHidden(fs0: Files)
    ensures Hidden(fs0, [], {}, fs0)
  {
  }

  lemma NothingUnseen(
      fs0: Files, root: Path, unguarded: bool, effects: seq<Effect>, seen: set<string>, filled: set<Path>,
      fs: Files, op: Operation)
    requires Accepts(fs0, root, ConflictFail, unguarded, effects, seen, op) && Hidden(fs0, effects, filled, fs)
    requires op.action == Touch && !StateOf(fs0, effects, op.source).present ==> Dir(op.source) !in filled
    ensures !TouchesUnseen(fs0, effects, fs, op) && !TouchesHidden(fs0, effects, fs, op)
  {
    hide StateOf, IsBlank, Inspectable;
    assert HiddenAt(fs0, effects, filled, fs, op.source);
  }

  /** What may have arrived with contents was made by the plan. */
  lemma {:induction false} FilledIsFromPlan(fs0: Files, ops: seq<Operation>, d: Path)
    requires d in Filled(ops)
    ensures StateOf(fs0, EffectsOf(fs0, ops), d).fromPlan
  {
    var init := ops[..|ops| - 1];
    if d in Filled(init) {
      FilledIsFromPlan(fs0, init, d);
    }
    assert ops[..|ops|] == ops;
    PlanExtends(fs0, ops, |ops| - 1);
    FilledStep(fs0, EffectsOf(fs0, init), Filled(init), ops[|ops| - 1], d);
  }

  lemma FilledStep(fs0: Files, effects: seq<Effect>, filled: set<Path>, op: Operation, d: Path)
    requires d in FilledAfter(op, filled) && (d in filled ==> StateOf(fs0, effects, d).fromPlan)
    ensures StateOf(fs0, After(fs0, effects, op), d).fromPlan
  {
    hide StateOf;
    var s := StateOf(fs0, effects, op.source);
    var made := OperationEffects(op, s);
    Appended(fs0, effects, made[0], d);
    if |made| == 2 {
      Appended(fs0, effects + [made[0]], made[1], d);
      assert effects + made == effects + [made[0]] + [made[1]];
    } else {
      assert made == [made[0]];
    }
  }

  /** A plan that touches nothing as missing directly inside something it made. */
  lemma TouchesNothingMade(fs0: Files, ops: seq<Operation>)
    requires forall j :: 0 <= j < |ops| && ops[j].action == Touch ==>
      (var effects, p := EffectsOf(fs0, ops[..j]), ops[j].source;
       StateOf(fs0, effects, p).present || !StateOf(fs0, effects, Dir(p)).fromPlan)
    ensures TouchesOutside(fs0, ops)
  {
    hide StateOf, Filled;
    forall j | 0 <= j < |ops|
      ensures TouchOutside(fs0, ops, j)
    {
      if Dir(ops[j].source) in Filled(ops[..j]) {
        FilledIsFromPlan(fs0, ops[..j], Dir(ops[j].source));
      }
    }
  }
}
