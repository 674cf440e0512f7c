/** Running an accepted plan: no step undermines what a later step was accepted for. */
module PlanRuns {
  import opened Options
  import opened PathOrder
  import opened PlanEffects
  import opened PlanValidator
  import opened PlanSoundness

  /** Bookkeeping of the symbolic state that holds as long as no hidden object is touched: what is
      present lies in what is present, a change shows on everything above it that the plan made, what is
      hidden was never changed, and what an operation created was changed. */
  ghost predicate TidyAt(fs0: Files, effects: seq<Effect>, created: set<Path>, fs: Files, p: Path) {
    var s := StateOf(fs0, effects, p);
    && (s.present && p != [] ==> StateOf(fs0, effects, Dir(p)).present)
    && (p in fs && !s.present ==> !s.changed)
    && (p in created ==> s.changed)
  }

  ghost predicate ChangeShows(fs0: Files, effects: seq<Effect>, a: Path, p: Path) {
    a < p && a !in fs0 && StateOf(fs0, effects, p).changed ==> StateOf(fs0, effects, a).changed
  }

  ghost predicate Tidy(fs0: Files, effects: seq<Effect>, created: set<Path>, fs: Files) {
    && (forall p {:trigger TidyAt(fs0, effects, created, fs, p)} :: TidyAt(fs0, effects, created, fs, p))
    && (forall a, p {:trigger ChangeShows(fs0, effects, a, p)} :: ChangeShows(fs0, effects, a, p))
  }

  lemma {:induction false} PresentAbove(fs0: Files, effects: seq<Effect>, created: set<Path>, fs: Files, a: Path, p: Path)
    requires Tidy(fs0, effects, created, fs) && a < p && StateOf(fs0, effects, p).present
    ensures StateOf(fs0, effects, a).present
  {
    hide StateOf;
    assert TidyAt(fs0, effects, created, fs, p);
    if a != Dir(p) {
      PresentAbove(fs0, effects, created, fs, a, Dir(p));
    }
  }

  lemma TidyRemove(fs0: Files, effects: seq<Effect>, created: set<Path>, fs: Files, fs2: Files, e: Effect)
    requires Sound(fs0, effects, fs) && Tidy(fs0, effects, created, fs)
    requires Removed(fs, fs2, e.path) && StateOf(fs0, effects, e.path).present
    requires e.kind == Remove && e.parentChange
    requires e.tree <==> StateOf(fs0, effects, e.path).objectKind == Some(Directory)
    ensures Tidy(fs0, effects + [e], created, fs2)
  {
    forall p
      ensures TidyAt(fs0, effects + [e], created, fs2, p)
    {
      TidyRemoveAt(fs0, effects, created, fs, fs2, e, p);
    }
    forall a, p
      ensures ChangeShows(fs0, effects + [e], a, p)
    {
      hide Sound, Removed, Tidy;
      Appended(fs0, effects, e, p);
      Appended(fs0, effects, e, a);
      TidyShows(fs0, effects, created, fs, a, p);
    }
  }

  lemma TidyShows(fs0: Files, effects: seq<Effect>, created: set<Path>, fs: Files, a: Path, p: Path)
    requires Tidy(fs0, effects, created, fs)
    ensures ChangeShows(fs0, effects, a, p)
  {
    hide StateOf;
  }

  lemma TidyRemoveAt(fs0: Files, effects: seq<Effect>, created: set<Path>, fs: Files, fs2: Files, e: Effect, p: Path)
    requires Sound(fs0, effects, fs) && Tidy(fs0, effects, created, fs)
    requires Removed(fs, fs2, e.path) && StateOf(fs0, effects, e.path).present
    requires e.kind == Remove && e.parentChange
    requires e.tree <==> StateOf(fs0, effects, e.path).objectKind == Some(Directory)
    ensures TidyAt(fs0, effects + [e], created, fs2, p)
  {
    Appended(fs0, effects, e, p);
    Appended(fs0, effects, e, Dir(p));
    assert TidyAt(fs0, effects, created, fs, p);
    assert Claims(fs0, effects, fs, e.path) && Claims(fs0, effects, fs, p);
    if p < e.path {
      PresentAbove(fs0, effects, created, fs, p, e.path);
    }
    if e.path < p && p in fs {
      NothingInside(fs, e.path, p);
    }
  }

  lemma TidyProduce(fs0: Files, effects: seq<Effect>, created: set<Path>, fs: Files, fs2: Files, e: Effect)
    requires Sound(fs0, effects, fs) && Tidy(fs0, effects, created, fs)
    requires Produced(fs, fs2, e.path) && StateOf(fs0, effects, Dir(e.path)).present
    requires e.kind == Produce && e.parentChange
    requires (forall q :: q in fs2 && q !in fs ==> q == e.path) || !StateOf(fs0, effects, e.path).changed
    ensures Tidy(fs0, effects + [e], created + {e.path}, fs2)
  {
    forall p
      ensures TidyAt(fs0, effects + [e], created + {e.path}, fs2, p)
    {
      TidyProduceAt(fs0, effects, created, fs, fs2, e, p);
    }
    forall a, p
      ensures ChangeShows(fs0, effects + [e], a, p)
    {
      hide Sound, Produced, Tidy;
      Appended(fs0, effects, e, p);
      Appended(fs0, effects, e, a);
      TidyShows(fs0, effects, created, fs, a, p);
    }
  }

  lemma TidyProduceAt(fs0: Files, effects: seq<Effect>, created: set<Path>, fs: Files, fs2: Files, e: Effect, p: Path)
    requires Sound(fs0, effects, fs) && Tidy(fs0, effects, created, fs)
    requires Produced(fs, fs2, e.path) && StateOf(fs0, effects, Dir(e.path)).present
    requires e.kind == Produce && e.parentChange
    requires (forall q :: q in fs2 && q !in fs ==> q == e.path) || !StateOf(fs0, effects, e.path).changed
    ensures TidyAt(fs0, effects + [e], created + {e.path}, fs2, p)
  {
    Appended(fs0, effects, e, p);
    Appended(fs0, effects, e, Dir(p));
    assert TidyAt(fs0, effects, created, fs, p);
    if p < e.path && p != Dir(e.path) {
      PresentAbove(fs0, effects, created, fs, p, Dir(e.path));
    }
    if e.path < p && p !in fs && !StateOf(fs0, effects, e.path).changed {
      DestinationWasEmpty(fs0, effects, fs, e.path);
      assert ChangeShows(fs0, effects, e.path, p);
    }
  }

  lemma TidyMutate(fs0: Files, effects: seq<Effect>, created: set<Path>, fs: Files, fs2: Files, e: Effect)
    requires Sound(fs0, effects, fs) && Tidy(fs0, effects, created, fs)
    requires Mutated(fs, fs2, e.path) && StateOf(fs0, effects, e.path).present
    requires e.kind == Mutate && !e.parentChange
    ensures Tidy(fs0, effects + [e], created + {e.path}, fs2)
  {
    forall p
      ensures TidyAt(fs0, effects + [e], created + {e.path}, fs2, p)
    {
      Appended(fs0, effects, e, p);
      Appended(fs0, effects, e, Dir(p));
      assert TidyAt(fs0, effects, created, fs, p);
    }
    forall a, p
      ensures ChangeShows(fs0, effects + [e], a, p)
    {
      TidyMutateShows(fs0, effects, created, fs, e, a, p);
    }
  }

  lemma TidyMutateShows(fs0: Files, effects: seq<Effect>, created: set<Path>, fs: Files, e: Effect, a: Path, p: Path)
    requires Tidy(fs0, effects, created, fs) && StateOf(fs0, effects, e.path).present
    requires e.kind == Mutate && !e.parentChange
    ensures ChangeShows(fs0, effects + [e], a, p)
  {
    Appended(fs0, effects, e, p);
    Appended(fs0, effects, e, a);
    TidyShows(fs0, effects, created, fs, a, p);
    if p == e.path && a < p && a !in fs0 {
      PresentAbove(fs0, effects, created, fs, a, p);
      if !StateOf(fs0, effects, a).changed {
        UnchangedIsInitial(fs0, effects, a);
      }
    }
  }

  lemma TidyFewer(fs0: Files, effects: seq<Effect>, created: set<Path>, fewer: set<Path>, fs: Files)
    requires Tidy(fs0, effects, created, fs) && fewer <= created
    ensures Tidy(fs0, effects, fewer, fs)
  {
    forall p
      ensures TidyAt(fs0, effects, fewer, fs, p)
    {
      assert TidyAt(fs0, effects, created, fs, p);
    }
    forall a, p
      ensures ChangeShows(fs0, effects, a, p)
    {
      TidyShows(fs0, effects, created, fs, a, p);
    }
  }

  /** What applyPlan remembers as created by an operation. */
  function CreatedBy(op: Operation): set<Path> {
    if AllowsMissingSource(op.action) then {op.source}
    else if op.destination.Some? then {op.destination.value}
    else {}
  }

  lemma TidyMove(
      fs0: Files, effects: seq<Effect>, created: set<Path>, fs: Files, op: Operation, mid: Files, fs2: Files)
    requires Sound(fs0, effects, fs) && Tidy(fs0, effects, created, fs)
    requires StateOf(fs0, effects, op.source).present && (op.action == Move || op.action == Rename)
    requires op.destination.Some? && Target(op) != op.source && !(op.source < Target(op))
    requires !StateOf(fs0, effects, Target(op)).changed && Target(op) !in fs && Target(op) != [] && WellFormed(fs)
    requires StateOf(fs0, effects, Dir(Target(op))).present
    requires MovedVia(fs, op, mid, fs2)
    ensures Tidy(fs0, After(fs0, effects, op), created + {Target(op)}, fs2)
  {
    hide Sound, Removed, Produced, Mirrored, Tidy, StateOf;
    var s := StateOf(fs0, effects, op.source);
    var remove, produce := RemoveEffect(op, s), ProduceEffect(op, Target(op), s.objectKind, s.archiveValid);
    TidyRemove(fs0, effects, created, fs, mid, remove);
    RemoveKeeps(fs0, effects, fs, mid, remove);
    TargetUntouched(fs0, effects, fs, remove, Target(op), mid);
    TidyBulk(fs0, effects + [remove], created, mid, fs2, produce);
    assert After(fs0, effects, op) == effects + [remove] + [produce];
  }

  lemma TargetUntouched(fs0: Files, effects: seq<Effect>, fs: Files, e: Effect, d: Path, mid: Files)
    requires WellFormed(fs) && Removed(fs, mid, e.path) && e.kind == Remove
    requires d !in fs && d != e.path && !(e.path < d) && d != []
    requires !StateOf(fs0, effects, d).changed && StateOf(fs0, effects, Dir(d)).present
    ensures !StateOf(fs0, effects + [e], d).changed && StateOf(fs0, effects + [e], Dir(d)).present
  {
    hide StateOf;
    Appended(fs0, effects, e, d);
    Appended(fs0, effects, e, Dir(d));
    if d < e.path {
      NothingInside(fs, d, e.path);
    }
  }

  /** Production below a place that never held anything, even if its parents changed since. */
  lemma TidyBulk(fs0: Files, effects: seq<Effect>, created: set<Path>, fs: Files, fs2: Files, e: Effect)
    requires Sound(fs0, effects, fs) && Tidy(fs0, effects, created, fs)
    requires Produced(fs, fs2, e.path) && StateOf(fs0, effects, Dir(e.path)).present
    requires e.kind == Produce && e.parentChange && !StateOf(fs0, effects, e.path).changed
    ensures Tidy(fs0, effects + [e], created + {e.path}, fs2)
  {
    TidyProduce(fs0, effects, created, fs, fs2, e);
  }

  /** The touch that a guard would have refused: of something hidden. */
  ghost predicate TouchesUnseen(fs0: Files, effects: seq<Effect>, fs: Files, op: Operation) {
    op.action == Touch && !StateOf(fs0, effects, op.source).present && op.source in fs
  }

  lemma TidyTouch(
      fs0: Files, effects: seq<Effect>, created: set<Path>, fs: Files, op: Operation, fs2: Files)
    requires Sound(fs0, effects, fs) && Tidy(fs0, effects, created, fs) && op.action == Touch
    requires !TouchesUnseen(fs0, effects, fs, op) && StateOf(fs0, effects, Dir(op.source)).present
    requires if op.source in fs then Mutated(fs, fs2, op.source) else ProducedAlone(fs, fs2, op.source, File)
    ensures Tidy(fs0, After(fs0, effects, op), created + {op.source}, fs2)
  {
    assert Claims(fs0, effects, fs, op.source);
    hide Sound, Mutated, StateOf, Tidy;
    if op.source in fs {
      TidyMutate(fs0, effects, created, fs, fs2, MutateEffect(op));
    } else {
      TidyProduce(fs0, effects, created, fs, fs2, ProduceEffect(op, op.source, Some(File), false));
    }
  }

  /** One accepted operation that succeeds without touching anything hidden keeps the bookkeeping. */
  lemma StepTidy(
      fs0: Files, root: Path, unguarded: bool, effects: seq<Effect>, seen: set<string>, created: set<Path>,
      fs: Files, op: Operation, relaxed: bool, fs2: Files)
    requires Accepts(fs0, root, ConflictFail, unguarded, effects, seen, op)
    requires Sound(fs0, effects, fs) && Tidy(fs0, effects, created, fs) && Executed(fs, relaxed, op, fs2)
    requires !TouchesUnseen(fs0, effects, fs, op)
    ensures Tidy(fs0, After(fs0, effects, op), created + CreatedBy(op), fs2)
  {
    hide Sound, Removed, Produced, Mirrored, Mutated, StateOf, Inspectable, IsBlank, Tidy, TouchesUnseen;
    var s := StateOf(fs0, effects, op.source);
    assert created + {} == created;
    match op.action
    case Delete =>
      TidyRemove(fs0, effects, created, fs, fs2, RemoveEffect(op, s));
    case Move | Rename =>
      var mid :| MovedVia(fs, op, mid, fs2);
      NotInsideSource(fs0, effects, fs, op);
      TidyMove(fs0, effects, created, fs, op, mid, fs2);
    case Copy =>
      TidyBulk(fs0, effects, created, fs, fs2, ProduceEffect(op, Target(op), s.objectKind, s.archiveValid));
    case Mkdir =>
      TidyProduce(fs0, effects, created, fs, fs2, ProduceEffect(op, op.source, Some(Directory), false));
    case Touch =>
      TidyTouch(fs0, effects, created, fs, op, fs2);
    case Truncate | Chmod | Chown =>
      TidyMutate(fs0, effects, created, fs, fs2, MutateEffect(op));
      TidyFewer(fs0, After(fs0, effects, op), created + {op.source}, created, fs2);
    case Archive =>
      TidyBulk(fs0, effects, created, fs, fs2, ProduceEffect(op, Target(op), Some(File), true));
    case Extract =>
      TidyBulk(fs0, effects, created, fs, fs2, ProduceEffect(op, Target(op), Some(Directory), false));
  }

  lemma NotInsideSource(fs0: Files, effects: seq<Effect>, fs: Files, op: Operation)
    requires Sound(fs0, effects, fs) && op.destination.Some? && StateOf(fs0, effects, op.source).present
    requires DestinationFits(fs0, ConflictFail, true, effects, op) || DestinationFits(fs0, ConflictFail, false, effects, op)
    requires (op.action == Move || op.action == Rename) && Target(op) !in fs
    ensures !(op.source < Target(op)) && Target(op) != [] && WellFormed(fs)
  {
    assert Claims(fs0, effects, fs, op.source) && Claims(fs0, effects, fs, Dir(Target(op)));
    if op.source < Target(op) && op.source != Dir(Target(op)) {
      NothingInside(fs, op.source, Dir(Target(op)));
    }
  }

  // Whole runs.

  function AllCreated(ops: seq<Operation>): set<Path> {
    if ops == [] then {} else AllCreated(ops[..|ops| - 1]) + CreatedBy(ops[|ops| - 1])
  }

  /** The first |states| - 1 operations of the plan were executed successfully, one after the other. */
  ghost predicate Ran(fs0: Files, unguarded: bool, ops: seq<Operation>, states: seq<Files>) {
    && 0 < |states| <= |ops| + 1 && states[0] == fs0
    && forall i {:trigger RanStep(unguarded, ops, states, i)} :: 0 <= i < |states| - 1 ==> RanStep(unguarded, ops, states, i)
  }

  ghost predicate RanStep(unguarded: bool, ops: seq<Operation>, states: seq<Files>, i: nat)
    requires i < |states| - 1 && |states| <= |ops| + 1
  {
    Executed(states[i], unguarded || ops[i].source in AllCreated(ops[..i]), ops[i], states[i + 1])
  }

  /** After every successfully executed prefix of an accepted plan the symbolic state tells the truth,
      unless a step touched a hidden object that is no file. */
  lemma {:induction false} PrefixSound(
      fs0: Files, root: Path, unguarded: bool, ops: seq<Operation>, states: seq<Files>, i: nat)
    requires WellFormed(fs0) && AcceptedPlan(fs0, root, ConflictFail, unguarded, ops)
    requires Ran(fs0, unguarded, ops, states) && i < |states|
    requires forall j :: 0 <= j < i ==> !TouchesHidden(fs0, EffectsOf(fs0, ops[..j]), states[j], ops[j])
    ensures Sound(fs0, EffectsOf(fs0, ops[..i]), states[i])
  {
    hide Sound, Accepts, Executed, StateOf, TouchesHidden;
    if i == 0 {
      InitiallySound(fs0);
    } else {
      PrefixSound(fs0, root, unguarded, ops, states, i - 1);
      assert AcceptsAt(fs0, root, ConflictFail, unguarded, ops, i - 1) && RanStep(unguarded, ops, states, i - 1);
      PlanExtends(fs0, ops, i - 1);
      StepSound(fs0, root, unguarded, EffectsOf(fs0, ops[..i - 1]), IDs(ops[..i - 1]), states[i - 1], ops[i - 1],
                unguarded || ops[i - 1].source in AllCreated(ops[..i - 1]), states[i]);
    }
  }

  /** A touch that brings a guard touches something that was there before the plan: its guard was captured from that. */
  ghost predicate GuardsCaptured(fs0: Files, ops: seq<Operation>) {
    forall op :: op in ops && op.action == Touch && op.expected.Some? ==> op.source in fs0
  }

  /** In a guarded run nothing hidden is touched but by a touch that brings a guard for a path that was not there
      before the plan. */
  lemma GuardRefusesUnseen(
      fs0: Files, root: Path, effects: seq<Effect>, seen: set<string>, created: set<Path>, fs: Files, op: Operation)
    requires Accepts(fs0, root, ConflictFail, false, effects, seen, op)
    requires Tidy(fs0, effects, created, fs) && Preflight(fs, op.source in created, op)
    ensures TouchesUnseen(fs0, effects, fs, op) ==> op.expected.Some? && op.source !in fs0
  {
    hide Preflight, StateOf;
    assert TidyAt(fs0, effects, created, fs, op.source);
    if op.expected.None? {
      UnguardedIsCreated(fs, op.source in created, op);
    } else {
      UnchangedIsInitial(fs0, effects, op.source);
    }
  }

  lemma UnguardedIsCreated(fs: Files, relaxed: bool, op: Operation)
    requires Preflight(fs, relaxed, op) && op.expected.None?
    ensures op.source in fs ==> relaxed
  {
  }

  /** After every successfully executed prefix of an accepted, guarded plan the symbolic state tells the
      truth, whatever trees the plan copied, moved or extracted. */
  lemma {:induction false} GuardedPrefixSound(
      fs0: Files, root: Path, ops: seq<Operation>, states: seq<Files>, i: nat)
    requires WellFormed(fs0) && AcceptedPlan(fs0, root, ConflictFail, false, ops) && GuardsCaptured(fs0, ops)
    requires Ran(fs0, false, ops, states) && i < |states|
    ensures Sound(fs0, EffectsOf(fs0, ops[..i]), states[i])
    ensures Tidy(fs0, EffectsOf(fs0, ops[..i]), AllCreated(ops[..i]), states[i])
  {
    hide Sound, Accepts, StateOf, Tidy, TouchesUnseen, Executed, GuardsCaptured;
    if i == 0 {
      InitiallySound(fs0);
      InitiallyTidy(fs0);
    } else {
      GuardedPrefixSound(fs0, root, ops, states, i - 1);
      assert AcceptsAt(fs0, root, ConflictFail, false, ops, i - 1) && RanStep(false, ops, states, i - 1);
      PlanExtends(fs0, ops, i - 1);
      GuardCaptured(fs0, ops, i - 1);
      assert ops[..i][..i - 1] == ops[..i - 1];
      GuardedStep(fs0, root, EffectsOf(fs0, ops[..i - 1]), IDs(ops[..i - 1]), AllCreated(ops[..i - 1]),
                  states[i - 1], ops[i - 1], states[i]);
    }
  }

  lemma GuardCaptured(fs0: Files, ops: seq<Operation>, j: nat)
    requires GuardsCaptured(fs0, ops) && j < |ops|
    ensures ops[j].action == Touch && ops[j].expected.Some? ==> ops[j].source in fs0
  {
  }

  lemma InitiallyTidy(fs0: Files)
    requires WellFormed(fs0)
    ensures Tidy(fs0, [], {}, fs0)
  {
  }

  lemma ExecutedPreflight(fs: Files, relaxed: bool, op: Operation, fs2: Files)
    requires Executed(fs, relaxed, op, fs2)
    ensures Preflight(fs, relaxed, op)
  {
  }

  lemma GuardedStep(
      fs0: Files, root: Path, effects: seq<Effect>, seen: set<string>, created: set<Path>,
      fs: Files, op: Operation, fs2: Files)
    requires Accepts(fs0, root, ConflictFail, false, effects, seen, op)
    requires Sound(fs0, effects, fs) && Tidy(fs0, effects, created, fs)
    requires Executed(fs, op.source in created, op, fs2)
    requires op.action == Touch && op.expected.Some? ==> op.source in fs0
    ensures Sound(fs0, After(fs0, effects, op), fs2)
    ensures Tidy(fs0, After(fs0, effects, op), created + CreatedBy(op), fs2)
  {
    hide Sound, Tidy, Accepts, Executed, StateOf, Preflight;
    ExecutedPreflight(fs, op.source in created, op, fs2);
    GuardRefusesUnseen(fs0, root, effects, seen, created, fs, op);
    StepSound(fs0, root, false, effects, seen, fs, op, op.source in created, fs2);
    StepTidy(fs0, root, false, effects, seen, created, fs, op, op.source in created, fs2);
  }

  /** No earlier step invalidates a source guard: whatever object the guard of an accepted operation was
      captured from is still the object at the source when the operation's turn comes. */
  lemma GuardStillValid(
      fs0: Files, root: Path, unguarded: bool, effects: seq<Effect>, seen: set<string>, fs: Files, op: Operation)
    requires Accepts(fs0, root, ConflictFail, unguarded, effects, seen, op) && Sound(fs0, effects, fs)
    requires op.expected.Some? && op.source in fs0
    ensures op.source in fs && fs[op.source] == fs0[op.source]
  {
    assert Claims(fs0, effects, fs, op.source);
  }

  /** For an operation that does not depend on earlier ones, everything its dry run checked before the
      plan started still holds when its turn comes. */
  lemma PreflightStillHolds(
      fs0: Files, root: Path, unguarded: bool, effects: seq<Effect>, seen: set<string>, fs: Files, op: Operation,
      relaxed: bool)
    requires Accepts(fs0, root, ConflictFail, unguarded, effects, seen, op) && Sound(fs0, effects, fs)
    requires !Dependent(fs0, effects, op) && Preflight(fs0, unguarded, op) && (unguarded ==> relaxed)
    ensures Preflight(fs, relaxed, op)
  {
    assert Claims(fs0, effects, fs, op.source) && Claims(fs0, effects, fs, Dir(op.source));
    assert Claims(fs0, effects, fs, Target(op)) && Claims(fs0, effects, fs, Dir(Target(op)));
    assert Accounted(fs0, effects, fs, op.source) && Accounted(fs0, effects, fs, Target(op));
    UnchangedIsInitial(fs0, effects, op.source);
    hide StateOf, Sound, Inspectable;
    if op.destination.Some? {
      UnchangedIsInitial(fs0, effects, Target(op));
    }
  }

  /** In a guarded run of a prevalidated plan every independent operation starts from the conditions its
      dry run found, and its guard still names the object that is there. */
  lemma GuardedRunKeepsPreflight(fs0: Files, root: Path, ops: seq<Operation>, states: seq<Files>, i: nat)
    requires WellFormed(fs0) && AcceptedPlan(fs0, root, ConflictFail, false, ops) && GuardsCaptured(fs0, ops)
    requires DryRunsPass(fs0, false, ops) && Ran(fs0, false, ops, states) && i < |states| && i < |ops|
    ensures !Dependent(fs0, EffectsOf(fs0, ops[..i]), ops[i]) ==> Preflight(states[i], false, ops[i])
    ensures ops[i].expected.Some? && ops[i].source in fs0 ==>
      ops[i].source in states[i] && states[i][ops[i].source] == fs0[ops[i].source]
  {
    hide Sound, Tidy, Accepts, Dependent, Preflight, StateOf, Executed, GuardsCaptured;
    GuardedPrefixSound(fs0, root, ops, states, i);
    assert AcceptsAt(fs0, root, ConflictFail, false, ops, i) && DryRunAt(fs0, false, ops, i);
    var effects := EffectsOf(fs0, ops[..i]);
    if ops[i].expected.Some? && ops[i].source in fs0 {
      GuardStillValid(fs0, root, false, effects, IDs(ops[..i]), states[i], ops[i]);
    }
    if !Dependent(fs0, effects, ops[i]) {
      PreflightStillHolds(fs0, root, false, effects, IDs(ops[..i]), states[i], ops[i], false);
    }
  }

  // Without guards the claim can fail.

  const FOLDER := Object(Directory, 0)

  const BEFORE: Files := map[[] := FOLDER, ["d"] := FOLDER, ["d", "x"] := FOLDER]

  const COPIED: Files := map[[] := FOLDER, ["d"] := FOLDER, ["d", "x"] := FOLDER, ["e"] := FOLDER, ["e", "x"] := FOLDER]

  const COPY_D := Operation("1", Copy, ["d"], Some(["e"]), false, None, None)

  const TOUCH_X := Operation("2", Touch, ["e", "x"], None, false, None, None)

  /** Run unguarded, "copy d to e, touch e/x" is accepted and executed, and where the symbolic state then
      claims a file there is the directory that came with the copy. */
  lemma UnguardedTouchCanFail()
    ensures AcceptedPlan(BEFORE, [], ConflictFail, true, [COPY_D, TOUCH_X])
    ensures Ran(BEFORE, true, [COPY_D, TOUCH_X], [BEFORE, COPIED, COPIED])
    ensures StateOf(BEFORE, EffectsOf(BEFORE, [COPY_D, TOUCH_X]), ["e", "x"]).objectKind == Some(File)
    ensures COPIED[["e", "x"]].kind == Directory
  {
    hide Executed, Accepts, StateOf, Ran, RanStep;
    var ops := [COPY_D, TOUCH_X];
    assert ops[..0] == [] && ops[..1] == [COPY_D];
    var made := ProduceEffect(COPY_D, ["e"], Some(Directory), false);
    CopyAccepted();
    StatesAfterCopy(made);
    TouchAccepted(made);
    assert IDs([]) == {} && IDs([COPY_D]) == {"1"};
    assert AcceptsAt(BEFORE, [], ConflictFail, true, ops, 0);
    assert AcceptsAt(BEFORE, [], ConflictFail, true, ops, 1);
    CopyRuns();
    RunOfTwo(ops);
    var touched := ProduceEffect(TOUCH_X, ["e", "x"], Some(File), false);
    assert EffectsOf(BEFORE, ops) == [made] + [touched];
    Appended(BEFORE, [made], touched, ["e", "x"]);
  }

  lemma RunOfTwo(ops: seq<Operation>)
    requires ops == [COPY_D, TOUCH_X]
    requires Executed(BEFORE, true, COPY_D, COPIED) && Executed(COPIED, true, TOUCH_X, COPIED)
    ensures Ran(BEFORE, true, ops, [BEFORE, COPIED, COPIED])
  {
    hide Executed;
    assert RanStep(true, ops, [BEFORE, COPIED, COPIED], 0);
    assert RanStep(true, ops, [BEFORE, COPIED, COPIED], 1);
  }

  lemma CopyAccepted()
    ensures Accepts(BEFORE, [], ConflictFail, true, [], {}, COPY_D)
    ensures EffectsOf(BEFORE, [COPY_D]) == [ProduceEffect(COPY_D, ["e"], Some(Directory), false)]
  {
    assert Dir(["e"]) == [] && Dir(["d"]) == [] && ["d"][0] != ["e"][0];
    assert '1' in "1";
    assert [COPY_D][..0] == [];
    assert StateOf(BEFORE, [], ["d"]).objectKind == Some(Directory);
  }

  lemma TouchAccepted(made: Effect)
    requires made == ProduceEffect(COPY_D, ["e"], Some(Directory), false)
    ensures Accepts(BEFORE, [], ConflictFail, true, [made], {"1"}, TOUCH_X)
  {
    StatesAfterCopy(made);
    hide StateOf;
    assert Dir(["e"]) == [] && Dir(["e", "x"]) == ["e"];
    assert '2' in "2";
    assert Inspectable(BEFORE, ["e"]) && Inspectable(BEFORE, ["e", "x"]);
  }

  lemma StatesAfterCopy(made: Effect)
    requires made == ProduceEffect(COPY_D, ["e"], Some(Directory), false)
    ensures StateOf(BEFORE, [made], ["e", "x"]) == ABSENT
    ensures StateOf(BEFORE, [made], ["e"]).present && StateOf(BEFORE, [made], ["e"]).objectKind == Some(Directory)
  {
    hide StateOf;
    OneEffect(BEFORE, made, ["e", "x"]);
    OneEffect(BEFORE, made, ["e"]);
    NotBefore();
  }

  lemma NotBefore()
    ensures ["e", "x"] !in BEFORE && ["e"] !in BEFORE && ["e", "x"] != ["e"] && !(["e", "x"] < ["e"])
  {
    assert |["e", "x"]| == 2 && ["e", "x"][0] == "e" && ["d", "x"][0] == "d" && ["d"][0] == "d" && ["e"][0] == "e";
    assert |["e"]| == 1;
  }

  lemma OneEffect(fs: Files, e: Effect, p: Path)
    ensures StateOf(fs, [e], p) == AfterEffect(InitialState(fs, p), e, p)
  {
    assert [e][..0] == [];
    assert StateOf(fs, [], p) == InitialState(fs, p);
  }

  lemma StartsWith(a: string, r: Path, k: Path)
    requires k != []
    ensures [a] + r == k <==> a == k[0] && r == k[1..]
  {
    assert k == [k[0]] + k[1..];
    assert ([a] + r)[0] == a && ([a] + r)[1..] == r;
  }

  lemma CopyMirrors()
    ensures Mirrored(BEFORE, ["d"], COPIED, ["e"])
  {
    forall r: Path
      ensures (["d"] + r in BEFORE <==> ["e"] + r in COPIED)
      ensures ["d"] + r in BEFORE ==> COPIED[["e"] + r].kind == BEFORE[["d"] + r].kind
    {
      StartsWith("d", r, ["d"]);
      StartsWith("d", r, ["d", "x"]);
      StartsWith("e", r, ["d"]);
      StartsWith("e", r, ["d", "x"]);
      StartsWith("e", r, ["e"]);
      StartsWith("e", r, ["e", "x"]);
      assert ["d"][1..] == ["e"][1..] == [] && ["d", "x"][1..] == ["e", "x"][1..] == ["x"];
    }
  }

  lemma CopyProduces()
    ensures Produced(BEFORE, COPIED, ["e"])
  {
    assert Dir(["e"]) == [] && Dir(["e", "x"]) == ["e"] && Dir(["d"]) == [] && Dir(["d", "x"]) == ["d"];
    assert WellFormed(COPIED);
    assert ["e", "x"][..1] == ["e"];
  }

  lemma CopyRuns()
    ensures Executed(BEFORE, true, COPY_D, COPIED) && Executed(COPIED, true, TOUCH_X, COPIED)
  {
    assert Dir(["e"]) == [] && Dir(["e", "x"]) == ["e"] && Dir(["d"]) == [];
    CopyProduces();
    CopyMirrors();
    assert ["d"][0] != ["e"][0];
    assert !(["d"] <= ["e"]);
  }

  // Nor does a guard help that was captured elsewhere.

  const MOVED: Files := map[[] := FOLDER, ["e"] := FOLDER, ["e", "x"] := FOLDER]

  const EMPTIED: Files := map[[] := FOLDER]

  const MOVE_D := Operation("1", Move, ["d"], Some(["e"]), false, Some(0), None)

  const TOUCH_GUARDED := Operation("2", Touch, ["e", "x"], None, false, Some(0), None)

  /** "Move d to e, touch e/x", both guarded, the touch by what was captured at d/x: accepted and executed, and where
      the symbolic state then claims a file there is the directory that came with the move. */
  lemma GuardedTouchCanFail()
    ensures AcceptedPlan(BEFORE, [], ConflictFail, false, [MOVE_D, TOUCH_GUARDED])
    ensures Ran(BEFORE, false, [MOVE_D, TOUCH_GUARDED], [BEFORE, MOVED, MOVED])
    ensures StateOf(BEFORE, EffectsOf(BEFORE, [MOVE_D, TOUCH_GUARDED]), ["e", "x"]).objectKind == Some(File)
    ensures MOVED[["e", "x"]].kind == Directory
  {
    hide Executed, Accepts, StateOf, Ran, RanStep;
    var ops := [MOVE_D, TOUCH_GUARDED];
    assert ops[..0] == [] && ops[..1] == [MOVE_D];
    var gone, made := Effect(["d"], Remove, None, false, true, true, "1"), ProduceEffect(MOVE_D, ["e"], Some(Directory), false);
    MoveAccepted();
    StatesAfterMove(gone, made);
    GuardedTouchAccepted(gone, made);
    assert IDs([]) == {} && IDs([MOVE_D]) == {"1"};
    assert AcceptsAt(BEFORE, [], ConflictFail, false, ops, 0);
    assert AcceptsAt(BEFORE, [], ConflictFail, false, ops, 1);
    MoveRuns();
    RunOfMove(ops);
    var touched := ProduceEffect(TOUCH_GUARDED, ["e", "x"], Some(File), false);
    assert EffectsOf(BEFORE, ops) == [gone, made] + [touched];
    Appended(BEFORE, [gone, made], touched, ["e", "x"]);
  }

  lemma MoveAccepted()
    ensures Accepts(BEFORE, [], ConflictFail, false, [], {}, MOVE_D)
    ensures EffectsOf(BEFORE, [MOVE_D])
      == [Effect(["d"], Remove, None, false, true, true, "1"), ProduceEffect(MOVE_D, ["e"], Some(Directory), false)]
  {
    assert Dir(["e"]) == [] && Dir(["d"]) == [] && ["d"][0] != ["e"][0];
    assert '1' in "1";
    assert [MOVE_D][..0] == [];
    assert StateOf(BEFORE, [], ["d"]).objectKind == Some(Directory);
  }

  lemma StatesAfterMove(gone: Effect, made: Effect)
    requires gone == Effect(["d"], Remove, None, false, true, true, "1")
    requires made == ProduceEffect(MOVE_D, ["e"], Some(Directory), false)
    ensures StateOf(BEFORE, [gone, made], ["e", "x"]) == ABSENT
    ensures StateOf(BEFORE, [gone, made], ["e"]).present
    ensures StateOf(BEFORE, [gone, made], ["e"]).objectKind == Some(Directory)
  {
    hide StateOf;
    assert [gone] + [made] == [gone, made];
    OneEffect(BEFORE, gone, ["e", "x"]);
    OneEffect(BEFORE, gone, ["e"]);
    Appended(BEFORE, [gone], made, ["e", "x"]);
    Appended(BEFORE, [gone], made, ["e"]);
    NotBefore();
    assert ["d"][0] == "d" && !(["d"] <= ["e", "x"]) && !(["d"] <= ["e"]);
  }

  lemma GuardedTouchAccepted(gone: Effect, made: Effect)
    requires gone == Effect(["d"], Remove, None, false, true, true, "1")
    requires made == ProduceEffect(MOVE_D, ["e"], Some(Directory), false)
    ensures Accepts(BEFORE, [], ConflictFail, false, [gone, made], {"1"}, TOUCH_GUARDED)
  {
    StatesAfterMove(gone, made);
    hide StateOf;
    assert Dir(["e"]) == [] && Dir(["e", "x"]) == ["e"];
    assert '2' in "2";
    assert Inspectable(BEFORE, ["e"]) && Inspectable(BEFORE, ["e", "x"]);
  }

  lemma MoveRuns()
    ensures Executed(BEFORE, false, MOVE_D, MOVED)
    ensures forall relaxed :: Executed(MOVED, relaxed, TOUCH_GUARDED, MOVED)
  {
    assert Dir(["e"]) == [] && Dir(["e", "x"]) == ["e"] && Dir(["d"]) == [] && Dir(["d", "x"]) == ["d"];
    MoveRemoves();
    MoveProduces();
    MoveMirrors();
    assert MovedVia(BEFORE, MOVE_D, EMPTIED, MOVED);
    assert ["d"][0] != ["e"][0];
  }

  lemma MoveRemoves()
    ensures Removed(BEFORE, EMPTIED, ["d"])
  {
    assert ["d", "x"][..1] == ["d"];
  }

  lemma MoveProduces()
    ensures Produced(EMPTIED, MOVED, ["e"])
  {
    assert Dir(["e"]) == [] && Dir(["e", "x"]) == ["e"];
    assert ["e", "x"][..1] == ["e"];
  }

  lemma MoveMirrors()
    ensures Mirrored(BEFORE, ["d"], MOVED, ["e"])
  {
    forall r: Path
      ensures (["d"] + r in BEFORE <==> ["e"] + r in MOVED)
      ensures ["d"] + r in BEFORE ==> MOVED[["e"] + r].kind == BEFORE[["d"] + r].kind
    {
      StartsWith("d", r, ["d"]);
      StartsWith("d", r, ["d", "x"]);
      StartsWith("e", r, ["e"]);
      StartsWith("e", r, ["e", "x"]);
      assert ["d"][1..] == ["e"][1..] == [] && ["d", "x"][1..] == ["e", "x"][1..] == ["x"];
    }
  }

  lemma RunOfMove(ops: seq<Operation>)
    requires ops == [MOVE_D, TOUCH_GUARDED]
    requires Executed(BEFORE, false, MOVE_D, MOVED)
    requires forall relaxed :: Executed(MOVED, relaxed, TOUCH_GUARDED, MOVED)
    ensures Ran(BEFORE, false, ops, [BEFORE, MOVED, MOVED])
  {
    hide Executed;
    assert ops[..0] == [] && AllCreated([]) == {};
    assert RanStep(false, ops, [BEFORE, MOVED, MOVED], 0);
    assert RanStep(false, ops, [BEFORE, MOVED, MOVED], 1);
  }
}
