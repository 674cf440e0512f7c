/** What accepting a plan means in terms of the files and the plan itself. */
module PlanGuards {
  import opened Options
  import opened PathOrder
  import opened PlanEffects
  import opened PlanValidator
  import opened PlanSoundness
  import opened PlanRuns
  import opened PlanTouches

  // Guards.

  ghost predicate HaveDestinations(ops: seq<Operation>) {
    forall op :: op in ops && HasDestination(op.action) ==> op.destination.Some?
  }

  lemma AcceptedHaveDestinations(fs0: Files, root: Path, unguarded: bool, ops: seq<Operation>)
    requires AcceptedPlan(fs0, root, ConflictFail, unguarded, ops)
    ensures HaveDestinations(ops)
  {
    hide SourceFits, DestinationFits, EffectsOf, IDs, IsBlank;
    forall op | op in ops && HasDestination(op.action)
      ensures op.destination.Some?
    {
      var i :| 0 <= i < |ops| && ops[i] == op;
      assert AcceptsAt(fs0, root, ConflictFail, unguarded, ops, i);
    }
  }

  /** What the plan is said to have made was created by one of its operations. */
  lemma {:induction false} FromPlanIsCreated(fs0: Files, ops: seq<Operation>, p: Path)
    requires HaveDestinations(ops) && StateOf(fs0, EffectsOf(fs0, ops), p).fromPlan
    ensures p in AllCreated(ops)
  {
    hide StateOf;
    if ops == [] {
      StartsUnmade(fs0, p);
    } else {
      var init, op := ops[..|ops| - 1], ops[|ops| - 1];
      assert op in ops && forall o :: o in init ==> o in ops;
      assert ops[..|ops|] == ops;
      PlanExtends(fs0, ops, |ops| - 1);
      if p !in CreatedBy(op) {
        MadeBefore(fs0, EffectsOf(fs0, init), op, p);
        FromPlanIsCreated(fs0, init, p);
      }
    }
  }

  lemma StartsUnmade(fs0: Files, p: Path)
    ensures !StateOf(fs0, [], p).fromPlan && !StateOf(fs0, [], p).changed && StateOf(fs0, [], p) == InitialState(fs0, p)
  {
  }

  lemma MadeBefore(fs0: Files, effects: seq<Effect>, op: Operation, p: Path)
    requires HasDestination(op.action) ==> op.destination.Some?
    requires StateOf(fs0, After(fs0, effects, op), p).fromPlan && p !in CreatedBy(op)
    ensures StateOf(fs0, effects, p).fromPlan
  {
    hide StateOf;
    var made := OperationEffects(op, StateOf(fs0, effects, op.source));
    Appended(fs0, effects, made[0], p);
    if |made| == 2 {
      Appended(fs0, effects + [made[0]], made[1], p);
      assert effects + made == effects + [made[0]] + [made[1]];
    } else {
      assert made == [made[0]];
    }
  }

  /** In an accepted guarded plan an operation without a guard that needs its source works on what an earlier operation
      created; and one that does not need it does, or takes its source for missing. */
  lemma UnguardedIsOurs(fs0: Files, root: Path, ops: seq<Operation>, i: nat)
    requires AcceptedPlan(fs0, root, ConflictFail, false, ops) && i < |ops| && ops[i].expected.None?
    ensures ops[i].action !in {Mkdir, Touch} || StateOf(fs0, EffectsOf(fs0, ops[..i]), ops[i].source).present ==>
      ops[i].source in AllCreated(ops[..i])
  {
    hide StateOf, DestinationFits, IsBlank, Inspectable;
    assert AcceptsAt(fs0, root, ConflictFail, false, ops, i);
    var s := StateOf(fs0, EffectsOf(fs0, ops[..i]), ops[i].source);
    if ops[i].action !in {Mkdir, Touch} || s.present {
      AcceptedHaveDestinations(fs0, root, false, ops);
      assert forall op :: op in ops[..i] ==> op in ops;
      FromPlanIsCreated(fs0, ops[..i], ops[i].source);
    }
  }

  /** The operation creates nothing directly inside what may have arrived with contents. */
  predicate MakesOutside(ops: seq<Operation>, i: nat)
    requires i < |ops|
  {
    ops[i].action == Mkdir ==> Dir(ops[i].source) !in Filled(ops[..i])
  }

  /** In these files operation i would be refused for its missing guard: its source is there, and no earlier operation
      created it. */
  predicate MissesGuard(ops: seq<Operation>, i: nat, fs: Files)
    requires i < |ops|
  {
    ops[i].expected.None? && ops[i].source in fs && ops[i].source !in AllCreated(ops[..i])
  }

  /** That happens, whatever the files are in its turn, exactly to an operation that may do without a source, whose
      source the validator takes for missing although it is there. */
  lemma MissesGuardExactly(fs0: Files, root: Path, ops: seq<Operation>, i: nat, fs: Files)
    requires AcceptedPlan(fs0, root, ConflictFail, false, ops) && i < |ops|
    ensures MissesGuard(ops, i, fs) <==>
      && ops[i].expected.None? && ops[i].action in {Mkdir, Touch}
      && !StateOf(fs0, EffectsOf(fs0, ops[..i]), ops[i].source).present
      && ops[i].source in fs && ops[i].source !in AllCreated(ops[..i])
  {
    hide AcceptedPlan, StateOf, EffectsOf, AllCreated;
    if ops[i].expected.None? {
      UnguardedIsOurs(fs0, root, ops, i);
    }
  }

  /** So no operation of a guarded run is refused for a missing guard: if it has none and its source is there in its
      turn, an earlier operation created it. */
  lemma GuardsSuffice(fs0: Files, root: Path, ops: seq<Operation>, states: seq<Files>, i: nat)
    requires WellFormed(fs0) && AcceptedPlan(fs0, root, ConflictFail, false, ops) && TouchesOutside(fs0, ops)
    requires Ran(fs0, false, ops, states) && i < |states| && i < |ops| && MakesOutside(ops, i)
    ensures !MissesGuard(ops, i, states[i])
  {
    hide StateOf, Sound, DestinationFits, IsBlank, Inspectable, Filled, Ran, EffectsOf, AllCreated;
    if ops[i].expected.None? && ops[i].source in states[i] {
      PlanSound(fs0, root, false, ops, states, i);
      UnguardedIsOurs(fs0, root, ops, i);
      assert AcceptsAt(fs0, root, ConflictFail, false, ops, i);
      assert TouchOutside(fs0, ops, i);
      assert HiddenAt(fs0, EffectsOf(fs0, ops[..i]), Filled(ops[..i]), states[i], ops[i].source);
    }
  }

  const COPY_GUARDED := COPY_D.(expected := Some(0))

  /** Inside a tree that the plan copied that can happen: "copy d to e, touch e/x" is accepted with a guard for the copy
      alone, and its touch is refused in its turn, because e/x is there, has no guard, and no operation created it. */
  lemma GuardMissedInCopy()
    ensures AcceptedPlan(BEFORE, [], ConflictFail, false, [COPY_GUARDED, TOUCH_X])
    ensures Ran(BEFORE, false, [COPY_GUARDED, TOUCH_X], [BEFORE, COPIED])
    ensures MissesGuard([COPY_GUARDED, TOUCH_X], 1, COPIED)
    ensures !Preflight(COPIED, TOUCH_X.source in AllCreated([COPY_GUARDED]), TOUCH_X)
  {
    hide Executed, StateOf, Ran, RanStep, Accepts;
    var ops := [COPY_GUARDED, TOUCH_X];
    assert ops[..0] == [] && ops[..1] == [COPY_GUARDED] && [COPY_GUARDED][..0] == [];
    var made := ProduceEffect(COPY_GUARDED, ["e"], Some(Directory), false);
    GuardedCopyAccepted();
    TouchAfterCopy(made);
    assert IDs([]) == {} && IDs([COPY_GUARDED]) == {"1"};
    assert AcceptsAt(BEFORE, [], ConflictFail, false, ops, 0);
    assert AcceptsAt(BEFORE, [], ConflictFail, false, ops, 1);
    GuardedCopyRuns(ops);
    NotBefore();
    TouchMissesGuard();
  }

  lemma TouchMissesGuard()
    ensures MissesGuard([COPY_GUARDED, TOUCH_X], 1, COPIED)
  {
    var ops := [COPY_GUARDED, TOUCH_X];
    NotBefore();
    assert ops[..1] == [COPY_GUARDED] && [COPY_GUARDED][..0] == [];
    assert ops[1] == TOUCH_X;
    assert AllCreated([COPY_GUARDED]) == AllCreated([]) + CreatedBy(COPY_GUARDED);
    assert TOUCH_X.source in COPIED;
    assert TOUCH_X.source !in CreatedBy(COPY_GUARDED);
    assert TOUCH_X.expected.None?;
  }

  lemma GuardedCopyAccepted()
    ensures Accepts(BEFORE, [], ConflictFail, false, [], {}, COPY_GUARDED)
    ensures EffectsOf(BEFORE, [COPY_GUARDED]) == [ProduceEffect(COPY_GUARDED, ["e"], Some(Directory), false)]
  {
    assert Dir(["e"]) == [] && Dir(["d"]) == [] && ["d"][0] != ["e"][0];
    assert '1' in "1";
    assert [COPY_GUARDED][..0] == [];
    assert StateOf(BEFORE, [], ["d"]).objectKind == Some(Directory);
  }

  lemma TouchAfterCopy(made: Effect)
    requires made == ProduceEffect(COPY_D, ["e"], Some(Directory), false)
    ensures Accepts(BEFORE, [], ConflictFail, false, [made], {"1"}, TOUCH_X)
  {
    StatesAfterCopy(made);
    hide StateOf;
    assert Dir(["e"]) == [] && Dir(["e", "x"]) == ["e"];
    assert '2' in "2";
    assert Inspectable(BEFORE, ["e"]) && Inspectable(BEFORE, ["e", "x"]);
  }

  lemma GuardedCopyRuns(ops: seq<Operation>)
    requires ops == [COPY_GUARDED, TOUCH_X]
    ensures Ran(BEFORE, false, ops, [BEFORE, COPIED])
  {
    assert Dir(["e"]) == [] && Dir(["d"]) == [] && ["d"][0] != ["e"][0];
    CopyProduces();
    CopyMirrors();
    assert ops[..0] == [] && !(["d"] <= ["e"]);
    hide Produced, Mirrored;
    assert Executed(BEFORE, false, COPY_GUARDED, COPIED);
    assert RanStep(false, ops, [BEFORE, COPIED], 0);
  }

  // The first operation of a plan, judged by the files alone.

  /** An id, a source and a destination under the root, and no field that the action does not have. */
  predicate Legal(root: Path, op: Operation) {
    && (exists c :: c in op.id && !IsSpace(c)) && root <= op.source
    && (op.action in {Delete, Move, Rename} ==> op.source != root)
    && (op.destination.Some? <==> op.action in {Copy, Move, Rename, Archive, Extract})
    && (op.destination.Some? ==> root <= op.destination.value && op.destination.value != op.source)
    && (op.recursive ==> op.action == Delete)
    && (op.expectedDestination.Some? ==> op.destination.Some?)
  }

  /** What execution does not check again before it begins. */
  predicate Feasible(fs: Files, op: Operation) {
    && (op.action == Mkdir ==> op.source !in fs)
    && (op.action in {Move, Rename} && IsDir(fs, op.source) && op.destination.Some? ==> !(op.source < op.destination.value))
  }

  /** Its guard, if it has one, was captured from what is there. */
  predicate GuardHolds(fs: Files, op: Operation) {
    op.expected.Some? ==> op.source in fs && fs[op.source].stamp == op.expected.value
  }

  /** As long as no effect came before it, an operation is accepted, with a guard that holds, exactly if it is legal and
      execution on the real files would get past all its checks. */
  lemma FirstAccepted(fs: Files, root: Path, unguarded: bool, op: Operation)
    requires WellFormed(fs)
    ensures Accepts(fs, root, ConflictFail, unguarded, [], {}, op) && GuardHolds(fs, op) <==>
      Legal(root, op) && Feasible(fs, op) && Preflight(fs, unguarded, op)
    ensures !Dependent(fs, [], op)
  {
    StartsUnmade(fs, op.source);
    StartsUnmade(fs, Dir(op.source));
    StartsUnmade(fs, Target(op));
    StartsUnmade(fs, Dir(Target(op)));
    hide StateOf, IsSpace;
    assert IsBlank(op.id) <==> !exists c :: c in op.id && !IsSpace(c);
  }

  // What every accepted plan looks like.

  /** Ids differ, and every operation is legal. */
  lemma AcceptedIsLegal(fs: Files, root: Path, unguarded: bool, ops: seq<Operation>)
    requires AcceptedPlan(fs, root, ConflictFail, unguarded, ops)
    ensures forall i :: 0 <= i < |ops| ==> Legal(root, ops[i])
    ensures forall i, j :: 0 <= i < j < |ops| ==> ops[i].id != ops[j].id
  {
    hide SourceFits, DestinationFits, EffectsOf, IsSpace;
    forall i | 0 <= i < |ops|
      ensures Legal(root, ops[i])
    {
      assert AcceptsAt(fs, root, ConflictFail, unguarded, ops, i);
      assert IsBlank(ops[i].id) <==> !exists c :: c in ops[i].id && !IsSpace(c);
    }
    forall i, j | 0 <= i < j < |ops|
      ensures ops[i].id != ops[j].id
    {
      assert AcceptsAt(fs, root, ConflictFail, unguarded, ops, j);
      assert ops[i] in ops[..j];
    }
  }

  // Which operations skip their dry run.

  /** The paths that an operation changes. */
  function Changes(op: Operation): set<Path> {
    match op.action
    case Copy | Archive | Extract => {Target(op)}
    case Move | Rename => {op.source, Target(op)}
    case _ => {op.source}
  }

  ghost predicate ChangedNear(ops: seq<Operation>, p: Path) {
    exists j, q :: 0 <= j < |ops| && q in Changes(ops[j]) && (q <= p || p <= q)
  }

  ghost predicate MadeAt(ops: seq<Operation>, p: Path) {
    exists j :: 0 <= j < |ops| && p in Changes(ops[j])
  }

  /** Only an operation whose source was changed, above, at or inside it, by an earlier operation, or that is to create
      something directly in what an earlier one made. */
  lemma DependsOnEarlier(fs0: Files, ops: seq<Operation>, op: Operation)
    requires Dependent(fs0, EffectsOf(fs0, ops), op)
    ensures ChangedNear(ops, op.source)
      || (op.action in {Mkdir, Touch} && MadeAt(ops, Dir(op.source)))
      || (op.destination.Some? && MadeAt(ops, Dir(op.destination.value)))
  {
    hide StateOf, EffectsOf;
    ChangedByEarlier(fs0, ops, op.source);
    ChangedByEarlier(fs0, ops, Dir(op.source));
    ChangedByEarlier(fs0, ops, Dir(Target(op)));
  }

  lemma {:induction false} ChangedByEarlier(fs0: Files, ops: seq<Operation>, p: Path)
    ensures StateOf(fs0, EffectsOf(fs0, ops), p).changed ==> ChangedNear(ops, p)
    ensures StateOf(fs0, EffectsOf(fs0, ops), p).fromPlan ==> MadeAt(ops, p)
  {
    hide StateOf, Changes;
    if ops == [] {
      StartsUnmade(fs0, p);
    } else {
      var init, op := ops[..|ops| - 1], ops[|ops| - 1];
      ChangedByEarlier(fs0, init, p);
      assert ops[..|ops|] == ops;
      PlanExtends(fs0, ops, |ops| - 1);
      ChangesByOne(fs0, EffectsOf(fs0, init), op, p);
      assert ops[|ops| - 1] == op && forall j :: 0 <= j < |init| ==> ops[j] == init[j];
    }
  }

  lemma ChangesByOne(fs0: Files, effects: seq<Effect>, op: Operation, p: Path)
    ensures var s, t := StateOf(fs0, effects, p), StateOf(fs0, After(fs0, effects, op), p);
      && (t.changed ==> s.changed || exists q :: q in Changes(op) && (q <= p || p <= q))
      && (t.fromPlan ==> s.fromPlan || p in Changes(op))
  {
    hide StateOf;
    var made := OperationEffects(op, StateOf(fs0, effects, op.source));
    Appended(fs0, effects, made[0], p);
    assert made[0].path in Changes(op);
    if |made| == 2 {
      Appended(fs0, effects + [made[0]], made[1], p);
      assert effects + made == effects + [made[0]] + [made[1]];
      assert made[1].path in Changes(op);
    } else {
      assert made == [made[0]];
    }
  }

  // Archives.

  /** What the plan archived, and where it copied or moved that. */
  function Archives(ops: seq<Operation>): set<Path> {
    if ops == [] then {}
    else
      var op, before := ops[|ops| - 1], Archives(ops[..|ops| - 1]);
      match op.action
      case Archive => before + {Target(op)}
      case Copy | Move | Rename => if op.source in before then before + {Target(op)} else before
      case _ => before
  }

  lemma {:induction false} ArchivesKnown(fs0: Files, ops: seq<Operation>, p: Path)
    requires StateOf(fs0, EffectsOf(fs0, ops), p).archiveValid
    ensures p in Archives(ops)
  {
    hide StateOf;
    if ops == [] {
      StartsUnmade(fs0, p);
    } else {
      var init, op := ops[..|ops| - 1], ops[|ops| - 1];
      var effects := EffectsOf(fs0, init);
      var s := StateOf(fs0, effects, op.source);
      assert ops[..|ops|] == ops;
      PlanExtends(fs0, ops, |ops| - 1);
      if StateOf(fs0, effects, p).archiveValid {
        ArchivesKnown(fs0, init, p);
      } else {
        if s.archiveValid {
          ArchivesKnown(fs0, init, op.source);
        }
        ArchiveMade(fs0, effects, op, p);
      }
    }
  }

  lemma ArchiveMade(fs0: Files, effects: seq<Effect>, op: Operation, p: Path)
    requires StateOf(fs0, After(fs0, effects, op), p).archiveValid && !StateOf(fs0, effects, p).archiveValid
    ensures p == Target(op)
    ensures op.action == Archive || (op.action in {Copy, Move, Rename} && StateOf(fs0, effects, op.source).archiveValid)
  {
    hide StateOf;
    var made := OperationEffects(op, StateOf(fs0, effects, op.source));
    Appended(fs0, effects, made[0], p);
    if |made| == 2 {
      Appended(fs0, effects + [made[0]], made[1], p);
      assert effects + made == effects + [made[0]] + [made[1]];
    } else {
      assert made == [made[0]];
    }
  }

  /** An accepted plan extracts something of its own making only if that came from one of its archives. */
  lemma ExtractsArchives(fs0: Files, root: Path, unguarded: bool, ops: seq<Operation>, i: nat)
    requires AcceptedPlan(fs0, root, ConflictFail, unguarded, ops) && i < |ops| && ops[i].action == Extract
    requires StateOf(fs0, EffectsOf(fs0, ops[..i]), ops[i].source).fromPlan
    ensures ops[i].source in Archives(ops[..i])
  {
    hide StateOf, DestinationFits, IsBlank, Inspectable, EffectsOf, Archives;
    assert AcceptsAt(fs0, root, ConflictFail, unguarded, ops, i);
    ArchivesKnown(fs0, ops[..i], ops[i].source);
  }
}
