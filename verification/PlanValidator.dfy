/** The operation-plan validator: a symbolic executor over the effects of the operations so far. */
module PlanValidator {
  import opened Options
  import opened PathOrder
  import opened PlanEffects

  datatype Refusal =
    | EmptyPlan | MissingID | DuplicateID | EscapesRoot | RefusesRoot | BadFields | SamePath
    | Uninspectable | SourceMissing | SourceExists | StaleGuard | GuardRequired | GuardOnProduced | UnvalidatedArchive
    | ParentUnavailable | DestinationChanged | DestinationExists | DestinationGuardRequired | StaleDestination
    | DestinationInsideSource | WrongKind | PreflightFailed

  /** unicode.IsSpace. */
  predicate IsSpace(c: char) {
    || '\U{9}' <= c <= '\U{D}' || c == ' ' || c == '\U{85}' || c == '\U{A0}' || c == '\U{1680}'
    || '\U{2000}' <= c <= '\U{200A}' || c in "\U{2028}\U{2029}\U{202F}\U{205F}\U{3000}"
  }

  /** strings.TrimSpace leaves nothing. */
  predicate IsBlank(s: string) {
    forall c :: c in s ==> IsSpace(c)
  }

  /** Lstat answers for p: it exists, or its nearest existing ancestor is a directory. */
  predicate Inspectable(fs: Files, p: Path) {
    p in fs || p == [] || (if Dir(p) in fs then fs[Dir(p)].kind == Directory else Inspectable(fs, Dir(p)))
  }

  function Looked(fs: Files, effects: seq<Effect>, p: Path): Result<PathState, Refusal> {
    if Inspectable(fs, p) then Ok(StateOf(fs, effects, p)) else Err(Uninspectable)
  }

  predicate FieldsFit(op: Operation) {
    && (HasDestination(op.action) <==> op.destination.Some?)
    && (op.expectedDestination.Some? ==> HasDestination(op.action))
    && (op.recursive ==> op.action == Delete)
  }

  predicate MatchesGuard(fs: Files, guard: Option<Option<Object>>, p: Path) {
    match guard
    case None => true
    case Some(None) => p !in fs
    case Some(Some(o)) => p in fs && fs[p] == o
  }

  predicate KindFits(a: Action, kind: Option<Kind>) {
    match a
    case Copy => kind.Some? && kind.value != Other
    case Extract => kind == Some(File)
    case Touch | Truncate | Chmod | Chown => kind != Some(Symlink)
    case _ => true
  }

  predicate Available(fs: Files, effects: seq<Effect>, p: Path) {
    && Inspectable(fs, p)
    && StateOf(fs, effects, p).present && StateOf(fs, effects, p).objectKind == Some(Directory)
  }

  /** What the source of an accepted operation must look like. */
  predicate SourceFits(fs: Files, unguarded: bool, effects: seq<Effect>, op: Operation) {
    var s := StateOf(fs, effects, op.source);
    && Inspectable(fs, op.source)
    && (s.present || AllowsMissingSource(op.action))
    && (op.action == Mkdir ==> !s.present)
    && (op.expected.Some? ==> !s.changed && !s.fromPlan)
    && (s.present && op.expected.None? && !unguarded ==> s.fromPlan)
    && (op.action == Extract && s.fromPlan ==> s.archiveValid)
    && (AllowsMissingSource(op.action) ==> Available(fs, effects, Dir(op.source)))
    && KindFits(op.action, s.objectKind)
  }

  /** What the destination of an accepted operation must look like. */
  predicate DestinationFits(fs: Files, policy: ConflictPolicy, unguarded: bool, effects: seq<Effect>, op: Operation) {
    op.destination.Some? ==>
      var d := op.destination.value;
      var s := StateOf(fs, effects, d);
      && Inspectable(fs, d) && !s.changed && Available(fs, effects, Dir(d))
      && (policy == ConflictFail ==> !s.present)
      && (policy == ConflictOverwrite && op.expectedDestination.None? ==> unguarded)
      && MatchesGuard(fs, op.expectedDestination, d)
      && !(StateOf(fs, effects, op.source).objectKind == Some(Directory) && op.source < d
           && op.action in {Copy, Move, Rename, Archive})
  }

  predicate PathsFit(root: Path, op: Operation) {
    && root <= op.source
    && !(op.source == root && op.action in {Delete, Move, Rename})
    && (op.destination.Some? ==> root <= op.destination.value && op.destination.value != op.source)
  }

  /** validateOperation accepts op after the given effects. */
  predicate Accepts(
    fs: Files, root: Path, policy: ConflictPolicy, unguarded: bool, effects: seq<Effect>, seen: set<string>, op: Operation)
  {
    && !IsBlank(op.id) && op.id !in seen && PathsFit(root, op) && FieldsFit(op)
    && SourceFits(fs, unguarded, effects, op) && DestinationFits(fs, policy, unguarded, effects, op)
  }

  /** The operation's outcome in preflight may differ from its outcome in its turn. */
  predicate Dependent(fs: Files, effects: seq<Effect>, op: Operation) {
    || StateOf(fs, effects, op.source).changed
    || (AllowsMissingSource(op.action) && StateOf(fs, effects, Dir(op.source)).fromPlan)
    || (op.destination.Some? && StateOf(fs, effects, Dir(op.destination.value)).fromPlan)
  }

  class PlanValidator {
    const root: Path
    const policy: ConflictPolicy
    const unguarded: bool
    /** The file system that Inspect reads: nothing is mutated while a plan is validated. */
    const files: Files
    var effects: seq<Effect>
    /** What Inspect said, per path. */
    var initial: map<Path, PathState>

    constructor (root: Path, policy: ConflictPolicy, unguarded: bool, files: Files)
      ensures this.root == root && this.policy == policy && this.unguarded == unguarded && this.files == files
      ensures Valid() && effects == []
    {
      this.root, this.policy, this.unguarded, this.files := root, policy, unguarded, files;
      effects, initial := [], map[];
    }

    ghost predicate Valid()
      reads this
    {
      forall p :: p in initial ==> Inspectable(files, p) && initial[p] == InitialState(files, p)
    }

    /** pathState: the cached inspection, folded over the effects so far. */
    method PathState(path: Path) returns (r: Result<PathState, Refusal>)
      requires Valid()
      modifies this`initial
      ensures Valid() && r == Looked(files, effects, path)
    {
      var state;
      if path in initial {
        state := initial[path];
      } else {
        if !Inspectable(files, path) {
          return Err(Uninspectable);
        }
        state := if path in files then ABSENT.(present := true, objectKind := Some(files[path].kind)) else ABSENT;
        initial := initial[path := state];
      }
      for i := 0 to |effects|
        invariant Valid() && Inspectable(files, path)
        invariant state == StateOf(files, effects[..i], path)
      {
        assert effects[..i + 1][..i] == effects[..i];
        var effect := effects[i];
        if effect.path == path {
          state := state.(changed := true, operationID := effect.operationID);
          match effect.kind {
            case Produce =>
              state := state.(present := true, objectKind := effect.objectKind, fromPlan := true,
                              archiveValid := effect.archiveValid);
            case Remove =>
              state := state.(present := false, objectKind := None, fromPlan := false);
            case Mutate =>
          }
        } else if effect.kind == Remove && effect.tree && effect.path < path {
          state := ABSENT.(changed := true, operationID := effect.operationID);
        } else if effect.parentChange && path < effect.path {
          state := state.(changed := true, operationID := effect.operationID);
        }
      }
      assert effects[..|effects|] == effects;
      return Ok(state);
    }

    /** validateOperation. */
    method ValidateOperation(op: Operation, seen: set<string>) returns (r: Result<bool, Refusal>)
      requires Valid()
      modifies this
      ensures Valid()
      ensures r.Ok? <==> Accepts(files, root, policy, unguarded, old(effects), seen, op)
      ensures r.Ok? ==> r.value == Dependent(files, old(effects), op)
      ensures r.Ok? ==> effects == old(effects) + OperationEffects(op, StateOf(files, old(effects), op.source))
      ensures r.Err? ==> effects == old(effects)
    {
      hide StateOf, Inspectable, OperationEffects, IsBlank;
      if IsBlank(op.id) { return Err(MissingID); }
      if op.id in seen { return Err(DuplicateID); }
      if !(root <= op.source) { return Err(EscapesRoot); }
      if op.source == root && (op.action == Delete || op.action == Move || op.action == Rename) {
        return Err(RefusesRoot);
      }
      if !FieldsFit(op) { return Err(BadFields); }
      if op.destination.Some? {
        if !(root <= op.destination.value) { return Err(EscapesRoot); }
        if op.destination.value == op.source { return Err(SamePath); }
      }
      var source :- PathState(op.source);
      var dependent := source.changed;
      if !AllowsMissingSource(op.action) && !source.present { return Err(SourceMissing); }
      if op.action == Mkdir && source.present { return Err(SourceExists); }
      if source.changed && op.expected.Some? { return Err(StaleGuard); }
      if source.present && op.expected.None? && !unguarded && !source.fromPlan { return Err(GuardRequired); }
      if source.fromPlan && op.expected.Some? { return Err(GuardOnProduced); }
      if op.action == Extract && source.fromPlan && !source.archiveValid { return Err(UnvalidatedArchive); }
      if AllowsMissingSource(op.action) {
        var parent :- PathState(Dir(op.source));
        if !parent.present || parent.objectKind != Some(Directory) { return Err(ParentUnavailable); }
        dependent := dependent || parent.fromPlan;
      }
      if op.destination.Some? {
        var inside :- ValidateDestination(op, source);
        dependent := dependent || inside;
      }
      if !KindFits(op.action, source.objectKind) { return Err(WrongKind); }
      effects := effects + OperationEffects(op, source);
      return Ok(dependent);
    }

    /** The destination part of validateOperation; the result says whether the plan produced its parent. */
    method ValidateDestination(op: Operation, source: PathState) returns (r: Result<bool, Refusal>)
      requires Valid() && op.destination.Some? && source == StateOf(files, effects, op.source)
      modifies this`initial
      ensures Valid()
      ensures r.Ok? <==> DestinationFits(files, policy, unguarded, effects, op)
      ensures r.Ok? ==> r.value == StateOf(files, effects, Dir(op.destination.value)).fromPlan
    {
      hide StateOf, Inspectable;
      var d := op.destination.value;
      var destination :- PathState(d);
      if destination.changed { return Err(DestinationChanged); }
      var parent :- PathState(Dir(d));
      if !parent.present || parent.objectKind != Some(Directory) { return Err(ParentUnavailable); }
      if policy == ConflictFail && destination.present { return Err(DestinationExists); }
      if policy == ConflictOverwrite && op.expectedDestination.None? && !unguarded {
        return Err(DestinationGuardRequired);
      }
      if op.expectedDestination.Some? && !MatchesGuard(files, op.expectedDestination, d) {
        return Err(StaleDestination);
      }
      if source.objectKind == Some(Directory) && op.source < d
         && (op.action == Copy || op.action == Move || op.action == Rename || op.action == Archive) {
        return Err(DestinationInsideSource);
      }
      return Ok(parent.fromPlan);
    }
  }

  /** The effects of the first operations of a plan, each judged by the state before it. */
  function EffectsOf(fs: Files, ops: seq<Operation>): seq<Effect> {
    if ops == [] then []
    else
      var before := EffectsOf(fs, ops[..|ops| - 1]);
      var op := ops[|ops| - 1];
      before + OperationEffects(op, StateOf(fs, before, op.source))
  }

  function IDs(ops: seq<Operation>): set<string> {
    set op | op in ops :: op.id
  }

  ghost predicate AcceptsAt(
    fs: Files, root: Path, policy: ConflictPolicy, unguarded: bool, ops: seq<Operation>, i: nat)
    requires i < |ops|
  {
    Accepts(fs, root, policy, unguarded, EffectsOf(fs, ops[..i]), IDs(ops[..i]), ops[i])
  }

  /** Every operation is accepted after the ones before it. */
  ghost predicate AcceptedPlan(fs: Files, root: Path, policy: ConflictPolicy, unguarded: bool, ops: seq<Operation>) {
    forall i {:trigger AcceptsAt(fs, root, policy, unguarded, ops, i)} ::
      0 <= i < |ops| ==> AcceptsAt(fs, root, policy, unguarded, ops, i)
  }

  /** Every operation whose outcome cannot depend on earlier ones passes a dry run on the real files. */
  ghost predicate DryRunsPass(fs: Files, unguarded: bool, ops: seq<Operation>) {
    forall i {:trigger DryRunAt(fs, unguarded, ops, i)} :: 0 <= i < |ops| ==> DryRunAt(fs, unguarded, ops, i)
  }

  ghost predicate DryRunAt(fs: Files, unguarded: bool, ops: seq<Operation>, i: nat)
    requires i < |ops|
  {
    Dependent(fs, EffectsOf(fs, ops[..i]), ops[i]) || Preflight(fs, unguarded, ops[i])
  }

  datatype PlanError = PlanError(index: nat, cause: Refusal)

  /** The first loop of prevalidatePlan: which operations are dependent. */
  method ValidateAll(root: Path, ops: seq<Operation>, unguarded: bool, files: Files)
    returns (r: Result<seq<bool>, PlanError>)
    ensures r.Ok? <==> AcceptedPlan(files, root, ConflictFail, unguarded, ops)
    ensures r.Ok? ==> |r.value| == |ops|
    ensures r.Ok? ==> forall i :: 0 <= i < |ops| ==> r.value[i] == Dependent(files, EffectsOf(files, ops[..i]), ops[i])
    ensures r.Err? ==> r.error.index < |ops|
  {
    hide Accepts, Dependent, OperationEffects, StateOf, IDs, EffectsOf, InitialState, Inspectable;
    var validator := new PlanValidator(root, ConflictFail, unguarded, files);
    var validated: seq<bool> := [];
    var seen: set<string> := {};
    PlanBegins(files, ops);
    for index := 0 to |ops|
      invariant validator.Valid() && validator.root == root && validator.policy == ConflictFail
      invariant validator.unguarded == unguarded && validator.files == files
      invariant fresh(validator) && validator.effects == EffectsOf(files, ops[..index]) && seen == IDs(ops[..index])
      invariant forall j :: 0 <= j < index ==> AcceptsAt(files, root, ConflictFail, unguarded, ops, j)
      invariant |validated| == index
      invariant forall j :: 0 <= j < index ==> validated[j] == Dependent(files, EffectsOf(files, ops[..j]), ops[j])
    {
      var item := validator.ValidateOperation(ops[index], seen);
      if item.Err? {
        assert !AcceptsAt(files, root, ConflictFail, unguarded, ops, index);
        return Err(PlanError(index, item.error));
      }
      PlanExtends(files, ops, index);
      seen := seen + {ops[index].id};
      validated := validated + [item.value];
    }
    return Ok(validated);
  }

  lemma PlanBegins(fs: Files, ops: seq<Operation>)
    ensures IDs(ops[..0]) == {} && EffectsOf(fs, ops[..0]) == []
  {
  }

  lemma PlanExtends(fs: Files, ops: seq<Operation>, i: nat)
    requires i < |ops|
    ensures EffectsOf(fs, ops[..i + 1])
      == EffectsOf(fs, ops[..i]) + OperationEffects(ops[i], StateOf(fs, EffectsOf(fs, ops[..i]), ops[i].source))
    ensures IDs(ops[..i + 1]) == IDs(ops[..i]) + {ops[i].id}
  {
    assert ops[..i + 1][..i] == ops[..i];
    assert ops[..i + 1] == ops[..i] + [ops[i]];
  }

  /** prevalidatePlan under ConflictFail. */
  method PrevalidatePlan(root: Path, ops: seq<Operation>, unguarded: bool, files: Files)
    returns (r: Result<(), PlanError>)
    ensures r.Ok? <==> ops != [] && AcceptedPlan(files, root, ConflictFail, unguarded, ops)
                       && DryRunsPass(files, unguarded, ops)
    ensures r.Err? && ops != [] ==> r.error.index < |ops|
  {
    hide AcceptedPlan, Dependent, EffectsOf, Preflight;
    if |ops| == 0 {
      return Err(PlanError(0, EmptyPlan));
    }
    var validated :- ValidateAll(root, ops, unguarded, files);
    for index := 0 to |ops|
      invariant forall j :: 0 <= j < index ==> DryRunAt(files, unguarded, ops, j)
    {
      if !validated[index] && !Preflight(files, unguarded, ops[index]) {
        assert !DryRunAt(files, unguarded, ops, index);
        return Err(PlanError(index, PreflightFailed));
      }
    }
    return Ok(());
  }
}
