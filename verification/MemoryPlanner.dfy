/** Lifetimes of tensors over a schedule (cpp/src/runtime/memory_planner.cpp, first half of plan_memory). */
module Lifetimes {
  import opened Basics
  import opened GraphIR
  import opened Shapes
  import opened Counting
  import opened Kahn
  import opened OperationOrder
  import opened ExecutionSchedule
  import opened TensorSizes

  datatype StorageClass = ExternalInput | ExternalImmutable | ArenaReusable | ArenaOutput

  datatype TensorLifetime = TensorLifetime(
    valueId: Id,
    kind: ValueKind,
    definitionIndex: nat,
    firstUse: Option<nat>,
    finalUse: nat,
    alignmentBytes: nat,
    byteSize: nat,
    alignedSize: nat,
    storage: StorageClass,
    external: bool,
    immutable: bool,
    protectedBuffer: bool,
    arenaOffset: Option<nat>)
  {
    /** lifetime_start and lifetime_end: an interval of schedule indices, both ends included. */
    function Start(): nat { definitionIndex }
    function End(): nat { finalUse }

    predicate LiveAt(index: nat) {
      Start() <= index <= End()
    }
  }

  // ----- definitions and uses over a schedule -----

  predicate DefinedAt(schedule: Schedule, id: Id, k: nat) {
    k < |schedule| && schedule[k].output == id
  }

  predicate UsedAt(schedule: Schedule, id: Id, k: nat) {
    k < |schedule| && id in schedule[k].inputs
  }

  ghost predicate Used(ops: seq<Operation>, id: Id) {
    exists c | 0 <= c < |ops| :: id in ops[c].inputs
  }

  /** What the planner relies on about the schedule. */
  ghost predicate FollowsDependencies(ops: seq<Operation>, schedule: Schedule) {
    && |schedule| == |ops|
    && (forall j, k | 0 <= j < k < |schedule| :: schedule[j].output != schedule[k].output)
    && (forall id, j, k | DefinedAt(schedule, id, j) && UsedAt(schedule, id, k) :: j < k)
    && (forall id :: Produced(ops, id) <==> exists k: nat :: DefinedAt(schedule, id, k))
    && (forall id :: Used(ops, id) <==> exists k: nat :: UsedAt(schedule, id, k))
  }

  lemma ScheduleFollowsDependencies(ops: seq<Operation>, schedule: Schedule)
    requires DistinctOutputs(ops) && IsScheduleOf(ops, schedule)
    ensures FollowsDependencies(ops, schedule)
  {
    var order :| LeastLinearExtension(Ids(ops), OrderEdges(ops, true), order) && ListsInOrder(ops, order, schedule);
    forall id, j: nat, k: nat | DefinedAt(schedule, id, j) && UsedAt(schedule, id, k) ensures j < k {
      DefinitionPrecedesUse(ops, order, schedule, id, j, k);
    }
    forall id ensures Produced(ops, id) <==> exists k: nat :: DefinedAt(schedule, id, k)
              ensures Used(ops, id) <==> exists k: nat :: UsedAt(schedule, id, k) {
      SameDefinitionsAndUses(ops, order, schedule, id);
    }
  }

  lemma DefinitionPrecedesUse(ops: seq<Operation>, order: seq<nat>, schedule: Schedule, id: Id, j: nat, k: nat)
    requires LinearExtension(|ops|, OrderEdges(ops, true), order) && ListsInOrder(ops, order, schedule)
    requires DefinedAt(schedule, id, j) && UsedAt(schedule, id, k)
    ensures j < k
  {
    assert schedule[j] == Scheduled(ops[order[j]], j) && schedule[k] == Scheduled(ops[order[k]], k);
    assert Feeds(ops, order[j], order[k]);
    EdgesPointForward(|ops|, OrderEdges(ops, true), order, j, k);
  }

  lemma SameDefinitionsAndUses(ops: seq<Operation>, order: seq<nat>, schedule: Schedule, id: Id)
    requires LinearExtension(|ops|, OrderEdges(ops, true), order) && ListsInOrder(ops, order, schedule)
    ensures Produced(ops, id) <==> exists k: nat :: DefinedAt(schedule, id, k)
    ensures Used(ops, id) <==> exists k: nat :: UsedAt(schedule, id, k)
  {
    DistinctBound(order, |ops|);
    if p: nat :| p < |ops| && ops[p].output == id {
      assert p in order && DefinedAt(schedule, id, Position(order, p));
    }
    if c: nat :| c < |ops| && id in ops[c].inputs {
      assert c in order && UsedAt(schedule, id, Position(order, c));
    }
    if k: nat :| DefinedAt(schedule, id, k) {
      assert ops[order[k]].output == id;
    }
    if k: nat :| UsedAt(schedule, id, k) {
      assert id in ops[order[k]].inputs;
    }
  }

  /** Builds definition_by_value; `duplicate` is set when a value is defined twice. */
  method IndexDefinitions(schedule: Schedule) returns (definitions: map<Id, nat>, duplicate: bool)
    ensures !duplicate ==> forall id :: id in definitions <==> exists k: nat :: DefinedAt(schedule, id, k)
    ensures !duplicate ==> forall id <- definitions :: DefinedAt(schedule, id, definitions[id])
    ensures duplicate ==> exists j, k | 0 <= j < k < |schedule| :: schedule[j].output == schedule[k].output
  {
    definitions, duplicate := map[], false;
    for i := 0 to |schedule|
      invariant forall k | 0 <= k < i :: schedule[k].output in definitions
      invariant forall id <- definitions :: definitions[id] < i && DefinedAt(schedule, id, definitions[id])
    {
      if schedule[i].output in definitions {
        assert schedule[definitions[schedule[i].output]].output == schedule[i].output;
        duplicate := true;
        return;
      }
      definitions := definitions[schedule[i].output := i];
    }
  }

  predicate Recorded(uses: map<Id, seq<nat>>, id: Id, k: nat) {
    id in uses && k in uses[id]
  }

  /** The uses recorded for a value are its use sites below `n`. */
  ghost predicate UsesBelow(schedule: Schedule, n: nat, id: Id, uses: map<Id, seq<nat>>) {
    && (id in uses ==> uses[id] != [])
    && forall k: nat :: Recorded(uses, id, k) <==> k < n && UsedAt(schedule, id, k)
  }

  /** Builds uses_by_value: one entry per operand occurrence. */
  method IndexUses(schedule: Schedule) returns (uses: map<Id, seq<nat>>)
    ensures forall id :: UsesBelow(schedule, |schedule|, id, uses)
  {
    uses := map[];
    for i := 0 to |schedule|
      invariant forall id :: id in uses ==> uses[id] != []
      invariant forall id :: UsesBelow(schedule, i, id, uses)
    {
      var inputs := schedule[i].inputs;
      ghost var before := uses;
      assert forall id :: UsesBelow(schedule, i, id, before);
      for j := 0 to |inputs|
        invariant forall id :: id in uses ==> uses[id] != []
        invariant forall id, k: nat ::
          Recorded(uses, id, k) <==> Recorded(before, id, k) || (k == i && id in inputs[..j])
      {
        assert inputs[..j + 1] == inputs[..j] + [inputs[j]];
        var sites := if inputs[j] in uses then uses[inputs[j]] else [];
        ghost var previous := uses;
        uses := uses[inputs[j] := sites + [i]];
        assert forall id, k: nat ::
          Recorded(uses, id, k) <==> Recorded(previous, id, k) || (k == i && id == inputs[j]);
      }
      assert inputs[..|inputs|] == inputs;
      ghost var next := i + 1;
      forall id ensures UsesBelow(schedule, next, id, uses) {
        assert UsesBelow(schedule, i, id, before);
      }
    }
  }

  /** std::minmax_element. */
  method MinMax(s: seq<nat>) returns (least: nat, greatest: nat)
    requires s != []
    ensures least in s && greatest in s
    ensures forall x <- s :: least <= x <= greatest
  {
    least, greatest := s[0], s[0];
    for i := 1 to |s|
      invariant least in s && greatest in s
      invariant forall j | 0 <= j < i :: least <= s[j] <= greatest
    {
      if s[i] < least {
        least := s[i];
      } else if s[i] > greatest {
        greatest := s[i];
      }
    }
  }

  // ----- the lifetime of one value -----

  predicate Declared(g: GraphData, v: Value) {
    v.id in g.outputIds || v.kind.OutputValue?
  }

  predicate IsExternal(g: GraphData, v: Value) {
    !Declared(g, v) && (v.kind.InputValue? || v.kind.ParameterValue? || v.kind.ConstantValue?)
  }

  /** `t` is the lifetime of `v`; its arena offset is decided later. */
  ghost predicate IsLifetime(g: GraphData, schedule: Schedule, alignment: nat, v: Value, t: TensorLifetime)
    requires alignment > 0
  {
    && t.valueId == v.id && t.kind == v.kind
    && DefinedAt(schedule, v.id, t.definitionIndex)
    && t.definitionIndex <= t.finalUse
    // first and last use
    && (t.firstUse.None? ==> forall k: nat :: !UsedAt(schedule, v.id, k))
    && (t.firstUse.Some? ==> UsedAt(schedule, v.id, t.firstUse.value))
    && (t.firstUse.Some? ==> forall k: nat | UsedAt(schedule, v.id, k) :: t.firstUse.value <= k)
    && (Declared(g, v) ==> t.finalUse == |schedule|)
    && (!Declared(g, v) && t.firstUse.None? ==> t.finalUse == t.definitionIndex)
    && (!Declared(g, v) && t.firstUse.Some? ==> UsedAt(schedule, v.id, t.finalUse))
    && (forall k: nat | UsedAt(schedule, v.id, k) :: k <= t.finalUse)
    // sizes
    && t.alignmentBytes == alignment
    && t.byteSize == ByteSize(v.descriptor) && t.byteSize > 0
    && t.alignedSize == AlignUp(t.byteSize, alignment) <= UINT64_MAX
    // storage
    && t.external == IsExternal(g, v)
    && t.immutable == (IsExternal(g, v) && !v.kind.InputValue?)
    && t.protectedBuffer == (Declared(g, v) || IsExternal(g, v))
    && t.storage == (if Declared(g, v) then ArenaOutput
                     else if v.kind.InputValue? then ExternalInput
                     else if IsExternal(g, v) then ExternalImmutable
                     else ArenaReusable)
  }

  /** The checks plan_memory makes on each value, in terms of the graph alone. */
  ghost predicate ValuePlannable(g: GraphData, alignment: nat, v: Value)
    requires alignment > 0
  {
    && Produced(g.operations, v.id)
    && Positive(v.descriptor.shape)
    && 0 <= ByteSize(v.descriptor) <= UINT64_MAX
    && AlignUp(ByteSize(v.descriptor), alignment) <= UINT64_MAX
    && (v.kind.IntermediateValue? ==> Declared(g, v) || Used(g.operations, v.id))
  }

  /**
   Computes the lifetime of one value. It fails exactly on the values that are not plannable;
   the "used before its scheduled definition" exit is never taken.
   */
  method ComputeLifetime(g: GraphData, schedule: Schedule, alignment: nat, v: Value,
                         definitions: map<Id, nat>, uses: map<Id, seq<nat>>)
    returns (r: Result<TensorLifetime>)
    requires 0 < alignment <= UINT64_MAX
    requires FollowsDependencies(g.operations, schedule)
    requires forall id :: id in definitions <==> exists k: nat :: DefinedAt(schedule, id, k)
    requires forall id <- definitions :: DefinedAt(schedule, id, definitions[id])
    requires forall id :: UsesBelow(schedule, |schedule|, id, uses)
    ensures r.Ok? <==> ValuePlannable(g, alignment, v)
    ensures r.Ok? ==> IsLifetime(g, schedule, alignment, v, r.value) && r.value.arenaOffset == None
  {
    if v.id !in definitions {
      return Err(FailedPrecondition);
    }
    var definition := definitions[v.id];
    for i := 0 to |v.descriptor.shape|
      invariant forall a | 0 <= a < i :: v.descriptor.shape[a] > 0
    {
      if v.descriptor.shape[i] <= 0 {
        return Err(FailedPrecondition);
      }
    }
    CountPositive(v.descriptor.shape);
    var bytes := CheckedByteSize(v.descriptor);
    if bytes.Err? {
      return Err(bytes.code);
    }
    var aligned := CheckedAlignUp(bytes.value, alignment);
    if aligned.Err? {
      return Err(aligned.code);
    }
    assert UsesBelow(schedule, |schedule|, v.id, uses);
    var firstUse, lastUse := None, None;
    if v.id in uses {
      var least, greatest := MinMax(uses[v.id]);
      assert Recorded(uses, v.id, least) && Recorded(uses, v.id, greatest);
      assert forall k: nat | UsedAt(schedule, v.id, k) :: Recorded(uses, v.id, k);
      firstUse, lastUse := Some(least), Some(greatest);
      if least < definition {
        return Err(FailedPrecondition);
      }
    }
    var declared := Declared(g, v);
    if v.kind.IntermediateValue? && lastUse.None? && !declared {
      assert !Used(g.operations, v.id);
      return Err(FailedPrecondition);
    }
    assert lastUse.Some? ==> Used(g.operations, v.id);
    var finalUse :=
      if declared then |schedule| else if lastUse.Some? then lastUse.value else definition;
    var storage, external, immutable, isProtected := ArenaReusable, false, false, false;
    if declared {
      storage, isProtected := ArenaOutput, true;
    } else if v.kind.InputValue? {
      storage, external, isProtected := ExternalInput, true, true;
    } else if v.kind.ParameterValue? || v.kind.ConstantValue? {
      storage, external, immutable, isProtected := ExternalImmutable, true, true, true;
    }
    return Ok(TensorLifetime(v.id, v.kind, definition, firstUse, finalUse, alignment,
                             bytes.value, aligned.value, storage, external, immutable,
                             isProtected, None));
  }
}
