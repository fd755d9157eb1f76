/** What a verified memory plan says to the runtime: an arena slot and a lifetime for every value. */
module ArenaLayout {
  import opened Basics
  import opened GraphIR
  import opened Shapes
  import opened Kahn
  import Counting
  import DivMod
  import opened OperationOrder
  import opened ExecutionSchedule
  import opened TensorSizes
  import opened Lifetimes
  import opened Blocks
  import opened MemoryPlanner
  import opened Sequential
  import opened SemanticVerifier
  import opened GraphInvariants

  const ALIGNMENT: nat := 64
  const FLOAT_BYTES: nat := 4

  /** Position in the arena in elements, and the schedule indices between which the value is needed. */
  datatype Slot = Slot(base: Option<nat>, first: nat, last: nat)

  predicate Overlap(a: Slot, b: Slot) {
    a.first <= b.last && b.first <= a.last
  }

  /** Slots lie inside the arena, and slots needed at the same time do not intersect. */
  ghost predicate Layout(types: Types, slots: map<Id, Slot>, size: nat) {
    && slots.Keys == types.Keys
    && (forall id <- slots | slots[id].base.Some? :: slots[id].base.value + Count(types[id].shape) <= size)
    && forall a <- slots, b <- slots | a != b && Overlap(slots[a], slots[b]) :: SlotsApart(types, slots, a, b)
  }

  predicate SlotsApart(types: Types, slots: map<Id, Slot>, a: Id, b: Id)
    requires a in slots && b in slots && a in types && b in types
  {
    slots[a].base.Some? && slots[b].base.Some? ==>
      slots[a].base.value + Count(types[a].shape) <= slots[b].base.value
      || slots[b].base.value + Count(types[b].shape) <= slots[a].base.value
  }

  /** Operation k defines its output at k and uses operands still needed at k; results go to the arena. */
  ghost predicate Follows(types: Types, slots: map<Id, Slot>, ops: seq<Operation>) {
    forall k {:trigger ops[k]} | 0 <= k < |ops| ::
      && ops[k].output in slots && slots[ops[k].output].first == k <= slots[ops[k].output].last
      && (!ops[k].IsDeclaration() ==> slots[ops[k].output].base.Some?)
      && forall j | 0 <= j < |ops[k].inputs| :: ops[k].inputs[j] in slots && k <= slots[ops[k].inputs[j]].last
  }

  // ----- looking things up -----

  /** `find_operation` */
  function FindOperation(ops: seq<Operation>, id: Id): Option<Operation> {
    if ops == [] then None else if ops[0].id == id then Some(ops[0]) else FindOperation(ops[1..], id)
  }

  lemma {:induction false} FindOperationAt(ops: seq<Operation>, k: nat)
    requires DistinctOperationIds(ops) && k < |ops|
    ensures FindOperation(ops, ops[k].id) == Some(ops[k])
  {
    if k > 0 {
      assert ops[0].id != ops[k].id;
      FindOperationAt(ops[1..], k - 1);
    }
  }

  /** `find_value` */
  function FindValue(values: seq<Value>, id: Id): Option<Value> {
    if values == [] then None else if values[0].id == id then Some(values[0]) else FindValue(values[1..], id)
  }

  lemma {:induction false} FindValueAt(values: seq<Value>, k: nat)
    requires DistinctValueIds(values) && k < |values|
    ensures FindValue(values, values[k].id) == Some(values[k])
  {
    if k > 0 {
      assert values[0].id != values[k].id;
      FindValueAt(values[1..], k - 1);
    }
  }

  /** `find_lifetime` */
  function FindLifetime(tensors: seq<TensorLifetime>, id: Id): Option<TensorLifetime> {
    if tensors == [] then None else if tensors[0].valueId == id then Some(tensors[0]) else FindLifetime(tensors[1..], id)
  }

  lemma {:induction false} FindLifetimeAt(tensors: seq<TensorLifetime>, k: nat)
    requires forall i, j | 0 <= i < j < |tensors| :: tensors[i].valueId != tensors[j].valueId
    requires k < |tensors|
    ensures FindLifetime(tensors, tensors[k].valueId) == Some(tensors[k])
  {
    if k > 0 {
      assert tensors[0].valueId != tensors[k].valueId;
      FindLifetimeAt(tensors[1..], k - 1);
    }
  }

  // ----- the schedule as operations -----

  /** The operations in schedule order. */
  ghost predicate InScheduleOrder(ops: seq<Operation>, schedule: Schedule, scheduled: seq<Operation>) {
    && |scheduled| == |schedule|
    && forall k | 0 <= k < |schedule| ::
         FindOperation(ops, schedule[k].operationId) == Some(scheduled[k]) && schedule[k] == Scheduled(scheduled[k], k)
  }

  lemma ScheduleOrderExists(ops: seq<Operation>, schedule: Schedule) returns (scheduled: seq<Operation>)
    requires DistinctOperationIds(ops) && DistinctOutputs(ops) && IsScheduleOf(ops, schedule)
    ensures InScheduleOrder(ops, schedule, scheduled)
    ensures SameOperations(scheduled, ops) && DistinctOutputs(scheduled)
  {
    var order :| LeastLinearExtension(Ids(ops), OrderEdges(ops, true), order) && ListsInOrder(ops, order, schedule);
    Counting.DistinctBound(order, |ops|);
    hide LeastLinearExtension, IsScheduleOf;
    scheduled := seq(|ops|, k requires 0 <= k < |ops| => ops[order[k]]);
    forall k | 0 <= k < |schedule|
      ensures FindOperation(ops, schedule[k].operationId) == Some(scheduled[k]) && schedule[k] == Scheduled(scheduled[k], k)
    {
      FindOperationAt(ops, order[k]);
    }
    forall op <- ops ensures op in scheduled {
      var i: nat :| i < |ops| && ops[i] == op;
      assert scheduled[Position(order, i)] == op;
    }
  }

  // ----- from the plan to the layout -----

  ghost function SlotOf(t: TensorLifetime): Slot {
    Slot(if t.arenaOffset.Some? then Some(t.arenaOffset.value / FLOAT_BYTES) else None, t.definitionIndex, t.finalUse)
  }

  ghost predicate AllFloat(values: seq<Value>) {
    forall v <- values :: v.descriptor.dtype.Float32?
  }

  /** The layout of a plan. */
  ghost function SlotsOf(values: seq<Value>, tensors: seq<TensorLifetime>): map<Id, Slot>
    requires forall id <- Descriptors(values) :: FindLifetime(tensors, id).Some?
  {
    map id | id in Descriptors(values) :: SlotOf(FindLifetime(tensors, id).value)
  }

  /** The lifetime fits the value: enough aligned bytes inside the arena. */
  ghost predicate PlacedValue(v: Value, t: TensorLifetime, arenaSize: nat) {
    t.arenaOffset.Some? ==>
      && Count(v.descriptor.shape) >= 0 && Count(v.descriptor.shape) * FLOAT_BYTES == t.byteSize <= t.alignedSize
      && t.arenaOffset.value % ALIGNMENT == 0 && t.arenaOffset.value + t.alignedSize <= arenaSize
  }

  /** Value k is found with lifetime k, and fits it. */
  ghost predicate Entries(values: seq<Value>, tensors: seq<TensorLifetime>, arenaSize: nat) {
    && |values| == |tensors|
    && forall k {:trigger tensors[k]} {:trigger values[k]} | 0 <= k < |values| ::
         FindLifetime(tensors, values[k].id) == Some(tensors[k]) && PlacedValue(values[k], tensors[k], arenaSize)
  }

  lemma PlanEntries(g: GraphData, plan: MemoryPlan)
    requires WellFormedGraph(g) && IsPlanFor(g, ALIGNMENT, plan) && AllFloat(g.values)
    ensures Entries(g.values, plan.tensors, plan.arenaSize)
  {
    forall k | 0 <= k < |g.values|
      ensures FindLifetime(plan.tensors, g.values[k].id) == Some(plan.tensors[k])
      ensures PlacedValue(g.values[k], plan.tensors[k], plan.arenaSize)
    {
      LifetimeFound(g, plan, k);
      NotExternal(plan, k);
      assert g.values[k] in g.values;
      LifetimePlaced(g, plan.schedule, g.values[k], plan.tensors[k], plan.arenaSize);
    }
  }

  lemma LifetimePlaced(g: GraphData, schedule: Schedule, v: Value, t: TensorLifetime, arenaSize: nat)
    requires IsLifetime(g, schedule, ALIGNMENT, v, t) && v.descriptor.dtype.Float32? && Positive(v.descriptor.shape)
    requires t.arenaOffset.Some? ==> PlacedWithin(t, arenaSize, t.alignmentBytes)
    ensures PlacedValue(v, t, arenaSize)
  {
    CountPositive(v.descriptor.shape);
  }

  /** The lifetime of value k is found under its identifier. */
  lemma LifetimeFound(g: GraphData, plan: MemoryPlan, k: nat)
    requires DistinctValueIds(g.values) && IsPlanFor(g, ALIGNMENT, plan) && k < |g.values|
    ensures FindLifetime(plan.tensors, g.values[k].id) == Some(plan.tensors[k])
    ensures IsLifetime(g, plan.schedule, ALIGNMENT, g.values[k], plan.tensors[k])
  {
    forall i, j | 0 <= i < j < |plan.tensors| ensures plan.tensors[i].valueId != plan.tensors[j].valueId {
      assert IsLifetime(g, plan.schedule, ALIGNMENT, g.values[i], plan.tensors[i]);
      assert IsLifetime(g, plan.schedule, ALIGNMENT, g.values[j], plan.tensors[j]);
    }
    FindLifetimeAt(plan.tensors, k);
    assert IsLifetime(g, plan.schedule, ALIGNMENT, g.values[k], plan.tensors[k]);
  }

  /** Byte regions as element ranges. */
  lemma ElementRange(offset: nat, aligned: nat, count: nat, limit: nat)
    requires offset % ALIGNMENT == 0 && count * FLOAT_BYTES <= aligned && offset + aligned <= limit
    ensures offset / FLOAT_BYTES + count <= limit / FLOAT_BYTES
    ensures offset / FLOAT_BYTES * FLOAT_BYTES == offset
  {
    WholeElements(offset);
    var base := offset / FLOAT_BYTES;
    assert 4 * (base + count) <= limit;
  }

  /** Aligned offsets lie between elements. */
  lemma WholeElements(offset: nat)
    requires offset % ALIGNMENT == 0
    ensures offset / FLOAT_BYTES * FLOAT_BYTES == offset
  {
    var q := 16 * (offset / 64);
    assert offset == q * 4;
    DivMod.QuotientRemainder(q, 0, 4);
  }

  /** Disjoint byte regions hold disjoint element ranges. */
  lemma RangesSeparate(v: Value, s: TensorLifetime, w: Value, t: TensorLifetime, arenaSize: nat)
    requires PlacedValue(v, s, arenaSize) && PlacedValue(w, t, arenaSize)
    requires Separate(s, t) && Overlap(SlotOf(s), SlotOf(t)) && s.arenaOffset.Some? && t.arenaOffset.Some?
    ensures var a, b := SlotOf(s).base.value, SlotOf(t).base.value;
      a + Count(v.descriptor.shape) <= b || b + Count(w.descriptor.shape) <= a
  {
    if Region(s).End() <= Region(t).offset {
      ElementRange(s.arenaOffset.value, s.alignedSize, Count(v.descriptor.shape), t.arenaOffset.value);
    } else {
      ElementRange(t.arenaOffset.value, t.alignedSize, Count(w.descriptor.shape), s.arenaOffset.value);
    }
  }

  /** The range check of the session never fires: placed tensors end inside the arena. */
  ghost predicate RangesChecked(types: Types, tensors: seq<TensorLifetime>, arenaBytes: nat) {
    forall id <- types :: FindLifetime(tensors, id).Some? && RangeChecked(FindLifetime(tensors, id).value, arenaBytes)
  }

  predicate RangeChecked(t: TensorLifetime, arenaBytes: nat) {
    t.arenaOffset.Some? ==> t.arenaOffset.value + t.byteSize <= arenaBytes
  }

  lemma EntriesAreLayout(values: seq<Value>, tensors: seq<TensorLifetime>, arenaSize: nat)
    requires DistinctValueIds(values) && Entries(values, tensors, arenaSize) && NoSharing(tensors)
    ensures forall id <- Descriptors(values) :: FindLifetime(tensors, id).Some?
    ensures Layout(Descriptors(values), SlotsOf(values, tensors), arenaSize / FLOAT_BYTES)
    ensures RangesChecked(Descriptors(values), tensors, arenaSize / FLOAT_BYTES * FLOAT_BYTES)
  {
    var types := Descriptors(values);
    forall id <- types
      ensures FindLifetime(tensors, id).Some?
      ensures RangeChecked(FindLifetime(tensors, id).value, arenaSize / FLOAT_BYTES * FLOAT_BYTES)
    {
      var k := ValueOf(values, id);
      var t := tensors[k];
      if t.arenaOffset.Some? {
        ElementRange(t.arenaOffset.value, t.alignedSize, Count(values[k].descriptor.shape), arenaSize);
      }
    }
    var slots := SlotsOf(values, tensors);
    forall id <- slots | slots[id].base.Some?
      ensures slots[id].base.value + Count(types[id].shape) <= arenaSize / FLOAT_BYTES
    {
      var k := ValueOf(values, id);
      var t := tensors[k];
      ElementRange(t.arenaOffset.value, t.alignedSize, Count(values[k].descriptor.shape), arenaSize);
    }
    forall a <- slots, b <- slots | a != b && Overlap(slots[a], slots[b]) ensures SlotsApart(types, slots, a, b) {
      var i := ValueOf(values, a);
      var j := ValueOf(values, b);
      if tensors[i].arenaOffset.Some? && tensors[j].arenaOffset.Some? {
        if i < j {
          assert Separate(tensors[i], tensors[j]);
          RangesSeparate(values[i], tensors[i], values[j], tensors[j], arenaSize);
        } else {
          assert Separate(tensors[j], tensors[i]);
          RangesSeparate(values[j], tensors[j], values[i], tensors[i], arenaSize);
        }
      }
    }
  }

  // ----- the schedule follows the layout -----

  /** Value k under its lifetime: where it is defined and how long it is needed. */
  ghost predicate Spans(g: GraphData, schedule: Schedule, slots: map<Id, Slot>, v: Value) {
    && v.id in slots && slots[v.id].first <= slots[v.id].last
    && DefinedAt(schedule, v.id, slots[v.id].first)
    && (forall k: nat | UsedAt(schedule, v.id, k) :: k <= slots[v.id].last)
    && (v.kind.IntermediateValue? || v.kind.OutputValue? ==> slots[v.id].base.Some?)
  }

  lemma LifetimeSpans(g: GraphData, schedule: Schedule, slots: map<Id, Slot>, v: Value, t: TensorLifetime)
    requires IsLifetime(g, schedule, ALIGNMENT, v, t) && v.id in slots && slots[v.id] == SlotOf(t)
    requires !t.external ==> t.arenaOffset.Some?
    ensures Spans(g, schedule, slots, v)
  {
  }

  lemma PlanSpans(g: GraphData, plan: MemoryPlan, k: nat)
    requires WellFormedGraph(g) && IsPlanFor(g, ALIGNMENT, plan) && k < |g.values|
    requires forall id <- Descriptors(g.values) :: FindLifetime(plan.tensors, id).Some?
    ensures Spans(g, plan.schedule, SlotsOf(g.values, plan.tensors), g.values[k])
  {
    LifetimeFound(g, plan, k);
    DescriptorsAt(g.values, k);
    NotExternal(plan, k);
    LifetimeSpans(g, plan.schedule, SlotsOf(g.values, plan.tensors), g.values[k], plan.tensors[k]);
  }

  lemma NotExternal(plan: MemoryPlan, k: nat)
    requires PlanVerified(plan) && k < |plan.tensors|
    ensures !plan.tensors[k].external ==> plan.tensors[k].arenaOffset.Some?
    ensures plan.tensors[k].arenaOffset.Some? ==>
      PlacedWithin(plan.tensors[k], plan.arenaSize, plan.tensors[k].alignmentBytes)
  {
    assert TensorVerified(plan, plan.tensors[k]);
  }

  lemma ScheduleFollows(g: GraphData, schedule: Schedule, slots: map<Id, Slot>, scheduled: seq<Operation>)
    requires WellFormedGraph(g) && DistinctOutputs(scheduled)
    requires forall id, j, k | DefinedAt(schedule, id, j) && UsedAt(schedule, id, k) :: j < k
    requires InScheduleOrder(g.operations, schedule, scheduled) && SameOperations(scheduled, g.operations)
    requires forall v <- g.values :: Spans(g, schedule, slots, v)
    ensures Follows(Descriptors(g.values), slots, scheduled)
    ensures TopologicallyOrdered(scheduled)
  {
    forall k | 0 <= k < |scheduled|
      ensures scheduled[k].output in slots && slots[scheduled[k].output].first == k <= slots[scheduled[k].output].last
      ensures !scheduled[k].IsDeclaration() ==> slots[scheduled[k].output].base.Some?
    {
      assert scheduled[k] in g.operations;
      var v := OutputValue(g, scheduled[k]);
      OperationSpans(g, schedule, slots, scheduled, k, v);
    }
    forall k: nat, j: nat | k < |scheduled| && j < |scheduled[k].inputs|
      ensures scheduled[k].inputs[j] in slots && k <= slots[scheduled[k].inputs[j]].last
      ensures ProducedBefore(scheduled, k, scheduled[k].inputs[j])
    {
      assert scheduled[k] in g.operations;
      var v := OperandValue(g, scheduled[k], j);
      OperandSpans(g, schedule, slots, scheduled, k, j, v);
    }
  }

  lemma OutputValue(g: GraphData, op: Operation) returns (v: Value)
    requires WellFormedGraph(g) && op in g.operations
    ensures v in g.values && v.id == op.output && RoleOk(op.kind, v.kind)
  {
    var i :| 0 <= i < |g.operations| && g.operations[i] == op;
    assert Resolved(Descriptors(g.values), g.operations[i]);
    var k := ValueOf(g.values, op.output);
    v := g.values[k];
  }

  lemma OperandValue(g: GraphData, op: Operation, j: nat) returns (v: Value)
    requires WellFormedGraph(g) && op in g.operations && j < |op.inputs|
    ensures v in g.values && v.id == op.inputs[j]
  {
    var i :| 0 <= i < |g.operations| && g.operations[i] == op;
    assert Resolved(Descriptors(g.values), g.operations[i]);
    var k := ValueOf(g.values, op.inputs[j]);
    v := g.values[k];
  }

  lemma OperationSpans(g: GraphData, schedule: Schedule, slots: map<Id, Slot>, scheduled: seq<Operation>,
                       k: nat, v: Value)
    requires InScheduleOrder(g.operations, schedule, scheduled) && DistinctOutputs(scheduled)
    requires Spans(g, schedule, slots, v) && k < |scheduled| && v.id == scheduled[k].output
    requires RoleOk(scheduled[k].kind, v.kind)
    ensures slots[v.id].first == k <= slots[v.id].last && (!scheduled[k].IsDeclaration() ==> slots[v.id].base.Some?)
  {
    var d := slots[v.id].first;
    assert schedule[d] == Scheduled(scheduled[d], d);
  }

  lemma OperandSpans(g: GraphData, schedule: Schedule, slots: map<Id, Slot>, scheduled: seq<Operation>,
                     k: nat, j: nat, v: Value)
    requires InScheduleOrder(g.operations, schedule, scheduled)
    requires forall id, j, k | DefinedAt(schedule, id, j) && UsedAt(schedule, id, k) :: j < k
    requires Spans(g, schedule, slots, v) && k < |scheduled| && j < |scheduled[k].inputs| && v.id == scheduled[k].inputs[j]
    ensures k <= slots[v.id].last && ProducedBefore(scheduled, k, v.id)
  {
    assert schedule[k] == Scheduled(scheduled[k], k);
    assert UsedAt(schedule, v.id, k);
    var d := slots[v.id].first;
    assert schedule[d] == Scheduled(scheduled[d], d);
    assert d < k && scheduled[d].output == v.id;
  }

  lemma AllSpans(g: GraphData, plan: MemoryPlan)
    requires WellFormedGraph(g) && IsPlanFor(g, ALIGNMENT, plan)
    requires forall id <- Descriptors(g.values) :: FindLifetime(plan.tensors, id).Some?
    ensures forall v <- g.values :: Spans(g, plan.schedule, SlotsOf(g.values, plan.tensors), v)
  {
    forall v <- g.values ensures Spans(g, plan.schedule, SlotsOf(g.values, plan.tensors), v) {
      var k :| 0 <= k < |g.values| && g.values[k] == v;
      PlanSpans(g, plan, k);
    }
  }

  lemma PlanSlots(g: GraphData, plan: MemoryPlan) returns (slots: map<Id, Slot>)
    requires WellFormedGraph(g) && IsPlanFor(g, ALIGNMENT, plan) && AllFloat(g.values)
    ensures Entries(g.values, plan.tensors, plan.arenaSize)
    ensures forall id <- Descriptors(g.values) :: FindLifetime(plan.tensors, id).Some?
    ensures slots == SlotsOf(g.values, plan.tensors)
    ensures Layout(Descriptors(g.values), slots, plan.arenaSize / FLOAT_BYTES)
    ensures RangesChecked(Descriptors(g.values), plan.tensors, plan.arenaSize / FLOAT_BYTES * FLOAT_BYTES)
    ensures forall v <- g.values :: Spans(g, plan.schedule, slots, v)
  {
    PlanEntries(g, plan);
    EntriesAreLayout(g.values, plan.tensors, plan.arenaSize);
    AllSpans(g, plan);
    slots := SlotsOf(g.values, plan.tensors);
  }

  /** The operations of a planned schedule respect the layout of the plan. */
  lemma PlanSchedule(g: GraphData, schedule: Schedule, slots: map<Id, Slot>) returns (scheduled: seq<Operation>)
    requires WellFormedGraph(g) && IsScheduleOf(g.operations, schedule)
    requires FollowsDependencies(g.operations, schedule)
    requires forall v <- g.values :: Spans(g, schedule, slots, v)
    ensures InScheduleOrder(g.operations, schedule, scheduled)
    ensures SameOperations(scheduled, g.operations) && DistinctOutputs(scheduled) && TopologicallyOrdered(scheduled)
    ensures Follows(Descriptors(g.values), slots, scheduled)
  {
    scheduled := ScheduleOrderExists(g.operations, schedule);
    ScheduleFollows(g, schedule, slots, scheduled);
  }
}
