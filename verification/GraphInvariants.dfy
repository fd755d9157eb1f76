/** What the loader guarantees about a graph (cpp/src/ir/graph_loader.cpp). */
module GraphInvariants {
  import opened Basics
  import opened GraphIR
  import opened Shapes
  import opened TensorSizes
  import opened OperationOrder
  import opened SemanticVerifier

  /** `verify_value_roles`: which value kinds an operation may produce. */
  predicate RoleOk(kind: OperationType, value: ValueKind) {
    match kind
    case Input => value.InputValue?
    case Parameter => value.ParameterValue?
    case Constant => value.ConstantValue? || value.OutputValue?
    case _ => value.IntermediateValue? || value.OutputValue?
  }

  ghost predicate RolesOk(g: GraphData) {
    forall op <- g.operations, v <- g.values | v.id == op.output :: RoleOk(op.kind, v.kind)
  }

  ghost predicate ValuesOk(values: seq<Value>) {
    && DistinctValueIds(values)
    && forall v <- values :: Positive(v.descriptor.shape) && ByteSize(v.descriptor) <= UINT64_MAX
  }

  ghost predicate AllResolved(types: Types, ops: seq<Operation>) {
    forall i {:trigger Resolved(types, ops[i])} | 0 <= i < |ops| :: Resolved(types, ops[i])
  }

  ghost predicate OperationsOk(types: Types, ops: seq<Operation>) {
    && DistinctOperationIds(ops) && DistinctOutputs(ops) && |ops| < UINT64_MAX
    && AllResolved(types, ops)
  }

  /** Some value of this kind has the identifier. */
  ghost predicate Named(values: seq<Value>, id: Id, kind: ValueKind) {
    exists k | 0 <= k < |values| :: values[k].id == id && values[k].kind == kind
  }

  /** Declared inputs are input values, declared outputs are output values. */
  ghost predicate InterfaceOk(g: GraphData) {
    && (forall id {:trigger Named(g.values, id, InputValue)} | id in g.inputIds :: Named(g.values, id, InputValue))
    && (forall id {:trigger Named(g.values, id, OutputValue)} | id in g.outputIds :: Named(g.values, id, OutputValue))
  }

  /** A graph as the loader returns it, except for the order of its operations. */
  ghost predicate WellFormedGraph(g: GraphData) {
    && ValuesOk(g.values)
    && OperationsOk(Descriptors(g.values), g.operations)
    && (forall v {:trigger Produced(g.operations, v.id)} | v in g.values :: Produced(g.operations, v.id))
    && InterfaceOk(g) && RolesOk(g)
  }

  lemma OutputKind(g: GraphData, v: Value)
    requires WellFormedGraph(g) && v in g.values && v.id in g.outputIds
    ensures v.kind.OutputValue?
  {
    assert Named(g.values, v.id, OutputValue);
    var j :| 0 <= j < |g.values| && g.values[j].id == v.id && g.values[j].kind == OutputValue;
    var i :| 0 <= i < |g.values| && g.values[i] == v;
    assert i == j;
  }

  /** Declared value of a known identifier. */
  lemma ValueOf(values: seq<Value>, id: Id) returns (k: nat)
    requires DistinctValueIds(values) && id in Descriptors(values)
    ensures k < |values| && values[k].id == id && Descriptors(values)[id] == values[k].descriptor
  {
    DescriptorsDomain(values, id);
    k :| 0 <= k < |values| && values[k].id == id;
    DescriptorsAt(values, k);
  }
}
