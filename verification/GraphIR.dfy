/** The typed graph of cpp/include/forgeir/ir, as values. */
module GraphIR {
  import opened Basics
  import opened Shapes

  /** Value and operation identifiers ("v0000", "op0000" in the file format). */
  type Id = string

  /**
   A number as the bits that represent it. No operation on scalars is interpreted: every
   arithmetic operator is a parameter (see Arith), so the results hold for whatever the
   hardware and the mathematics library compute.
   */
  datatype Scalar = Scalar(bits: int)

  datatype DataType = Boolean | Float32 | Int64

  /** Attribute values, with the distinctions nlohmann::json makes and the passes test. */
  datatype Json =
    | JNull
    | JBool(flag: bool)
    | JInt(integer: int)
    | JFloat(number: Scalar)
    | JString(text: string)
    | JArray(items: seq<Json>)
    | JObject

  type Attributes = map<string, Json>

  datatype OperationType =
    | Input | Parameter | Constant
    | MatMul | Linear
    | Add | Multiply | Divide
    | RmsNorm | Gelu | Softmax
    | Reshape | Transpose | CausalMask

  datatype ValueKind =
    | InputValue | ParameterValue | ConstantValue | IntermediateValue | OutputValue

  /** An operation of a loaded graph: the loader accepts exactly one output per operation. */
  datatype Operation = Operation(
    id: Id,
    kind: OperationType,
    inputs: seq<Id>,
    output: Id,
    attributes: Attributes)
  {
    /** `side_effect` must be present, boolean and true. */
    predicate HasSideEffect() {
      HasFlag("side_effect", true)
    }

    /** The attribute is present, boolean, and has the given value. */
    predicate HasFlag(name: string, flag: bool) {
      name in attributes && attributes[name] == JBool(flag)
    }

    /** The attribute is present and is the given string. */
    predicate HasText(name: string, text: string) {
      name in attributes && attributes[name] == JString(text)
    }

    predicate IsDeclaration() {
      kind.Input? || kind.Parameter? || kind.Constant?
    }

    predicate IsProjection() {
      kind.MatMul? || kind.Linear?
    }
  }

  datatype Descriptor = Descriptor(dtype: DataType, shape: Shape)

  datatype Value = Value(id: Id, descriptor: Descriptor, kind: ValueKind)

  datatype GraphData = GraphData(
    inputIds: seq<Id>,
    outputIds: seq<Id>,
    values: seq<Value>,
    operations: seq<Operation>)

  function ByteWidth(dtype: DataType): nat {
    match dtype
    case Boolean => 1
    case Float32 => 4
    case Int64 => 8
  }

  predicate DistinctOutputs(ops: seq<Operation>) {
    forall i, j | 0 <= i < j < |ops| :: ops[i].output != ops[j].output
  }

  predicate DistinctOperationIds(ops: seq<Operation>) {
    forall i, j | 0 <= i < j < |ops| :: ops[i].id != ops[j].id
  }

  predicate DistinctValueIds(values: seq<Value>) {
    forall i, j | 0 <= i < j < |values| :: values[i].id != values[j].id
  }

  /** Some operation among the first `n` produces `id`. */
  predicate ProducedBefore(ops: seq<Operation>, n: nat, id: Id)
    requires n <= |ops|
  {
    exists j | 0 <= j < n :: ops[j].output == id
  }

  /** Every operand is produced by an earlier operation. */
  predicate TopologicallyOrdered(ops: seq<Operation>) {
    forall i, k | 0 <= i < |ops| && 0 <= k < |ops[i].inputs| ::
      ProducedBefore(ops, i, ops[i].inputs[k])
  }

  /** Descriptors by value identifier; the first entry wins, as std::unordered_map::emplace does. */
  function Descriptors(values: seq<Value>): map<Id, Descriptor> {
    if values == [] then map[]
    else
      var last, earlier := values[|values| - 1], Descriptors(values[..|values| - 1]);
      if last.id in earlier then earlier else earlier[last.id := last.descriptor]
  }

  lemma {:induction false} DescriptorsDomain(values: seq<Value>, id: Id)
    ensures id in Descriptors(values) <==> exists k | 0 <= k < |values| :: values[k].id == id
  {
    var n := |values| - 1;
    if n >= 0 {
      DescriptorsDomain(values[..n], id);
      if k :| 0 <= k < |values| && values[k].id == id {
        assert k < n ==> values[..n][k] == values[k];
      }
      if k :| 0 <= k < n && values[..n][k].id == id {
        assert values[k].id == id;
      }
      assert values[n].id == id ==> exists k | 0 <= k < |values| :: values[k].id == id;
    }
  }

  lemma {:induction false} DescriptorsAt(values: seq<Value>, k: nat)
    requires DistinctValueIds(values) && k < |values|
    ensures values[k].id in Descriptors(values)
    ensures Descriptors(values)[values[k].id] == values[k].descriptor
  {
    var n := |values| - 1;
    if k < n {
      DescriptorsAt(values[..n], k);
      assert values[..n][k] == values[k];
    } else {
      assert forall j | 0 <= j < n :: values[..n][j].id == values[j].id != values[n].id;
      DescriptorsDomain(values[..n], values[n].id);
    }
  }
}
