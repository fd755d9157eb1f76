/** A loadable, verified graph on which the CPU and the reference evaluator differ. */
module ActivationWitness {
  import opened Basics
  import opened GraphIR
  import opened Shapes
  import opened TensorSizes
  import opened OperationOrder
  import opened Sequential
  import opened Tensors
  import opened Evaluator
  import opened SemanticVerifier
  import opened GraphInvariants
  import opened KernelSoundness
  import opened UnboundedStore
  import opened PassFramework
  import opened GraphLoader
  import opened Connectivity
  import opened LoadableGraphs

  /** The product of two inputs, asking for an activation. */
  function ProductGraph(): GraphData {
    var one := Descriptor(Float32, [1, 1]);
    GraphData(["v0000", "v0001"], ["v0002"],
      [Value("v0000", one, InputValue), Value("v0001", one, InputValue), Value("v0002", one, OutputValue)],
      [Operation("op0000", Input, [], "v0000", map[]), Operation("op0001", Input, [], "v0001", map[]),
       Operation("op0002", MatMul, ["v0000", "v0001"], "v0002",
                 map["fused_activation" := JString("GELU"), "fused_activation_approximate" := JString("none")])])
  }

  lemma OneElement()
    ensures Positive([1, 1]) && Count([1, 1]) == 1 && MatMulShape([1, 1], [1, 1]) == Some([1, 1])
  {
    var s: Shape := [1, 1];
    var empty: Shape := [];
    assert s[1..] == [1] && [1][1..] == empty;
    assert s[..0] == empty && BroadcastShape(empty, empty).value == empty;
    assert empty + [1, 1] == s;
  }

  lemma ProductAt(i: nat)
    requires i < 3
    ensures OperationAt(ProductGraph(), [0, 1, 2], i)
  {
    Spelled();
    OneElement();
    hide ValueId, OpId, OperationAt, Count, MatMulShape;
    PlaceOperation(ProductGraph(), [0, 1, 2], i, if i == 2 then [0, 1] else []);
  }

  lemma ProductLaidOut()
    ensures LaidOut(ProductGraph(), [0, 1, 2]) && InterfaceAt(ProductGraph(), [0, 1], [2])
  {
    forall i | 0 <= i < 3 ensures OperationAt(ProductGraph(), [0, 1, 2], i) {
      ProductAt(i);
    }
    hide OperationAt;
  }

  lemma ProductTypesAt(i: nat)
    requires i < 3
    ensures var g := ProductGraph(); var t := Descriptors(g.values);
      g.values[i].id in t && t[g.values[i].id] == Descriptor(Float32, [1, 1])
  {
    ProductLaidOut();
    ProductAt(i);
    hide LaidOut, Descriptors, InterfaceAt;
    LaidOutTypes(ProductGraph(), [0, 1, 2], i);
  }

  lemma ProductVerifiedAt(A: Arith, i: nat)
    requires i < 3
    ensures var g := ProductGraph(); var t := Descriptors(g.values);
      Resolved(t, g.operations[i]) && OperationOk(A, t, g.operations[i])
  {
    ProductTypesAt(0);
    ProductTypesAt(1);
    ProductTypesAt(2);
    OneElement();
    hide Descriptors, MatMulShape, Count;
  }

  /** Loader and verifier accept the graph. */
  lemma ProductIsReceivable(A: Arith)
    ensures Loadable(ProductGraph()) && GraphVerified(A, ProductGraph())
  {
    var g := ProductGraph();
    forall i | 0 <= i < 3
      ensures Resolved(Descriptors(g.values), g.operations[i]) && OperationOk(A, Descriptors(g.values), g.operations[i])
    {
      ProductVerifiedAt(A, i);
    }
    assert GraphVerified(A, g);
    ProductLaidOut();
    AscendingStands(g, [0, 1, 2]);
    InputIsReached(g, "v0000");
    ReachesNext(g, 2, 0);
    assert Connected(g);
    hide LaidOut, InterfaceAt, StandsAsLoaded, Connected, GraphVerified, Descriptors;
    LaidOutIsLoadable(g, [0, 1, 2], [0, 1], [2]);
  }

  /** One element for each input. */
  predicate Supplied(arguments: Arguments) {
    forall id <- ["v0000", "v0001"] ::
      id in arguments.inputs && ArgumentOk(arguments.inputs[id], Descriptor(Float32, [1, 1]))
  }

  lemma ProductRunsAt(A: Arith, H: Hashing, arguments: Arguments, i: nat)
    requires Supplied(arguments) && i < 3
    ensures var g := ProductGraph(); CallOk(A, H, arguments, Descriptors(g.values), g.operations[i])
  {
    ProductTypesAt(i);
    OneElement();
    assert ["v0000", "v0001"][0] == "v0000" && ["v0000", "v0001"][1] == "v0001";
    hide Descriptors, Count;
  }

  lemma ProductCallOk(H: Hashing, arguments: Arguments)
    requires Supplied(arguments)
    ensures var g := ProductGraph(); |g.operations| == 3 && !Plain(g.operations[2])
    ensures var g := ProductGraph(); forall i | 0 <= i < |g.operations| ::
      CallOk(Increments(), H, arguments, Descriptors(g.values), g.operations[i])
  {
    var g := ProductGraph();
    forall i | 0 <= i < 3 ensures CallOk(Increments(), H, arguments, Descriptors(g.values), g.operations[i]) {
      ProductRunsAt(Increments(), H, arguments, i);
    }
    hide CallOk, Descriptors;
  }

  /** Where a graph runs that has an activated two-operand projection. */
  lemma RunsAndDiverges(H: Hashing, arguments: Arguments, g: GraphData, i: nat)
    requires Ordered(g) && GraphVerified(Increments(), g) && i < |g.operations| && !Plain(g.operations[i])
    requires forall k | 0 <= k < |g.operations| ::
      CallOk(Increments(), H, arguments, Descriptors(g.values), g.operations[k])
    ensures var types := Descriptors(g.values);
      && CpuRun(Increments(), H, arguments, types, g.operations).Some?
      && !Agreement(Increments(), H, arguments, types, g.operations)
  {
    hide CallOk, Descriptors, Plain, Increments, Agreement, Resolved, OperationOk;
    DescriptorsPositive(g.values);
    VerifiedGraphRuns(Increments(), H, arguments, Descriptors(g.values), g.operations);
    ActivationSpoils(H, arguments, Descriptors(g.values), g.operations, i);
  }

  /** The call completes, whatever the two elements are, and the CPU's product is not the evaluator's. */
  lemma ProductDiverges(H: Hashing, arguments: Arguments)
    requires Supplied(arguments)
    ensures var g := ProductGraph(); var types := Descriptors(g.values);
      && CpuRun(Increments(), H, arguments, types, g.operations).Some?
      && !Agreement(Increments(), H, arguments, types, g.operations)
  {
    ProductIsReceivable(Increments());
    ProductCallOk(H, arguments);
    hide ProductGraph, Ordered, GraphVerified, CallOk, Plain, Agreement, Descriptors, Supplied;
    RunsAndDiverges(H, arguments, ProductGraph(), 2);
  }
}
