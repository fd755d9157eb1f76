/** Two graphs the fusion pass can be given, on which it changes the meaning or fails its verification. */
module FusionWitnesses {
  import opened Basics
  import opened GraphIR
  import opened Shapes
  import opened TensorSizes
  import opened OperationOrder
  import opened Sequential
  import opened Tensors
  import opened Evaluator
  import opened SemanticVerifier
  import opened GraphInvariants
  import opened RewriteUtils
  import opened PassFramework
  import opened Fusion
  import opened FusionSoundness
  import opened Connectivity
  import opened GraphLoader
  import opened LoadableGraphs

  const DIGEST: string := "00112233445566778899aabbccddeeff" + "00112233445566778899aabbccddeeff"

  lemma DigestIsLowercase()
    ensures IsDigest(DIGEST)
  {
  }

  /** Attributes of a parameter: where to find the content, and its digest. */
  function ParameterAttributes(key: string): Attributes {
    map["archive_key" := JString(key), "content_sha256" := JString(DIGEST)]
  }

  /** gelu(matmul(x, w) + b), with a product one element wide and a bias of the given width. */
  function ChainOperations(attributes: Attributes): seq<Operation> {
    [Operation("op0000", Input, [], "v0000", map[]),
     Operation("op0001", Parameter, [], "v0001", ParameterAttributes("weight")),
     Operation("op0002", MatMul, ["v0000", "v0001"], "v0002", attributes),
     Operation("op0003", Parameter, [], "v0003", ParameterAttributes("bias")),
     Operation("op0004", Add, ["v0002", "v0003"], "v0004", map[]),
     Operation("op0005", Gelu, ["v0004"], "v0005", map[])]
  }

  function ChainValues(width: nat): seq<Value> {
    [Value("v0000", Descriptor(Float32, [1, 1]), InputValue),
     Value("v0001", Descriptor(Float32, [1, 1]), ParameterValue),
     Value("v0002", Descriptor(Float32, [1, 1]), IntermediateValue),
     Value("v0003", Descriptor(Float32, [width]), ParameterValue),
     Value("v0004", Descriptor(Float32, [1, width]), IntermediateValue),
     Value("v0005", Descriptor(Float32, [1, width]), OutputValue)]
  }

  function ChainGraph(width: nat, attributes: Attributes): GraphData {
    GraphData(["v0000"], ["v0005"], ChainValues(width), ChainOperations(attributes))
  }

  function Ascending(n: nat): seq<nat> {
    seq(n, k => k)
  }

  lemma ChainSizes(width: nat)
    requires width == 1 || width == 2
    ensures Positive([width]) && Positive([1, 1]) && Positive([1, width])
    ensures Count([width]) == width && Count([1, 1]) == 1 && Count([1, width]) == width
  {
    var empty: Shape := [];
    assert [width][1..] == empty && [1, 1][1..] == [1] && [1][1..] == empty && [1, width][1..] == [width];
  }

  /** Which values each operation uses. */
  function ChainUsesOf(i: nat): seq<nat> {
    if i == 2 then [0, 1] else if i == 4 then [2, 3] else if i == 5 then [4] else []
  }

  lemma ChainAt(width: nat, attributes: Attributes, i: nat)
    requires (width == 1 || width == 2) && i < 6
    ensures OperationAt(ChainGraph(width, attributes), Ascending(6), i)
  {
    ChainSizes(width);
    Spelled();
    DigestIsLowercase();
    hide ValueId, OpId, Count, IsDigest, OperationAt;
    PlaceOperation(ChainGraph(width, attributes), Ascending(6), i, ChainUsesOf(i));
  }

  lemma ChainLaidOut(width: nat, attributes: Attributes)
    requires width == 1 || width == 2
    ensures LaidOut(ChainGraph(width, attributes), Ascending(6))
    ensures InterfaceAt(ChainGraph(width, attributes), [0], [5])
  {
    forall i | 0 <= i < 6 ensures OperationAt(ChainGraph(width, attributes), Ascending(6), i) {
      ChainAt(width, attributes, i);
    }
    hide OperationAt;
  }

  lemma ChainConnected(width: nat, attributes: Attributes)
    ensures Connected(ChainGraph(width, attributes))
  {
    var g := ChainGraph(width, attributes);
    InputIsReached(g, "v0000");
    ReachesNext(g, 2, 0);
    ReachesNext(g, 4, 0);
    ReachesNext(g, 5, 0);
  }

  lemma ChainLoadable(width: nat, attributes: Attributes)
    requires width == 1 || width == 2
    ensures Loadable(ChainGraph(width, attributes))
  {
    var g := ChainGraph(width, attributes);
    ChainLaidOut(width, attributes);
    AscendingStands(g, Ascending(6));
    ChainConnected(width, attributes);
    hide LaidOut, InterfaceAt, StandsAsLoaded, Connected;
    LaidOutIsLoadable(g, Ascending(6), [0], [5]);
  }

  lemma AllTypes(width: nat)
    requires width == 1 || width == 2
    ensures DistinctValueIds(ChainValues(width))
    ensures var t := Descriptors(ChainValues(width));
      && "v0000" in t && "v0001" in t && "v0002" in t && "v0003" in t && "v0004" in t && "v0005" in t
      && t["v0000"] == t["v0001"] == t["v0002"] == Descriptor(Float32, [1, 1])
      && t["v0003"] == Descriptor(Float32, [width]) && t["v0004"] == t["v0005"] == Descriptor(Float32, [1, width])
  {
    var g, ids := ChainGraph(width, map[]), Ascending(6);
    ChainLaidOut(width, map[]);
    Spelled();
    hide LaidOut, Descriptors, ValueId, OpId, InterfaceAt;
    LaidOutTypes(g, ids, 0);
    LaidOutTypes(g, ids, 1);
    LaidOutTypes(g, ids, 2);
    LaidOutTypes(g, ids, 3);
    LaidOutTypes(g, ids, 4);
    LaidOutTypes(g, ids, 5);
  }

  lemma ChainBroadcasts(width: nat)
    requires width > 0
    ensures MatMulShape([1, 1], [1, 1]) == Some([1, 1])
    ensures BroadcastShape([1, 1], [width]) == Some([1, width])
  {
    var one: Shape := [1, 1];
    var empty: Shape := [];
    assert one[..0] == empty && BroadcastShape(empty, empty).value == empty;
    assert empty + [1, 1] == one;
    var bias: Shape := [width];
    assert DimFromRight(bias, 1) == 1;
    assert BroadcastShape(one, bias).value == [1, width];
  }

  lemma ChainVerified(A: Arith, width: nat, attributes: Attributes)
    requires width == 1 || width == 2
    ensures GraphVerified(A, ChainGraph(width, attributes))
  {
    var types, ops := Descriptors(ChainValues(width)), ChainOperations(attributes);
    AllTypes(width);
    ChainBroadcasts(width);
    forall i | 0 <= i < |ops| ensures Resolved(types, ops[i]) && OperationOk(A, types, ops[i]) {
      VerifiedAt(A, width, attributes, i);
    }
  }

  lemma VerifiedAt(A: Arith, width: nat, attributes: Attributes, i: nat)
    requires (width == 1 || width == 2) && i < 6
    ensures var types, ops := Descriptors(ChainValues(width)), ChainOperations(attributes);
      Resolved(types, ops[i]) && OperationOk(A, types, ops[i])
  {
    AllTypes(width);
    VerifiedIn(A, Descriptors(ChainValues(width)), width, attributes, i);
  }

  lemma VerifiedIn(A: Arith, t: Types, width: nat, attributes: Attributes, i: nat)
    requires (width == 1 || width == 2) && i < 6
    requires "v0000" in t && "v0001" in t && "v0002" in t && "v0003" in t && "v0004" in t && "v0005" in t
    requires t["v0000"] == t["v0001"] == t["v0002"] == Descriptor(Float32, [1, 1])
    requires t["v0003"] == Descriptor(Float32, [width]) && t["v0004"] == t["v0005"] == Descriptor(Float32, [1, width])
    ensures var op := ChainOperations(attributes)[i]; Resolved(t, op) && OperationOk(A, t, op)
  {
    ChainBroadcasts(width);
    hide MatMulShape, BroadcastShape, LinearShape, InferReshape, InferTranspose, RmsNormRules;
  }

  lemma UseCountStep(ops: seq<Operation>, n: nat, id: Id)
    requires n < |ops|
    ensures UseCount(ops[..0], id) == 0
    ensures UseCount(ops[..n + 1], id) == UseCount(ops[..n], id) + multiset(ops[n].inputs)[id]
  {
    assert ops[..n + 1][..n] == ops[..n];
  }

  lemma ChainUseAt(attributes: Attributes, n: nat, id: Id)
    requires n < 6 && (id == "v0002" || id == "v0004")
    ensures multiset(ChainOperations(attributes)[n].inputs)[id]
         == if (n == 4 && id == "v0002") || (n == 5 && id == "v0004") then 1 else 0
  {
  }

  lemma {:induction false} ChainUsesBelow(attributes: Attributes, n: nat, id: Id)
    requires n <= 6 && (id == "v0002" || id == "v0004")
    ensures UseCount(ChainOperations(attributes)[..n], id)
         == if (n > 4 && id == "v0002") || (n > 5 && id == "v0004") then 1 else 0
  {
    if n > 0 {
      ChainUsesBelow(attributes, n - 1, id);
      ChainUseAt(attributes, n - 1, id);
      UseCountStep(ChainOperations(attributes), n - 1, id);
    }
  }

  lemma ChainUses(attributes: Attributes, id: Id)
    requires id == "v0002" || id == "v0004"
    ensures UseCount(ChainOperations(attributes), id) == 1
  {
    ChainUsesBelow(attributes, 6, id);
    assert ChainOperations(attributes)[..6] == ChainOperations(attributes);
  }

  lemma ChainProducers(attributes: Attributes)
    ensures ProducerIndex(ChainOperations(attributes), "v0004") == Some(4)
    ensures ProducerIndex(ChainOperations(attributes), "v0002") == Some(2)
  {
    ChainLaidOut(1, attributes);
    LaidOutDistinct(ChainGraph(1, attributes), Ascending(6));
    ProducerIndexAt(ChainOperations(attributes), 4);
    ProducerIndexAt(ChainOperations(attributes), 2);
  }

  lemma ChainBase(attributes: Attributes)
    requires "side_effect" !in attributes
    ensures BaseOf(ChainOperations(attributes), ChainOperations(attributes)[4]) == Some((2, "v0003"))
  {
    ChainProducers(attributes);
    hide ProducerIndex;
  }

  lemma ChainBias(width: nat)
    requires width == 1 || width == 2
    ensures BiasMatches(ChainValues(width), "v0003", "v0004")
  {
    AllTypes(width);
    ValueNamedAt(ChainValues(width), 3);
    ValueNamedAt(ChainValues(width), 4);
    hide ValueNamed;
  }

  lemma ChainMatches(width: nat, attributes: Attributes)
    requires (width == 1 || width == 2) && "side_effect" !in attributes
    ensures MatchAt(ChainGraph(width, attributes), 5) == Some(Match(2, 4, "v0003"))
  {
    hide ProducerIndex, UseCount, BaseOf, BiasMatches;
    ChainProducers(attributes);
    ChainBase(attributes);
    ChainBias(width);
    ChainUses(attributes, "v0002");
    ChainUses(attributes, "v0004");
  }

  /** A product that asks for exact GELU. */
  function Activating(): Attributes {
    map["fused_activation" := JString("GELU"), "fused_activation_approximate" := JString("none")]
  }

  lemma BaseIsActivated()
    ensures "side_effect" !in Activating() && FusedContract(ChainOperations(Activating())[2])
  {
  }

  /** A graph loader and verifier accept whose chain starts at an activated product: fusing it changes its meaning. */
  lemma ActivatedChainIsReceivable(A: Arith)
    ensures var g := ChainGraph(1, Activating()); Loadable(g) && GraphVerified(A, g) && !PlainBases(g)
  {
    BaseIsActivated();
    ChainLoadable(1, Activating());
    ChainVerified(A, 1, Activating());
    ChainMatches(1, Activating());
    hide MatchAt, Loadable, GraphVerified, FusedContract, Activating, ChainValues;
    assert MatchAt(ChainGraph(1, Activating()), 5).value.base == 2;
  }

  lemma ChainIsNarrow()
    ensures Narrow(ChainGraph(2, map[]), Match(2, 4, "v0003"))
  {
    AllTypes(2);
    hide Descriptors, ChainValues;
  }

  /** A graph loader and verifier accept with a narrow chain: what fusion makes of it is rejected. */
  lemma NarrowChainIsReceivable(A: Arith)
    ensures var g := ChainGraph(2, map[]);
      && Loadable(g) && GraphVerified(A, g) && !NoNarrowChain(g) && !GraphVerified(A, Fuse(g))
  {
    var g := ChainGraph(2, map[]);
    ChainLoadable(2, map[]);
    ChainVerified(A, 2, map[]);
    ChainMatches(2, map[]);
    ChainIsNarrow();
    assert Ordered(g) && |g.operations| == 6;
    hide Loadable, Ordered, GraphVerified, MatchAt, Narrow, ChainGraph;
    FusionVerified(A, g);
    assert Narrow(g, MatchAt(g, 5).value);
  }
}
