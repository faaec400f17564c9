/** Index configuration, node records and start nodes. */
module Records {
  import opened Common
  import opened Labels

  type Vector = seq<real>

  datatype DistanceMetric = Cosine | L2 | InnerProduct

  datatype QuantizerConfig = Unquantized | SbqBits(bitsPerDimension: nat, useMean: bool)

  datatype IndexConfig = IndexConfig(
    dimensions: nat,
    routingDimensions: nat,
    distance: DistanceMetric,
    maxNeighbors: nat,
    buildSearchListSize: nat,
    maxAlpha: real,
    quantizer: QuantizerConfig,
    hasLabels: bool)
  {
    predicate Valid() {
      && 0 < routingDimensions <= dimensions
      && 0 < maxNeighbors
      && 0 < buildSearchListSize
      && 1.0 <= maxAlpha
      && (quantizer.SbqBits? ==> 1 <= quantizer.bitsPerDimension <= 32)
    }

    /** `ceil(1.3 * maxNeighbors)`: the cap on a list while the graph is being wired. */
    function MaxNeighborsDuringBuild(): (cap: nat)
      ensures cap >= maxNeighbors
    {
      (13 * maxNeighbors + 9) / 10
    }

    lemma CapIsCeiling()
      ensures MaxNeighborsDuringBuild() as real >= 1.3 * maxNeighbors as real
      ensures 1.3 * maxNeighbors as real > MaxNeighborsDuringBuild() as real - 1.0
    {
      var cap, product := MaxNeighborsDuringBuild(), 13 * maxNeighbors;
      assert 10 * cap >= product > 10 * (cap - 1);
      assert 1.3 * maxNeighbors as real == product as real / 10.0;
    }
  }

  datatype RoutingVector = Plain(components: Vector) | Sbq(words: seq<bv64>)

  predicate RoutingVectorFits(vector: RoutingVector, config: IndexConfig) {
    match (vector, config.quantizer)
    case (Plain(components), Unquantized) => |components| == config.routingDimensions
    case (Sbq(words), SbqBits(bits, _)) => |words| == (config.routingDimensions * bits + 63) / 64
    case (_, _) => false
  }

  datatype NodeRecord = NodeRecord(
    id: NodeId,
    externalId: nat,
    routing: RoutingVector,
    full: Option<Vector>,
    labels: LabelSet,
    neighbors: seq<NodeId>)

  ghost predicate NeighborsValid(id: NodeId, neighbors: seq<NodeId>, maxNeighbors: nat) {
    && |neighbors| <= maxNeighbors
    && id !in neighbors
    && Distinct(neighbors)
  }

  /** Every condition on a record other than the one on its neighbour list. */
  ghost predicate PayloadValid(record: NodeRecord, config: IndexConfig) {
    && config.Valid()
    && RoutingVectorFits(record.routing, config)
    && (record.full.Some? ==> |record.full.value| == config.dimensions)
    && (!config.hasLabels ==> record.labels == [])
  }

  ghost predicate RecordValid(record: NodeRecord, config: IndexConfig) {
    PayloadValid(record, config) && NeighborsValid(record.id, record.neighbors, config.maxNeighbors)
  }

  /** The neighbour-list scan shared by record validation and neighbour rewrites. */
  method ValidateNeighbors(id: NodeId, neighbors: seq<NodeId>, maxNeighbors: nat) returns (ok: bool)
    ensures ok <==> NeighborsValid(id, neighbors, maxNeighbors)
  {
    if |neighbors| > maxNeighbors {
      return false;
    }
    var seen: set<NodeId> := {};
    for i := 0 to |neighbors|
      invariant seen == Elements(neighbors[..i])
      invariant id !in neighbors[..i] && Distinct(neighbors[..i])
    {
      if neighbors[i] == id || neighbors[i] in seen {
        return false;
      }
      assert neighbors[..i + 1] == neighbors[..i] + [neighbors[i]];
      seen := seen + {neighbors[i]};
    }
    assert neighbors[..|neighbors|] == neighbors;
    return true;
  }

  method ValidateRecord(record: NodeRecord, config: IndexConfig) returns (ok: bool)
    ensures ok <==> RecordValid(record, config)
  {
    if !config.Valid() || !RoutingVectorFits(record.routing, config) {
      return false;
    }
    if record.full.Some? && |record.full.value| != config.dimensions {
      return false;
    }
    if !config.hasLabels && record.labels != [] {
      return false;
    }
    ok := ValidateNeighbors(record.id, record.neighbors, config.maxNeighbors);
  }

  /** Entry points of a graph walk: one default node and one node per known label. */
  datatype StartNodes = StartNodes(defaultNode: NodeId, labeled: map<Label, NodeId>) {
    function Upsert(lbl: Label, node: NodeId): StartNodes {
      this.(labeled := labeled[lbl := node])
    }

    /** The default node followed by the labelled nodes in label order. */
    function AllNodes(): (nodes: seq<NodeId>)
      ensures forall n :: n in nodes <==> n == defaultNode || exists l :: l in labeled && labeled[l] == n
    {
      [defaultNode] + NodesOf(Ascending(labeled.Keys))
    }

    function NodesOf(labels: seq<Label>): (nodes: seq<NodeId>)
      requires forall l :: l in labels ==> l in labeled
      ensures forall n :: n in nodes <==> exists l :: l in labels && labeled[l] == n
    {
      if labels == [] then []
      else
        assert forall l :: l in labels <==> l == labels[0] || l in labels[1..];
        [labeled[labels[0]]] + NodesOf(labels[1..])
    }

    /** The labelled nodes of those labels that have one; the default node for an empty set. */
    function ForLabels(labels: LabelSet): (nodes: seq<NodeId>)
      ensures labels == [] ==> nodes == [defaultNode]
      ensures labels != [] ==> forall n :: n in nodes <==> exists l :: l in labels && l in labeled && labeled[l] == n
    {
      if labels == [] then [defaultNode] else Lookup(labels)
    }

    function Lookup(labels: seq<Label>): (nodes: seq<NodeId>)
      ensures forall n :: n in nodes <==> exists l :: l in labels && l in labeled && labeled[l] == n
    {
      if labels == [] then []
      else
        var rest := Lookup(labels[1..]);
        assert forall l :: l in labels <==> l == labels[0] || l in labels[1..];
        if labels[0] in labeled then [labeled[labels[0]]] + rest else rest
    }
  }
}
