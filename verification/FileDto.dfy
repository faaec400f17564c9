/**
 * The on-disk shapes of manifests, segments, deltas and quantizers: maps become lists in key order, and reading puts
 * every record under its own id.
 */
module FileDto {
  import opened Common
  import opened Labels
  import opened Records
  import opened Reading
  import opened StorageModel

  // ----- maps in key order -----

  predicate IsMin(m: nat, s: set<nat>) { m in s && forall x :: x in s ==> m <= x }

  lemma {:induction false} MinExists(s: set<nat>)
    requires s != {}
    ensures exists m: nat :: IsMin(m, s)
    decreases s
  {
    var x :| x in s;
    if s == {x} {
      assert IsMin(x, s);
    } else {
      MinExists(s - {x});
      var y: nat :| IsMin(y, s - {x});
      var m := if x < y then x else y;
      forall z | z in s ensures m <= z { assert z == x || z in s - {x}; }
      assert IsMin(m, s);
    }
  }

  function KeysInOrder(s: set<nat>): (r: seq<nat>)
    ensures StrictlySorted(r)
    ensures forall x: nat :: x in r <==> x in s
  {
    if s == {} then []
    else
      MinExists(s);
      var least: nat :| IsMin(least, s);
      var rest := KeysInOrder(s - {least});
      assert forall i :: 0 <= i < |rest| ==> rest[i] in rest && least < rest[i];
      [least] + rest
  }

  /** The values of a tree map in key order. */
  function ValuesInOrder<T>(m: map<nat, T>): (r: seq<T>)
    ensures |r| == |KeysInOrder(m.Keys)|
    ensures forall i :: 0 <= i < |r| ==> KeysInOrder(m.Keys)[i] in m && r[i] == m[KeysInOrder(m.Keys)[i]]
  {
    var keys := KeysInOrder(m.Keys);
    assert forall i :: 0 <= i < |keys| ==> keys[i] in keys && keys[i] in m.Keys;
    seq(|keys|, i requires 0 <= i < |keys| => m[keys[i]])
  }

  /** Collecting pairs into a map: a later pair with the same key wins. */
  function Collected<K, T>(pairs: seq<(K, T)>): map<K, T> {
    if pairs == [] then map[]
    else Collected(pairs[..|pairs| - 1])[pairs[|pairs| - 1].0 := pairs[|pairs| - 1].1]
  }

  function PairsInOrder<T>(m: map<nat, T>): (r: seq<(nat, T)>)
    ensures |r| == |KeysInOrder(m.Keys)|
    ensures forall i :: 0 <= i < |r| ==> KeysInOrder(m.Keys)[i] in m && r[i] == (KeysInOrder(m.Keys)[i], m[KeysInOrder(m.Keys)[i]])
  {
    var keys := KeysInOrder(m.Keys);
    assert forall i :: 0 <= i < |keys| ==> keys[i] in keys && keys[i] in m.Keys;
    seq(|keys|, i requires 0 <= i < |keys| => (keys[i], m[keys[i]]))
  }

  /** Pairs taken from a map collect into a part of it that has all their keys. */
  lemma {:induction false} CollectedAgrees<K, T>(pairs: seq<(K, T)>, m: map<K, T>)
    requires forall i :: 0 <= i < |pairs| ==> pairs[i].0 in m && m[pairs[i].0] == pairs[i].1
    ensures forall k :: k in Collected(pairs) ==> k in m && Collected(pairs)[k] == m[k]
    ensures forall i :: 0 <= i < |pairs| ==> pairs[i].0 in Collected(pairs)
  {
    if pairs != [] {
      CollectedAgrees(pairs[..|pairs| - 1], m);
    }
  }

  /** Writing a map out in key order and collecting it again changes nothing. */
  lemma MapRoundTrip<T>(m: map<nat, T>)
    ensures Collected(PairsInOrder(m)) == m
  {
    hide Collected, KeysInOrder, PairsInOrder;
    var keys, pairs := KeysInOrder(m.Keys), PairsInOrder(m);
    CollectedAgrees(pairs, m);
    forall k: nat | k in m ensures k in Collected(pairs) {
      assert k in keys;
      var i :| 0 <= i < |keys| && keys[i] == k;
      assert pairs[i].0 == k;
    }
  }

  // ----- records -----

  datatype RecordDto = RecordDto(
    id: nat, externalId: nat, routing: RoutingVector, full: Option<Vector>, labels: seq<Label>, neighbors: seq<nat>)

  function RecordToDto(r: NodeRecord): RecordDto {
    RecordDto(r.id, r.externalId, r.routing, r.full, r.labels, r.neighbors)
  }

  function RecordFromDto(d: RecordDto): NodeRecord {
    NodeRecord(d.id, d.externalId, d.routing, d.full, FromList(d.labels), d.neighbors)
  }

  lemma RecordRoundTrip(r: NodeRecord)
    ensures RecordFromDto(RecordToDto(r)) == r
  {
    SortDedupIdempotent(r.labels);
  }

  /** Records written in order are keyed by their own ids when they are read. */
  function RecordsToDto(nodes: map<NodeId, NodeRecord>): (r: seq<RecordDto>)
    ensures |r| == |ValuesInOrder(nodes)|
    ensures forall i :: 0 <= i < |r| ==> r[i] == RecordToDto(ValuesInOrder(nodes)[i])
  {
    var values := ValuesInOrder(nodes);
    seq(|values|, i requires 0 <= i < |values| => RecordToDto(values[i]))
  }

  function KeyedRecords(dtos: seq<RecordDto>): (r: seq<(nat, NodeRecord)>)
    ensures |r| == |dtos|
    ensures forall i :: 0 <= i < |r| ==> r[i] == (dtos[i].id, RecordFromDto(dtos[i]))
  {
    seq(|dtos|, i requires 0 <= i < |dtos| => (dtos[i].id, RecordFromDto(dtos[i])))
  }

  function RecordsFromDto(dtos: seq<RecordDto>): map<NodeId, NodeRecord> { Collected(KeyedRecords(dtos)) }

  lemma {:induction false} CollectedKeyed(dtos: seq<RecordDto>)
    ensures Keyed(RecordsFromDto(dtos))
  {
    if dtos != [] {
      var front := dtos[..|dtos| - 1];
      CollectedKeyed(front);
      assert KeyedRecords(dtos)[..|dtos| - 1] == KeyedRecords(front);
    }
  }

  /** Node maps survive the trip exactly when every record is held under its own id. */
  lemma RecordsRoundTrip(nodes: map<NodeId, NodeRecord>)
    ensures RecordsFromDto(RecordsToDto(nodes)) == nodes <==> Keyed(nodes)
  {
    CollectedKeyed(RecordsToDto(nodes));
    if Keyed(nodes) {
      var dtos, pairs := RecordsToDto(nodes), PairsInOrder(nodes);
      forall i | 0 <= i < |dtos| ensures KeyedRecords(dtos)[i] == pairs[i] {
        RecordRoundTrip(ValuesInOrder(nodes)[i]);
      }
      assert KeyedRecords(dtos) == pairs;
      MapRoundTrip(nodes);
    }
  }

  // ----- deltas -----

  datatype DeltaDto = DeltaDto(records: seq<RecordDto>, rewrites: seq<(nat, seq<nat>)>, tombstones: seq<(nat, nat)>)

  function DeltaToDto(d: Delta): DeltaDto {
    DeltaDto(RecordsToDto(d.records), PairsInOrder(d.rewrites), PairsInOrder(d.tombstones))
  }

  function DeltaFromDto(d: DeltaDto): Delta {
    Delta(RecordsFromDto(d.records), Collected(d.rewrites), Collected(d.tombstones))
  }

  /** A delta survives the trip exactly when its records are held under their own ids. */
  lemma DeltaRoundTrip(d: Delta)
    ensures DeltaFromDto(DeltaToDto(d)) == d <==> Keyed(d.records)
  {
    hide RecordsFromDto, RecordsToDto, Keyed, PairsInOrder, Collected;
    RecordsRoundTrip(d.records);
    MapRoundTrip(d.rewrites);
    MapRoundTrip(d.tombstones);
  }

  // ----- manifests -----

  datatype ConfigDto = ConfigDto(
    dimensions: nat, routingDimensions: nat, distance: string, maxNeighbors: nat, buildSearchListSize: nat, maxAlpha: real,
    quantizer: QuantizerConfig, hasLabels: bool)

  datatype StartsDto = StartsDto(defaultNode: nat, labeled: seq<(Label, nat)>)

  datatype ManifestDto = ManifestDto(
    magic: string, formatVersion: nat, version: nat, config: ConfigDto, starts: StartsDto, segments: seq<Segment>,
    hotDelta: Option<nat>, tombstoneEpoch: nat, quantizers: seq<QuantizerReference>, maxAssigned: Option<nat>)

  const MANIFEST_MAGIC: string := "streaming-diskann-file/manifest"
  const JSON_FORMAT_VERSION: nat := 1

  function MetricName(m: DistanceMetric): string {
    match m
    case L2 => "l2"
    case Cosine => "cosine"
    case InnerProduct => "innerProduct"
  }

  function MetricFromName(name: string): Option<DistanceMetric> {
    if name == "l2" then Some(L2) else if name == "cosine" then Some(Cosine)
    else if name == "innerProduct" then Some(InnerProduct) else None
  }

  function ConfigToDto(c: IndexConfig): ConfigDto {
    ConfigDto(c.dimensions, c.routingDimensions, MetricName(c.distance), c.maxNeighbors, c.buildSearchListSize, c.maxAlpha,
              c.quantizer, c.hasLabels)
  }

  function ConfigFromDto(d: ConfigDto): Result<IndexConfig> {
    match MetricFromName(d.distance)
    case None => Err(InvalidStorageState)
    case Some(metric) =>
      Ok(IndexConfig(d.dimensions, d.routingDimensions, metric, d.maxNeighbors, d.buildSearchListSize, d.maxAlpha,
                     d.quantizer, d.hasLabels))
  }

  /** Labelled starts in label order. */
  function StartsToDto(s: StartNodes): StartsDto {
    var labels := Ascending(s.labeled.Keys);
    StartsDto(s.defaultNode, seq(|labels|, i requires 0 <= i < |labels| => assert labels[i] in labels; (labels[i], s.labeled[labels[i]])))
  }

  function UpsertAll(s: StartNodes, labeled: seq<(Label, nat)>): StartNodes {
    if labeled == [] then s
    else UpsertAll(s, labeled[..|labeled| - 1]).Upsert(labeled[|labeled| - 1].0, labeled[|labeled| - 1].1)
  }

  function StartsFromDto(d: StartsDto): StartNodes { UpsertAll(StartNodes(d.defaultNode, map[]), d.labeled) }

  lemma {:induction false} UpsertAllCollects(node: NodeId, labeled: seq<(Label, nat)>)
    ensures UpsertAll(StartNodes(node, map[]), labeled) == StartNodes(node, Collected(labeled))
  {
    if labeled != [] {
      UpsertAllCollects(node, labeled[..|labeled| - 1]);
    }
  }

  lemma StartsRoundTrip(s: StartNodes)
    ensures StartsFromDto(StartsToDto(s)) == s
  {
    hide Collected, UpsertAll;
    var labels, pairs := Ascending(s.labeled.Keys), StartsToDto(s).labeled;
    UpsertAllCollects(s.defaultNode, pairs);
    CollectedAgrees(pairs, s.labeled);
    forall l: Label | l in s.labeled ensures l in Collected(pairs) {
      assert l in labels;
      var i :| 0 <= i < |labels| && labels[i] == l;
      assert pairs[i].0 == l;
    }
    assert Collected(pairs) == s.labeled;
  }

  function ManifestToDto(m: Manifest): ManifestDto {
    ManifestDto(MANIFEST_MAGIC, JSON_FORMAT_VERSION, m.version, ConfigToDto(m.config), StartsToDto(m.starts), m.segments,
                m.hotDelta, m.tombstoneEpoch, m.quantizers, m.maxAssigned)
  }

  function ManifestFromDto(d: ManifestDto): Result<Manifest> {
    if d.magic != MANIFEST_MAGIC || d.formatVersion != JSON_FORMAT_VERSION then Err(InvalidStorageState)
    else
      match ConfigFromDto(d.config)
      case Err(e) => Err(e)
      case Ok(config) =>
        Ok(Manifest(d.version, config, StartsFromDto(d.starts), d.segments, d.hotDelta, d.tombstoneEpoch, d.quantizers, d.maxAssigned))
  }

  lemma ManifestRoundTrip(m: Manifest)
    ensures ManifestFromDto(ManifestToDto(m)) == Ok(m)
  {
    hide StartsFromDto, StartsToDto;
    StartsRoundTrip(m.starts);
  }
}
