/** Searching a manifest snapshot: the checks on snapshot, options and query, then the query itself. */
module SnapshotSearch {
  import opened Common
  import opened Records
  import opened Reading
  import opened Search
  import opened SearchLoop
  import opened SearchRun
  import opened StorageModel
  import opened InsertPlanning

  /** The checks a query must pass before anything is read. */
  predicate Wellformed(snapshot: Manifest, query: Vector, options: SearchOptions) {
    ManifestError(snapshot).None? && options.Valid() && |query| == snapshot.config.dimensions
  }

  /** A snapshot that lists neither segments nor a delta shows nothing. */
  lemma NothingListed(s: Store, snapshot: Manifest)
    requires snapshot.segments == [] && snapshot.hotDelta.None?
    ensures ViewOf(s, snapshot).nodes == map[]
  {}

  /** The snapshot's delta was collected. */
  predicate DeltaGone(s: Store, snapshot: Manifest) {
    snapshot.hotDelta.Some? && snapshot.hotDelta.value !in s.deltas
  }

  predicate ListsNothing(snapshot: Manifest) { snapshot.segments == [] && snapshot.hotDelta.None? }

  /**
   * Searches a snapshot; `view` is what reads through it show while its data is there. A malformed snapshot, malformed
   * options or a query of the wrong width is refused with its own error, in this order; so is a query that no quantizer
   * can encode, and no answer comes from a snapshot whose delta is gone. Any other answer is the specified one for the
   * normalised query, and budgets that no query can exceed never fail it.
   */
  method SearchWithSnapshot(env: OnlineEnv, z: Sizes, ghost s: Store, view: View, gone: bool, snapshot: Manifest,
                            query: Vector, options: SearchOptions, ghost bound: nat)
    returns (r: Result<seq<SearchHit>>)
    requires view == ViewOf(s, snapshot) && Keyed(view.nodes) && gone == DeltaGone(s, snapshot)
    ensures ManifestError(snapshot).Some? ==> r == Err(ManifestError(snapshot).value)
    ensures ManifestError(snapshot).None? && !options.Valid() ==> r == Err(InvalidConfig)
    ensures ManifestError(snapshot).None? && options.Valid() && |query| != snapshot.config.dimensions ==> r == Err(InvalidDimension)
    ensures r.Ok? ==> Wellformed(snapshot, query, options) && (ListsNothing(snapshot) || Routable(snapshot)) && !gone
    ensures r.Ok? ==> r.value == Answer(view, snapshot.starts, env.planFor(env.normalize(query)), options)
    ensures Wellformed(snapshot, query, options) && Routable(snapshot) && !gone
        && Ample(z, view, StartIds(snapshot.starts, options.filter), env.planFor(env.normalize(query)), options, bound)
      ==> r.Ok?
  {
    hide ManifestError, Routable, ViewOf, Answer, Ample, StartIds;
    if ManifestError(snapshot).Some? {
      return Err(ManifestError(snapshot).value);
    }
    if !options.Valid() {
      return Err(InvalidConfig);
    }
    if |query| != snapshot.config.dimensions {
      return Err(InvalidDimension);
    }
    if ListsNothing(snapshot) {
      NothingListed(s, snapshot);
    } else if !Routable(snapshot) {
      return Err(InvalidStorageState);
    } else if gone {
      return Err(StorageNotFound);
    }
    r := SearchSnapshot(z, view, snapshot.starts, ListsNothing(snapshot), env.planFor(env.normalize(query)), options, bound);
  }
}
