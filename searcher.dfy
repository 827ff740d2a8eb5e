/**
 * FaissSearcher: loads the two artifacts once, optionally copies the index to
 * a GPU, and answers queries by mapping the ordinals faiss returns back to
 * image paths. What faiss returns for a query is an input here.
 */
module Searcher {
  import opened FaissModel

  /** The fields of a FaissSearcher that the logic reads. */
  datatype SearcherState = SearcherState(
    indexCpu: Option<FlatIndex>,
    indexGpu: Option<FlatIndex>,
    imagePaths: Option<seq<Path>>,
    isGpuEnabled: bool)

  /** The fields as `__init__` sets them before loading. */
  const Unloaded: SearcherState := SearcherState(None, None, None, false)

  /** How the attempt to copy the index to a GPU goes. */
  datatype GpuProbe =
    | NoGpu            // get_num_gpus() == 0
    | GpuUnsupported   // a CPU-only faiss build: AttributeError
    | GpuError         // creating the resources or copying the index raised
    | GpuReady         // the copy succeeded

  /** `_load_and_init_gpu` as a state transition. */
  function LoadTransition(s: SearcherState, indexFile: FileState<FlatIndex>, mappingFile: FileState<seq<Path>>, gpu: GpuProbe)
    : (bool, SearcherState)
  {
    if indexFile.Missing? || mappingFile.Missing? then (false, s)
    else if indexFile.Unreadable? || mappingFile.Unreadable? then
      (false, s.(indexCpu := None, indexGpu := None, imagePaths := None))
    else
      var loaded := s.(indexCpu := Some(indexFile.content), imagePaths := Some(mappingFile.content));
      if gpu == GpuReady then (true, loaded.(indexGpu := Some(indexFile.content), isGpuEnabled := true))
      else (true, loaded.(isGpuEnabled := false))
  }

  /** `get_active_index`: the GPU copy when it is in use, else the CPU index, else none. */
  function ActiveIndex(s: SearcherState): (r: Option<FlatIndex>)
    ensures r.None? <==> s.indexCpu.None? && !(s.isGpuEnabled && s.indexGpu.Some?)
    ensures s.isGpuEnabled && s.indexGpu.Some? ==> r == s.indexGpu
    ensures !(s.isGpuEnabled && s.indexGpu.Some?) ==> r == s.indexCpu
  {
    if s.isGpuEnabled && s.indexGpu.Some? then s.indexGpu
    else if s.indexCpu.Some? then s.indexCpu
    else None
  }

  /** What `get_index_status` reports; its wording is not modelled. */
  datatype IndexStatus = Loaded(ntotal: nat, d: nat, usingGpu: bool) | NotLoaded

  /** `get_index_status`: "loaded" exactly when there is an active index, described by that index. */
  function GetIndexStatus(s: SearcherState): (r: IndexStatus)
    ensures r.Loaded? <==> ActiveIndex(s).Some?
    ensures r.Loaded? ==> r.ntotal == ActiveIndex(s).value.Ntotal() && r.d == ActiveIndex(s).value.d
    ensures r.Loaded? ==> r.usingGpu == s.isGpuEnabled
  {
    match ActiveIndex(s)
    case Some(index) => Loaded(index.Ntotal(), index.d, s.isGpuEnabled)
    case None => NotLoaded
  }

  /** The states a searcher can be in after construction. */
  predicate Consistent(s: SearcherState)
  {
    && (s.indexCpu.Some? <==> s.imagePaths.Some?)
    && (s.isGpuEnabled <==> s.indexGpu.Some?)
    && (s.indexGpu.Some? ==> s.indexGpu == s.indexCpu)
  }

  /** A constructed searcher is consistent, loaded exactly on success, and a GPU copy holds the loaded index. */
  lemma LoadOutcomes(indexFile: FileState<FlatIndex>, mappingFile: FileState<seq<Path>>, gpu: GpuProbe)
    ensures var (ok, s) := LoadTransition(Unloaded, indexFile, mappingFile, gpu);
            && Consistent(s)
            && (ok <==> indexFile.Holds? && mappingFile.Holds?)
            && (!ok ==> s == Unloaded && ActiveIndex(s).None?)
            && (ok ==> ActiveIndex(s) == Some(indexFile.content) && s.imagePaths == Some(mappingFile.content))
            && (ok ==> (s.isGpuEnabled <==> gpu == GpuReady))
  {
  }

  /** In a consistent searcher the GPU copy and the CPU index agree, so the choice does not change the answer. */
  lemma ActiveIndexOfConsistent(s: SearcherState)
    requires Consistent(s)
    ensures ActiveIndex(s) == s.indexCpu
    ensures ActiveIndex(s).Some? <==> s.imagePaths.Some?
  {
  }

  // ---------------------------------------------------------------------------
  // Mapping the ordinals faiss returns to image paths
  // ---------------------------------------------------------------------------

  /** One row entry of faiss's answer: an ordinal (-1 when there is no match) and its score. */
  datatype Hit = Hit(ordinal: int, score: real)

  /** The results a query yields: each in-range ordinal mapped to its path, in faiss's order. */
  function Resolve(hits: seq<Hit>, paths: seq<Path>): seq<(Path, real)>
  {
    if hits == [] then []
    else
      var prefix := Resolve(hits[..|hits| - 1], paths);
      var h := hits[|hits| - 1];
      if 0 <= h.ordinal < |paths| then prefix + [(paths[h.ordinal], h.score)] else prefix
  }

  /** No more results than ordinals, hence at most k when faiss returns k. */
  lemma {:induction false} ResolveLength(hits: seq<Hit>, paths: seq<Path>, k: int)
    ensures |Resolve(hits, paths)| <= |hits|
    ensures |hits| <= k ==> |Resolve(hits, paths)| <= k
  {
    if hits != [] {
      ResolveLength(hits[..|hits| - 1], paths, k);
    }
  }

  /** Every result is the path of an in-range ordinal faiss returned, with that ordinal's score. */
  lemma {:induction false} ResolveSound(hits: seq<Hit>, paths: seq<Path>, j: nat)
    requires j < |Resolve(hits, paths)|
    ensures exists i :: 0 <= i < |hits| && 0 <= hits[i].ordinal < |paths|
                        && Resolve(hits, paths)[j] == (paths[hits[i].ordinal], hits[i].score)
  {
    var prefix := hits[..|hits| - 1];
    if j < |Resolve(prefix, paths)| {
      ResolveSound(prefix, paths, j);
      var i :| 0 <= i < |prefix| && 0 <= prefix[i].ordinal < |paths|
               && Resolve(prefix, paths)[j] == (paths[prefix[i].ordinal], prefix[i].score);
      assert hits[i] == prefix[i];
    } else {
      assert Resolve(hits, paths)[j] == (paths[hits[|hits| - 1].ordinal], hits[|hits| - 1].score);
    }
  }

  /** Every in-range ordinal faiss returned yields a result. */
  lemma {:induction false} ResolveComplete(hits: seq<Hit>, paths: seq<Path>, i: nat)
    requires i < |hits| && 0 <= hits[i].ordinal < |paths|
    ensures (paths[hits[i].ordinal], hits[i].score) in Resolve(hits, paths)
  {
    var prefix := hits[..|hits| - 1];
    if i < |hits| - 1 {
      assert prefix[i] == hits[i];
      ResolveComplete(prefix, paths, i);
    }
  }

  /** Results keep the order of the ordinals: resolving consecutive pieces concatenates. */
  lemma {:induction false} ResolveAppend(a: seq<Hit>, b: seq<Hit>, paths: seq<Path>)
    ensures Resolve(a + b, paths) == Resolve(a, paths) + Resolve(b, paths)
  {
    if b == [] {
      assert a + b == a;
    } else {
      var b' := b[..|b| - 1];
      assert (a + b)[..|a + b| - 1] == a + b';
      assert (a + b)[|a + b| - 1] == b[|b| - 1];
      ResolveAppend(a, b', paths);
    }
  }

  /** The no-match marker and out-of-range ordinals are dropped without disturbing the rest. */
  lemma ResolveDropsInvalid(a: seq<Hit>, h: Hit, b: seq<Hit>, paths: seq<Path>)
    requires h.ordinal == -1 || !(0 <= h.ordinal < |paths|)
    ensures Resolve(a + [h] + b, paths) == Resolve(a + b, paths)
  {
    ResolveAppend(a + [h], b, paths);
    ResolveAppend(a, [h], paths);
    ResolveAppend(a, b, paths);
    assert [h][..0] == [];
  }

  /** The loop of `search` that walks faiss's ordinals and scores and appends the valid ones. */
  method ResolveHits(hits: seq<Hit>, paths: seq<Path>) returns (results: seq<(Path, real)>)
    ensures results == Resolve(hits, paths)
  {
    results := [];
    var n := 0;
    while n < |hits|
      invariant 0 <= n <= |hits|
      invariant results == Resolve(hits[..n], paths)
    {
      var i, dist := hits[n].ordinal, hits[n].score;
      assert hits[..n + 1][..n] == hits[..n];
      if i == -1 || !(0 <= i < |paths|) {
        n := n + 1;
        continue;
      }
      results := results + [(paths[i], dist)];
      n := n + 1;
    }
    assert hits[..n] == hits;
  }

  /** How `search` ends: a result list, or the ValueError for a query of the wrong length. */
  datatype SearchOutcome = Results(pairs: seq<(Path, real)>) | QueryDimMismatch

  // ---------------------------------------------------------------------------
  // The class
  // ---------------------------------------------------------------------------

  class FaissSearcher {
    var indexCpu: Option<FlatIndex>
    var indexGpu: Option<FlatIndex>
    var imagePaths: Option<seq<Path>>
    var isGpuEnabled: bool

    function State(): SearcherState
      reads this
    {
      SearcherState(indexCpu, indexGpu, imagePaths, isGpuEnabled)
    }

    /** `__init__`: start unloaded, then load; the load's own result is not kept. */
    constructor (indexFile: FileState<FlatIndex>, mappingFile: FileState<seq<Path>>, gpu: GpuProbe)
      ensures State() == LoadTransition(Unloaded, indexFile, mappingFile, gpu).1
      ensures Consistent(State())
    {
      indexCpu, indexGpu, imagePaths, isGpuEnabled := None, None, None, false;
      new;
      var _ := LoadAndInitGpu(indexFile, mappingFile, gpu);
      LoadOutcomes(indexFile, mappingFile, gpu);
    }

    method LoadAndInitGpu(indexFile: FileState<FlatIndex>, mappingFile: FileState<seq<Path>>, gpu: GpuProbe)
      returns (ok: bool)
      modifies this
      ensures (ok, State()) == LoadTransition(old(State()), indexFile, mappingFile, gpu)
    {
      if indexFile.Missing? || mappingFile.Missing? {
        return false;
      }
      if indexFile.Unreadable? {
        indexCpu, indexGpu, imagePaths := None, None, None;
        return false;
      }
      indexCpu := Some(indexFile.content);
      if mappingFile.Unreadable? {
        indexCpu, indexGpu, imagePaths := None, None, None;
        return false;
      }
      imagePaths := Some(mappingFile.content);
      if gpu == GpuReady {
        indexGpu := indexCpu;
        isGpuEnabled := true;
      } else {
        isGpuEnabled := false;
      }
      return true;
    }

    /**
     * `search(query_feature, k)`; `hits` is what the active index returns for
     * the query, at most k entries.
     */
    method Search(query: Vector, k: int, hits: seq<Hit>) returns (r: SearchOutcome)
      ensures ActiveIndex(State()).None? || imagePaths.None? ==> r == Results([])
      ensures ActiveIndex(State()).Some? && ActiveIndex(State()).value.Ntotal() == 0 ==> r == Results([])
      ensures r == QueryDimMismatch
          <==> && ActiveIndex(State()).Some? && imagePaths.Some?
               && ActiveIndex(State()).value.Ntotal() > 0
               && |query| != ActiveIndex(State()).value.d
      ensures && ActiveIndex(State()).Some? && imagePaths.Some?
              && ActiveIndex(State()).value.Ntotal() > 0
              && |query| == ActiveIndex(State()).value.d
              ==> r == Results(Resolve(hits, imagePaths.value))
      ensures r.Results? && |hits| <= k ==> |r.pairs| <= k
    {
      var activeIndex := ActiveIndex(State());
      if activeIndex.None? || imagePaths.None? {
        return Results([]);
      }
      if activeIndex.value.Ntotal() == 0 {
        return Results([]);
      }
      if |query| != activeIndex.value.d {
        return QueryDimMismatch;
      }
      var results := ResolveHits(hits, imagePaths.value);
      ResolveLength(hits, imagePaths.value, k);
      return Results(results);
    }
  }
}
