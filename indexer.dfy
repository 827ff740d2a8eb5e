/**
 * FaissIndexer: the offline build of the image index, its save guard and its
 * load. The directory listing, the feature extractor and the two artifact
 * files are inputs; the faiss index is the value of FaissModel.
 */
module Indexer {
  import opened FaissModel

  // ---------------------------------------------------------------------------
  // Which directory entries are build candidates
  // ---------------------------------------------------------------------------

  /** The allow-list of image extensions, compared against the lower-cased name. */
  const ImageExtensions: seq<string> := [".png", ".jpg", ".jpeg", ".bmp", ".gif"]

  /** ASCII lower-casing of one character. */
  function LowerChar(c: char): char
  {
    if 'A' <= c <= 'Z' then (c as int + 32) as char else c
  }

  function Lower(s: string): string
  {
    seq(|s|, i requires 0 <= i < |s| => LowerChar(s[i]))
  }

  predicate EndsWith(s: string, suffix: string)
  {
    |suffix| <= |s| && s[|s| - |suffix|..] == suffix
  }

  /** An entry is an image when its lower-cased name ends with one of the allowed extensions. */
  predicate IsImageFile(name: string)
  {
    exists ext :: ext in ImageExtensions && EndsWith(Lower(name), ext)
  }

  lemma LowerIdempotent(s: string)
    ensures Lower(Lower(s)) == Lower(s)
  {
    assert |Lower(Lower(s))| == |Lower(s)|;
    forall i | 0 <= i < |s|
      ensures Lower(Lower(s))[i] == Lower(s)[i]
    {
    }
  }

  /** The filter ignores case: a name and its lower-cased form are treated alike. */
  lemma IsImageFileIgnoresCase(name: string)
    ensures IsImageFile(Lower(name)) == IsImageFile(name)
  {
    LowerIdempotent(name);
  }

  /** Joining a folder and an entry name as POSIX `os.path.join` does. */
  function JoinPath(folder: string, name: string): Path
  {
    if |name| > 0 && name[0] == '/' then name
    else if folder == [] || folder[|folder| - 1] == '/' then folder + name
    else folder + "/" + name
  }

  /** The list comprehension that builds `image_files`, in listing order. */
  function Candidates(folder: string, names: seq<string>): (r: seq<Path>)
    ensures |r| <= |names|
  {
    if names == [] then []
    else
      var rest := Candidates(folder, names[1..]);
      if IsImageFile(names[0]) then [JoinPath(folder, names[0])] + rest else rest
  }

  /** A path is a candidate exactly when it is joined from an allowed entry. */
  lemma {:induction false} CandidatesMembership(folder: string, names: seq<string>, p: Path)
    ensures p in Candidates(folder, names)
        <==> exists n :: n in names && IsImageFile(n) && p == JoinPath(folder, n)
  {
    if names != [] {
      CandidatesMembership(folder, names[1..], p);
      assert forall n :: n in names <==> n == names[0] || n in names[1..];
    }
  }

  /** Filtering a listing piece by piece keeps the listing's order. */
  lemma {:induction false} CandidatesAppend(folder: string, a: seq<string>, b: seq<string>)
    ensures Candidates(folder, a + b) == Candidates(folder, a) + Candidates(folder, b)
  {
    if a == [] {
      assert a + b == b;
    } else {
      assert (a + b)[0] == a[0];
      assert (a + b)[1..] == a[1..] + b;
      CandidatesAppend(folder, a[1..], b);
    }
  }

  /** The build finds no candidates exactly when no entry passes the filter. */
  lemma {:induction false} CandidatesEmpty(folder: string, names: seq<string>)
    ensures Candidates(folder, names) == [] <==> forall n :: n in names ==> !IsImageFile(n)
  {
    if names != [] {
      CandidatesEmpty(folder, names[1..]);
      assert forall n :: n in names <==> n == names[0] || n in names[1..];
    }
  }

  // ---------------------------------------------------------------------------
  // Feature extraction: the paths and features that go into the index
  // ---------------------------------------------------------------------------

  /** The candidates whose extraction succeeded, in candidate order. */
  function SuccessfulPaths(paths: seq<Path>, extract: Path -> Option<Vector>): (r: seq<Path>)
    ensures |r| <= |paths|
    ensures forall p :: p in r ==> p in paths && extract(p).Some?
  {
    if paths == [] then []
    else
      var rest := SuccessfulPaths(paths[1..], extract);
      if extract(paths[0]).Some? then [paths[0]] + rest else rest
  }

  /** A failed extraction skips only that file: every other candidate is kept. */
  lemma {:induction false} SuccessfulPathsComplete(paths: seq<Path>, extract: Path -> Option<Vector>, p: Path)
    requires p in paths && extract(p).Some?
    ensures p in SuccessfulPaths(paths, extract)
  {
    if paths[0] != p {
      SuccessfulPathsComplete(paths[1..], extract, p);
    }
  }

  /** Extraction over consecutive pieces of the candidate list concatenates, so order is kept. */
  lemma {:induction false} SuccessfulPathsAppend(a: seq<Path>, b: seq<Path>, extract: Path -> Option<Vector>)
    ensures SuccessfulPaths(a + b, extract) == SuccessfulPaths(a, extract) + SuccessfulPaths(b, extract)
  {
    if a == [] {
      assert a + b == b;
    } else {
      assert (a + b)[0] == a[0];
      assert (a + b)[1..] == a[1..] + b;
      SuccessfulPathsAppend(a[1..], b, extract);
    }
  }

  /** The feature of each successful path, position by position. */
  function FeaturesOf(valid: seq<Path>, extract: Path -> Option<Vector>): (r: seq<Vector>)
    requires forall p :: p in valid ==> extract(p).Some?
    ensures |r| == |valid|
    ensures forall k :: 0 <= k < |valid| ==> extract(valid[k]) == Some(r[k])
  {
    seq(|valid|, k requires 0 <= k < |valid| => extract(valid[k]).value)
  }

  /**
   * The extraction loop of `build_index`: `all_features` and
   * `valid_image_paths` are appended together, so the k-th feature is the
   * extraction of the k-th valid path.
   */
  method ExtractFeatures(imageFiles: seq<Path>, extract: Path -> Option<Vector>)
    returns (allFeatures: seq<Vector>, validImagePaths: seq<Path>)
    ensures validImagePaths == SuccessfulPaths(imageFiles, extract)
    ensures |allFeatures| == |validImagePaths|
    ensures forall k :: 0 <= k < |validImagePaths| ==> extract(validImagePaths[k]) == Some(allFeatures[k])
  {
    allFeatures, validImagePaths := [], [];
    var i := 0;
    while i < |imageFiles|
      invariant 0 <= i <= |imageFiles|
      invariant validImagePaths == SuccessfulPaths(imageFiles[..i], extract)
      invariant |allFeatures| == |validImagePaths|
      invariant forall k :: 0 <= k < |validImagePaths| ==> extract(validImagePaths[k]) == Some(allFeatures[k])
    {
      var imgPath := imageFiles[i];
      var features := extract(imgPath);
      if features.Some? {
        allFeatures := allFeatures + [features.value];
        validImagePaths := validImagePaths + [imgPath];
      }
      SuccessfulPathsAppend(imageFiles[..i], [imgPath], extract);
      assert imageFiles[..i + 1] == imageFiles[..i] + [imgPath];
      i := i + 1;
    }
    assert imageFiles[..i] == imageFiles;
  }

  // ---------------------------------------------------------------------------
  // The indexer's state and its transitions
  // ---------------------------------------------------------------------------

  /** The fields of a FaissIndexer: `feature_dim`, `index_cpu` and `image_paths`. */
  datatype IndexerState = IndexerState(featureDim: nat, indexCpu: Option<FlatIndex>, imagePaths: seq<Path>)

  /** Every reachable state: a present index has the dimension the indexer expects. */
  predicate Consistent(s: IndexerState)
  {
    s.indexCpu.Some? ==> s.indexCpu.value.d == s.featureDim
  }

  /** The i-th path belongs to the i-th vector of the index. */
  predicate Aligned(s: IndexerState, extract: Path -> Option<Vector>)
  {
    && s.indexCpu.Some?
    && s.indexCpu.value.Ntotal() == |s.imagePaths|
    && forall k :: 0 <= k < |s.imagePaths| ==> extract(s.imagePaths[k]) == Some(s.indexCpu.value.vectors[k])
  }

  /** The state of a freshly constructed indexer. */
  function Fresh(featureDim: nat, metric: Metric): IndexerState
  {
    IndexerState(featureDim, Some(FlatIndex(featureDim, metric, [])), [])
  }

  /** The result of `os.listdir(image_folder)`. */
  datatype Listing = FolderNotFound | ListingFailed | Entries(names: seq<string>)

  /**
   * How `build_index` ends. The first four return normally after a message;
   * the others are exceptions that leave the method.
   */
  datatype BuildOutcome =
    | Built(added: nat)
    | MissingFolder
    | NoImageFiles
    | NoFeatures
    | ListingError        // any other error from os.listdir propagates
    | FeatureDimMismatch  // ValueError: features do not have width feature_dim
    | NoCpuIndex          // index_cpu is None after a failed load: `add` on None
    | AddDimMismatch      // faiss refuses a batch whose width is not the index's d

  /** `build_index(image_folder, feature_extractor)` as a state transition. */
  function BuildTransition(s: IndexerState, folder: string, listing: Listing, extract: Path -> Option<Vector>)
    : (BuildOutcome, IndexerState)
  {
    match listing
    case FolderNotFound => (MissingFolder, s)
    case ListingFailed => (ListingError, s)
    case Entries(names) =>
      var imageFiles := Candidates(folder, names);
      if imageFiles == [] then (NoImageFiles, s)
      else
        var valid := SuccessfulPaths(imageFiles, extract);
        AddFeatures(s, valid, FeaturesOf(valid, extract))
  }

  /** The end of `build_index`, once the valid paths and their features are collected. */
  function AddFeatures(s: IndexerState, valid: seq<Path>, features: seq<Vector>): (BuildOutcome, IndexerState)
  {
    if features == [] then (NoFeatures, s)
    else if exists f :: f in features && |f| != s.featureDim then (FeatureDimMismatch, s)
    else if s.indexCpu.None? then (NoCpuIndex, s)
    else if s.indexCpu.value.d != s.featureDim then (AddDimMismatch, s)
    else (Built(|features|), s.(indexCpu := Some(s.indexCpu.value.Add(features)), imagePaths := valid))
  }

  /** A build that does not end in Built leaves `index_cpu` and `image_paths` as they were. */
  lemma BuildFailureLeavesState(s: IndexerState, folder: string, listing: Listing, extract: Path -> Option<Vector>)
    ensures !BuildTransition(s, folder, listing, extract).0.Built? ==> BuildTransition(s, folder, listing, extract).1 == s
  {
  }

  /** No candidate extracts exactly when every candidate's extraction fails. */
  lemma {:induction false} SuccessfulPathsEmpty(paths: seq<Path>, extract: Path -> Option<Vector>)
    ensures SuccessfulPaths(paths, extract) == [] <==> forall p :: p in paths ==> extract(p).None?
  {
    if paths != [] {
      SuccessfulPathsEmpty(paths[1..], extract);
      assert forall p :: p in paths <==> p == paths[0] || p in paths[1..];
    }
  }

  /** A missing folder returns at once; a folder with no allowed entry returns before extracting. */
  lemma BuildMissingOrEmptyFolder(s: IndexerState, folder: string, names: seq<string>, extract: Path -> Option<Vector>)
    ensures BuildTransition(s, folder, FolderNotFound, extract) == (MissingFolder, s)
    ensures BuildTransition(s, folder, Entries(names), extract).0 == NoImageFiles
        <==> forall n :: n in names ==> !IsImageFile(n)
  {
    CandidatesEmpty(folder, names);
  }

  /** The build gives up without features exactly when every candidate's extraction failed. */
  lemma BuildNoFeatures(s: IndexerState, folder: string, names: seq<string>, extract: Path -> Option<Vector>)
    requires Candidates(folder, names) != []
    ensures BuildTransition(s, folder, Entries(names), extract).0 == NoFeatures
        <==> forall p :: p in Candidates(folder, names) ==> extract(p).None?
  {
    var imageFiles := Candidates(folder, names);
    var valid := SuccessfulPaths(imageFiles, extract);
    var features := FeaturesOf(valid, extract);
    assert BuildTransition(s, folder, Entries(names), extract) == AddFeatures(s, valid, features);
    assert AddFeatures(s, valid, features).0 == NoFeatures <==> valid == [];
    SuccessfulPathsEmpty(imageFiles, extract);
  }

  /** A successful build appends exactly the valid features and installs the valid paths. */
  lemma BuildAppends(s: IndexerState, folder: string, names: seq<string>, extract: Path -> Option<Vector>)
    ensures var (outcome, t) := BuildTransition(s, folder, Entries(names), extract);
            var valid := SuccessfulPaths(Candidates(folder, names), extract);
            outcome.Built? ==>
            && s.indexCpu.Some? && t.indexCpu.Some?
            && outcome.added == |valid| > 0
            && t.indexCpu.value.Ntotal() == s.indexCpu.value.Ntotal() + |valid|
            && t.indexCpu.value.vectors[..s.indexCpu.value.Ntotal()] == s.indexCpu.value.vectors
            && t.indexCpu.value.vectors == s.indexCpu.value.vectors + FeaturesOf(valid, extract)
            && t.imagePaths == valid
            && t.featureDim == s.featureDim
  {
    if Candidates(folder, names) != [] {
      var valid := SuccessfulPaths(Candidates(folder, names), extract);
      var features := FeaturesOf(valid, extract);
      assert BuildTransition(s, folder, Entries(names), extract) == AddFeatures(s, valid, features);
    }
  }

  /** A consistent indexer with its index present builds whenever some candidate extracts with the expected width. */
  lemma BuildSucceeds(s: IndexerState, folder: string, names: seq<string>, extract: Path -> Option<Vector>)
    requires Consistent(s) && s.indexCpu.Some?
    requires SuccessfulPaths(Candidates(folder, names), extract) != []
    requires forall p :: p in Candidates(folder, names) && extract(p).Some? ==> |extract(p).value| == s.featureDim
    ensures BuildTransition(s, folder, Entries(names), extract).0.Built?
  {
    var imageFiles := Candidates(folder, names);
    var valid := SuccessfulPaths(imageFiles, extract);
    var features := FeaturesOf(valid, extract);
    assert imageFiles != [];
    assert features != [];
    forall f | f in features ensures |f| == s.featureDim {
      var k :| 0 <= k < |features| && features[k] == f;
      assert valid[k] in valid;
    }
  }

  /** One extracted feature of the wrong width stops the build before `add`, leaving the state as it was. */
  lemma BuildRejectsWrongWidth(s: IndexerState, folder: string, names: seq<string>, extract: Path -> Option<Vector>, p: Path)
    requires p in Candidates(folder, names) && extract(p).Some? && |extract(p).value| != s.featureDim
    ensures BuildTransition(s, folder, Entries(names), extract) == (FeatureDimMismatch, s)
  {
    var imageFiles := Candidates(folder, names);
    var valid := SuccessfulPaths(imageFiles, extract);
    var features := FeaturesOf(valid, extract);
    SuccessfulPathsComplete(imageFiles, extract, p);
    var k :| 0 <= k < |valid| && valid[k] == p;
    assert features[k] in features && |features[k]| != s.featureDim;
    assert BuildTransition(s, folder, Entries(names), extract) == AddFeatures(s, valid, features);
  }

  /** Builds keep the indexer consistent, so faiss never refuses the batch. */
  lemma BuildKeepsConsistent(s: IndexerState, folder: string, listing: Listing, extract: Path -> Option<Vector>)
    requires Consistent(s)
    ensures Consistent(BuildTransition(s, folder, listing, extract).1)
    ensures BuildTransition(s, folder, listing, extract).0 != AddDimMismatch
  {
  }

  /** The central invariant: a build on a fresh indexer pairs the i-th path with the i-th vector. */
  lemma BuildOnEmptyIndexAligns(s: IndexerState, folder: string, names: seq<string>, extract: Path -> Option<Vector>)
    requires s.indexCpu.Some? && s.indexCpu.value.Ntotal() == 0
    ensures BuildTransition(s, folder, Entries(names), extract).0.Built?
        ==> Aligned(BuildTransition(s, folder, Entries(names), extract).1, extract)
  {
    var (outcome, t) := BuildTransition(s, folder, Entries(names), extract);
    if outcome.Built? {
      var valid := SuccessfulPaths(Candidates(folder, names), extract);
      var features := FeaturesOf(valid, extract);
      assert (outcome, t) == AddFeatures(s, valid, features);
      assert s.indexCpu.value.vectors == [];
      assert t.indexCpu.value.vectors == features;
    }
  }

  /**
   * Where the code does not keep the invariant: `add` appends but `image_paths`
   * is replaced, so a build on a non-empty index leaves more vectors than paths.
   */
  lemma SecondBuildMisaligns(s: IndexerState, folder: string, names: seq<string>, extract: Path -> Option<Vector>)
    requires s.indexCpu.Some? && s.indexCpu.value.Ntotal() > 0
    ensures var (outcome, t) := BuildTransition(s, folder, Entries(names), extract);
            outcome.Built? ==> t.indexCpu.Some? && t.indexCpu.value.Ntotal() > |t.imagePaths|
  {
    if Candidates(folder, names) != [] {
      var valid := SuccessfulPaths(Candidates(folder, names), extract);
      var features := FeaturesOf(valid, extract);
      assert BuildTransition(s, folder, Entries(names), extract) == AddFeatures(s, valid, features);
    }
  }

  /** What `save_index` writes: the index blob and the pickled path list. */
  datatype Artifacts = Artifacts(index: FlatIndex, mapping: seq<Path>)

  /** `load_index(index_path, mapping_path)` as a state transition. */
  function LoadTransition(s: IndexerState, indexFile: FileState<FlatIndex>, mappingFile: FileState<seq<Path>>)
    : (bool, IndexerState)
  {
    if indexFile.Missing? || mappingFile.Missing? then (false, s)
    else if indexFile.Unreadable? || mappingFile.Unreadable? then (false, s.(indexCpu := None, imagePaths := []))
    else
      var loaded := indexFile.content;
      var dim := if loaded.d != s.featureDim then loaded.d else s.featureDim;
      (true, IndexerState(dim, Some(loaded), mappingFile.content))
  }

  /** The three outcomes of a load: missing file, success, read error. */
  lemma LoadOutcomes(s: IndexerState, indexFile: FileState<FlatIndex>, mappingFile: FileState<seq<Path>>)
    ensures var (ok, t) := LoadTransition(s, indexFile, mappingFile);
            && (indexFile.Missing? || mappingFile.Missing? ==> !ok && t == s)
            && (ok <==> indexFile.Holds? && mappingFile.Holds?)
            && (ok ==> t == IndexerState(indexFile.content.d, Some(indexFile.content), mappingFile.content))
            && (!indexFile.Missing? && !mappingFile.Missing? && !ok ==> t == s.(indexCpu := None, imagePaths := []))
  {
  }

  /** Every load leaves a consistent indexer consistent: a loaded dimension is adopted. */
  lemma LoadKeepsConsistent(s: IndexerState, indexFile: FileState<FlatIndex>, mappingFile: FileState<seq<Path>>)
    requires Consistent(s)
    ensures Consistent(LoadTransition(s, indexFile, mappingFile).1)
  {
  }

  /** Where the code does not keep the invariant: the load accepts a mapping of any length. */
  lemma LoadIgnoresCount(s: IndexerState, index: FlatIndex, mapping: seq<Path>, extract: Path -> Option<Vector>)
    requires |mapping| != index.Ntotal()
    ensures var (ok, t) := LoadTransition(s, Holds(index), Holds(mapping));
            ok && !Aligned(t, extract)
  {
  }

  /** Saving and loading the artifacts back restores index, paths and dimension, whatever the loader's state. */
  lemma SaveLoadRoundTrip(s: IndexerState, t: IndexerState, a: Artifacts, extract: Path -> Option<Vector>)
    requires Consistent(s) && s.indexCpu == Some(a.index) && s.imagePaths == a.mapping
    ensures LoadTransition(t, Holds(a.index), Holds(a.mapping)) == (true, s)
    ensures Aligned(s, extract) ==> Aligned(LoadTransition(t, Holds(a.index), Holds(a.mapping)).1, extract)
  {
  }

  // ---------------------------------------------------------------------------
  // The class
  // ---------------------------------------------------------------------------

  class FaissIndexer {
    var featureDim: nat
    var indexCpu: Option<FlatIndex>
    var imagePaths: seq<Path>

    function State(): IndexerState
      reads this
    {
      IndexerState(featureDim, indexCpu, imagePaths)
    }

    ghost predicate Valid()
      reads this
    {
      Consistent(State())
    }

    /** `__init__` once the configured index type has been recognised. */
    constructor (featureDim: nat, metric: Metric)
      ensures Valid()
      ensures State() == Fresh(featureDim, metric)
    {
      this.featureDim := featureDim;
      indexCpu := Some(FlatIndex(featureDim, metric, []));
      imagePaths := [];
    }

    /** `__init__`: an unsupported index type name raises instead of constructing. */
    static method Create(indexType: string, featureDim: nat) returns (r: Option<FaissIndexer>)
      ensures r.Some? <==> indexType == "IndexFlatIP" || indexType == "IndexFlatL2"
      ensures r.Some? ==> fresh(r.value) && r.value.Valid()
      ensures r.Some? ==> r.value.State() == Fresh(featureDim, ParseIndexType(indexType).value)
    {
      var metric := ParseIndexType(indexType);
      if metric.None? {
        return None;
      }
      var indexer := new FaissIndexer(featureDim, metric.value);
      return Some(indexer);
    }

    method BuildIndex(folder: string, listing: Listing, extract: Path -> Option<Vector>) returns (outcome: BuildOutcome)
      requires Valid()
      modifies this
      ensures Valid()
      ensures (outcome, State()) == BuildTransition(old(State()), folder, listing, extract)
    {
      var names: seq<string>;
      match listing {
        case FolderNotFound => return MissingFolder;
        case ListingFailed => return ListingError;
        case Entries(entries) => names := entries;
      }
      var imageFiles := Candidates(folder, names);
      if imageFiles == [] {
        return NoImageFiles;
      }
      var allFeatures, validImagePaths := ExtractFeatures(imageFiles, extract);
      assert allFeatures == FeaturesOf(validImagePaths, extract);
      assert BuildTransition(old(State()), folder, listing, extract)
          == AddFeatures(State(), validImagePaths, allFeatures);
      outcome := AddFeaturesToIndex(validImagePaths, allFeatures);
    }

    /** The guards and the `add` that end `build_index`. */
    method AddFeaturesToIndex(validImagePaths: seq<Path>, allFeatures: seq<Vector>) returns (outcome: BuildOutcome)
      requires Valid()
      modifies this
      ensures Valid()
      ensures (outcome, State()) == AddFeatures(old(State()), validImagePaths, allFeatures)
    {
      if allFeatures == [] {
        return NoFeatures;
      }
      if exists f :: f in allFeatures && |f| != featureDim {
        return FeatureDimMismatch;
      }
      if indexCpu.None? {
        return NoCpuIndex;
      }
      if indexCpu.value.d != featureDim {
        return AddDimMismatch;
      }
      indexCpu := Some(indexCpu.value.Add(allFeatures));
      imagePaths := validImagePaths;
      outcome := Built(|allFeatures|);
    }

    /** `save_index`: nothing is written unless an index with at least one vector is present. */
    method SaveIndex() returns (written: Option<Artifacts>)
      ensures written.None? <==> indexCpu.None? || indexCpu.value.Ntotal() == 0
      ensures written.Some? ==> written.value == Artifacts(indexCpu.value, imagePaths)
    {
      if indexCpu.None? || indexCpu.value.Ntotal() == 0 {
        return None;
      }
      return Some(Artifacts(indexCpu.value, imagePaths));
    }

    method LoadIndex(indexFile: FileState<FlatIndex>, mappingFile: FileState<seq<Path>>) returns (ok: bool)
      requires Valid()
      modifies this
      ensures Valid()
      ensures (ok, State()) == LoadTransition(old(State()), indexFile, mappingFile)
    {
      if indexFile.Missing? {
        return false;
      }
      if mappingFile.Missing? {
        return false;
      }
      if indexFile.Unreadable? {
        indexCpu, imagePaths := None, [];
        return false;
      }
      indexCpu := Some(indexFile.content);
      if mappingFile.Unreadable? {
        indexCpu, imagePaths := None, [];
        return false;
      }
      imagePaths := mappingFile.content;
      if indexCpu.value.d != featureDim {
        featureDim := indexCpu.value.d;
      }
      return true;
    }
  }
}
