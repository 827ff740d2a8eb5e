# Image retrieval index: build, load and search

This project models the core of a desktop image-similarity search tool. The tool
embeds every image of a folder, stores the embeddings in a flat faiss index, and
stores beside it a list of image paths. Position *i* of that list names the
image whose vector has ordinal *i* in the index. At query time the ordinals that
faiss returns are mapped back to paths through this list.

The model has three modules:

- `FaissModel` (`faiss_model.dfy`) abstracts the faiss index as a value. The
  value holds a dimension `d`, a metric and the vectors in insertion order.
  `Ntotal()` is the number of vectors and `Add` appends a batch. The module also
  holds the index-type names the indexer accepts, and `FileState`. A
  `FileState` says whether an artifact file is missing, unreadable or holds a
  value.
- `Indexer` (`indexer.dfy`) models `FaissIndexer`. The class keeps the
  source's fields `feature_dim`, `index_cpu` and `image_paths`. Its methods
  `BuildIndex` and `LoadIndex` are proved against the pure transitions
  `BuildTransition` and `LoadTransition`. `SaveIndex` states its guard and what
  it writes directly in terms of the fields. The extraction loop of
  the build is the method `ExtractFeatures`, proved against `SuccessfulPaths`.
- `Searcher` (`searcher.dfy`) models `FaissSearcher`. Its fields are
  `index_cpu`, `index_gpu`, `image_paths` and `is_gpu_enabled`. Loading is
  proved against `LoadTransition`. The active-index choice and the status report
  are functions of the state. `search` is a method whose mapping loop
  (`ResolveHits`) is proved against the function `Resolve`.

Several things become inputs of the model:

- the directory listing is a `Listing`;
- the feature extractor is a total function `Path -> Option<Vector>`;
- each artifact file is a `FileState`;
- the GPU probe is a `GpuProbe`;
- what faiss returns for a query is a sequence of `Hit(ordinal, score)`.

The central invariant is `Indexer.Aligned`: the index is present, it holds as
many vectors as there are paths, and the extractor maps the k-th path to the
k-th vector. The model proves that a build on an empty index establishes the
invariant, and that a save followed by a load keeps it. It also shows two places
where the code does not keep it:

- a second build appends vectors to a non-empty index but replaces the path
  list (`SecondBuildMisaligns`);
- `load_index` accepts a mapping of any length (`LoadIgnoresCount`).

The code never compares the vector count with the length of the mapping. The
model follows the code (`LoadIgnoresCount`).

## Model

| member | source | states |
|---|---|---|
| FaissModel.ParseIndexType | core/indexer.py:15-20 | An index type is accepted iff its name is "IndexFlatIP" or "IndexFlatL2", and an accepted name is the name of the chosen metric. |
| FaissModel.ParseIndexTypeRoundTrip | core/indexer.py:15-18 | Each supported metric's name parses back to that metric. |
| FaissModel.FlatIndex.Add | core/indexer.py:62 | `add` keeps `d` and the metric, grows `ntotal` by the batch size, leaves existing vectors at their ordinals and places the batch after them in order. |
| Indexer.FaissIndexer.Create | core/indexer.py:12-22 | Construction succeeds iff the index type is one of the two supported names. A new indexer is fresh and consistent, with an empty index of dimension `feature_dim` and an empty `image_paths`. |
| Indexer.FaissIndexer.constructor | core/indexer.py:14-22 | A constructed indexer holds an empty index of the requested dimension and metric, and no paths. |
| Indexer.IsImageFileIgnoresCase | core/indexer.py:35 | The extension filter gives the same answer for a name and its lower-cased form. |
| Indexer.Candidates | core/indexer.py:33-35 | The candidate list is no longer than the directory listing. |
| Indexer.CandidatesMembership | core/indexer.py:33-35 | A path is a candidate iff it is the folder joined with a listed entry that passes the extension filter. |
| Indexer.CandidatesAppend | core/indexer.py:33-35 | Candidates keep listing order: filtering two consecutive parts of a listing concatenates their candidates. |
| Indexer.CandidatesEmpty | core/indexer.py:33-35 | There are no candidates iff no listed entry passes the extension filter. |
| Indexer.SuccessfulPaths | core/indexer.py:46-50 | The kept paths are no more than the candidates, and each is a candidate whose extraction succeeded. |
| Indexer.SuccessfulPathsComplete | core/indexer.py:46-50 | A failed extraction skips only its own file: every candidate whose extraction succeeds is kept. |
| Indexer.SuccessfulPathsAppend | core/indexer.py:46-50 | Kept paths keep candidate order: extracting two consecutive parts concatenates their results. |
| Indexer.SuccessfulPathsEmpty | core/indexer.py:46-54 | No path is kept iff every candidate's extraction fails. |
| Indexer.FeaturesOf | core/indexer.py:46-50 | There is one feature per kept path, and the k-th feature is the extraction of the k-th kept path. |
| Indexer.ExtractFeatures | core/indexer.py:46-50 | The loop's two lists have equal length, the k-th feature is the extraction of the k-th valid path, and the valid paths are exactly the successful candidates in order. |
| Indexer.BuildFailureLeavesState | core/indexer.py:36-58 | Every build that does not succeed leaves `feature_dim`, `index_cpu` and `image_paths` unchanged. |
| Indexer.BuildMissingOrEmptyFolder | core/indexer.py:33-42 | A missing folder returns with the state unchanged. A build stops with "no image files" iff no listed entry passes the filter. |
| Indexer.BuildNoFeatures | core/indexer.py:46-54 | With at least one candidate, a build stops with "no features" iff every extraction failed. |
| Indexer.BuildAppends | core/indexer.py:62-65 | A successful build grows `ntotal` by exactly the number of valid features (at least one). The new vectors are the old ones followed by the valid features in order. It sets `image_paths` to the valid paths and leaves `feature_dim` alone. |
| Indexer.BuildSucceeds | core/indexer.py:46-65 | A consistent indexer with an index builds successfully when some candidate extracts and every extracted feature has width `feature_dim`. |
| Indexer.BuildRejectsWrongWidth | core/indexer.py:46-58 | If any candidate extracts a feature whose width differs from `feature_dim`, the build raises the width error and leaves the state unchanged. |
| Indexer.BuildKeepsConsistent | core/indexer.py:56-65 | Builds keep the index dimension equal to `feature_dim`, so faiss never refuses the batch. |
| Indexer.BuildOnEmptyIndexAligns | core/indexer.py:46-65 | A successful build on an empty index leaves as many vectors as paths, and the i-th path belongs to the i-th vector. |
| Indexer.SecondBuildMisaligns | core/indexer.py:62-65 | A successful build on a non-empty index leaves more vectors than paths, because `add` appends while `image_paths` is replaced. |
| Indexer.FaissIndexer.BuildIndex | core/indexer.py:27-66 | The outcome and the new fields are those of `BuildTransition` on the old fields, and the indexer stays consistent. |
| Indexer.FaissIndexer.AddFeaturesToIndex | core/indexer.py:52-65 | The no-features, width and missing-index guards and the final `add` give the outcome and fields of `AddFeatures` on the old fields. The indexer stays consistent. |
| Indexer.FaissIndexer.SaveIndex | core/indexer.py:68-76 | Nothing is written iff there is no index or it is empty. Otherwise the index and the path list are written. |
| Indexer.LoadOutcomes | core/indexer.py:78-113 | A missing file returns False with the state unchanged. A load succeeds iff both files are readable, and then installs the loaded index and mapping with `feature_dim` set to the loaded `d`. When both files exist but one cannot be read, the load returns False and the state becomes the old state with `index_cpu` set to None and `image_paths` set to [], so `feature_dim` is kept. |
| Indexer.LoadKeepsConsistent | core/indexer.py:103-113 | Every load keeps the index dimension equal to `feature_dim`. |
| Indexer.LoadIgnoresCount | core/indexer.py:87-108 | A load succeeds even when the mapping's length differs from `ntotal`, and leaves the indexer misaligned. |
| Indexer.SaveLoadRoundTrip | core/indexer.py:68-108 | Loading the saved artifacts restores the saved index, paths and dimension, whatever the loader's previous state, and keeps alignment. |
| Indexer.FaissIndexer.LoadIndex | core/indexer.py:78-113 | The result and the new fields are those of `LoadTransition` on the old fields, and the indexer stays consistent. |
| Searcher.FaissSearcher.constructor | core/searcher.py:10-19 | A new searcher holds the state a load from the all-None state produces, and that state is consistent. |
| Searcher.FaissSearcher.LoadAndInitGpu | core/searcher.py:24-83 | The result and the new fields are those of `LoadTransition` on the old fields. |
| Searcher.LoadOutcomes | core/searcher.py:24-83 | A load from the initial state succeeds iff both files are readable. On failure, including a missing file, all fields are None and there is no active index. On success the active index is the loaded index, the paths are the loaded mapping, and the GPU is used iff the copy succeeded. |
| Searcher.ActiveIndex | core/searcher.py:85-91 | The GPU index is chosen when it is enabled and present, the CPU index otherwise. There is no active index iff neither applies. |
| Searcher.ActiveIndexOfConsistent | core/searcher.py:85-91 | In a loaded searcher the active index always holds the CPU index's content. An index is active iff a mapping is present. |
| Searcher.GetIndexStatus | core/searcher.py:120-126 | The status reports "loaded" iff there is an active index, with that index's `ntotal` and `d` and the GPU flag. |
| Searcher.ResolveLength | core/searcher.py:109-118 | There are no more results than returned ordinals, hence at most k when faiss returns k. |
| Searcher.ResolveSound | core/searcher.py:113-117 | Every result is `(image_paths[i], score)` for a returned ordinal `i` with `0 <= i < len(image_paths)` and that ordinal's score. |
| Searcher.ResolveComplete | core/searcher.py:113-117 | Every returned in-range ordinal contributes its path and score to the results. |
| Searcher.ResolveAppend | core/searcher.py:113-117 | Results keep the order of the returned ordinals: resolving two consecutive parts concatenates their results. |
| Searcher.ResolveDropsInvalid | core/searcher.py:114-116 | An entry with ordinal -1 or an out-of-range ordinal contributes nothing and does not disturb the rest. |
| Searcher.ResolveHits | core/searcher.py:111-118 | The append loop produces exactly `Resolve` of the returned ordinals and scores. |
| Searcher.FaissSearcher.Search | core/searcher.py:93-118 | The result is [] with no active index or no paths, and [] on an empty index. The query-length error is raised iff those guards pass and the query length differs from `d`. Otherwise the result is the resolved ordinals, at most k of them. |

## Left out

- Image embedding (PIL decoding, the ViT forward pass, L2 normalisation) is not part of this model. The extractor is a total, deterministic function from path to optional vector.
- faiss internals are left out: distance computation, ranking, `read_index`/`write_index`, GPU resources and `index_cpu_to_gpu`. Nothing is claimed about score order or about returning exactly min(k, ntotal) results.
- What a query returns is an input `hits`. Nothing ties `hits` to the index contents; the source never relies on such a link either.
- pickle is left out. A readable mapping file is assumed to hold a list of path strings; a pickle holding some other object is not modelled.
- The file system is reduced to inputs: `os.listdir` becomes a `Listing`, and `os.path.exists` with read failures becomes a `FileState`. The artifact paths (`index_path`, `mapping_path`) are not fields of the model.
- `SaveIndex` does not model write failures: errors from `write_index` or `open` propagate in the source and are not represented.
- Only POSIX `os.path.join` is modelled, in `JoinPath`. On Windows the separator is `\`. No property depends on it, because paths are otherwise opaque strings.
- Indexer.IsImageFileIgnoresCase: `str.lower` is modelled on ASCII letters only; Unicode case mapping is not modelled.
- Indexer.FaissIndexer.BuildIndex: two different errors are merged. numpy raises when it builds an array from features of unequal length. `build_index` itself raises `ValueError` when all features share a width other than `feature_dim`. The model has one outcome for both, `FeatureDimMismatch`, taken when some feature's length differs from `feature_dim`.
- Indexer.FaissIndexer.Create: `FAISS_INDEX_TYPE_CPU` is a configuration constant in the source and is a parameter here.
- Searcher.FaissSearcher.Search: the k parameter is passed through to faiss, which the model does not run. It appears only in the bound "at most k results when faiss returns at most k entries".
- Searcher.ActiveIndex: Python truthiness of a faiss index object is taken to mean "not None".
- Searcher.GetIndexStatus: the status wording (a formatted message) is reduced to the values it reports.
- The `gpu_resource` handle, timing prints, progress bars and every log message are left out: nothing in the core reads them.
- `gui/main_window.py`, `main_app.py`, `bulid_index.py` and `core/config.py` are not part of this model. They hold UI, startup checks, script orchestration and constants.
