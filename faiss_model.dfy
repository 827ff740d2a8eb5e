/**
 * The vector index the image-retrieval tool delegates to, reduced to what the
 * tool itself relies on: a flat (exact) index is a dimension, a metric and the
 * vectors in insertion order; `ntotal` is their number and `add` appends.
 * Distances, ranking and serialisation stay abstract.
 */
module FaissModel {

  datatype Option<+T> = None | Some(value: T)

  /** A file path, as the tool stores it in its mapping list. */
  type Path = string

  /** An embedding. Its entries are never computed with here. */
  type Vector = seq<real>

  /** The two flat index types the indexer can create. */
  datatype Metric = InnerProduct | L2

  /** A flat index: dimension `d`, its metric and the vectors added so far, in order. */
  datatype FlatIndex = FlatIndex(d: nat, metric: Metric, vectors: seq<Vector>)
  {
    function Ntotal(): nat
    {
      |vectors|
    }

    /** `add`: append a batch; the vectors already present keep their ordinals. */
    function Add(batch: seq<Vector>): (r: FlatIndex)
      ensures r.d == d && r.metric == metric
      ensures r.Ntotal() == Ntotal() + |batch|
      ensures r.vectors[..Ntotal()] == vectors
      ensures forall k :: 0 <= k < |batch| ==> r.vectors[Ntotal() + k] == batch[k]
    {
      FlatIndex(d, metric, vectors + batch)
    }
  }

  /** What a file holds when the tool tries to read it. */
  datatype FileState<T> = Missing | Unreadable | Holds(content: T)

  /** The configuration name of each supported index type. */
  function IndexTypeName(m: Metric): string
  {
    match m
    case InnerProduct => "IndexFlatIP"
    case L2 => "IndexFlatL2"
  }

  /** The constructor's choice of index class from the configured type name. */
  function ParseIndexType(name: string): (r: Option<Metric>)
    ensures r.Some? <==> name == "IndexFlatIP" || name == "IndexFlatL2"
    ensures r.Some? ==> IndexTypeName(r.value) == name
  {
    if name == "IndexFlatIP" then Some(InnerProduct)
    else if name == "IndexFlatL2" then Some(L2)
    else None
  }

  /** Naming a metric and parsing the name back gives the metric again. */
  lemma ParseIndexTypeRoundTrip(m: Metric)
    ensures ParseIndexType(IndexTypeName(m)) == Some(m)
  {
  }
}
