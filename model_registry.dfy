/**
 * The entries of the LlamaStack model list (`client.models.list()`) that the
 * ingestion pipeline and the query agent read, and the `next(...)` search over them.
 */
module ModelRegistry {
  import opened Wrappers

  /**
   * One listed model. `embeddingDimension` is `metadata["embedding_dimension"]`,
   * `None` when the metadata has no such key.
   */
  datatype ModelInfo = ModelInfo(
    identifier: string,
    providerResourceId: string,
    modelType: string,
    embeddingDimension: Option<int>)

  /** `next(i for i, m in enumerate(models) if p(m))`: the index of the first model satisfying `p`. */
  function FirstWhere(models: seq<ModelInfo>, p: ModelInfo -> bool): (r: Option<nat>)
    ensures r.Some? ==> r.value < |models| && p(models[r.value])
    ensures r.Some? ==> forall j :: 0 <= j < r.value ==> !p(models[j])
    ensures r.None? ==> forall j :: 0 <= j < |models| ==> !p(models[j])
  {
    if models == [] then None
    else if p(models[0]) then Some(0)
    else
      match FirstWhere(models[1..], p)
      case None => None
      case Some(k) => Some(k + 1)
  }
}
