/**
 * What the two BigQuery extractors (scripts/extrair_anatel.py and
 * scripts/extrair_sao_paulo_municipio.py) share: how a client connection
 * ends, the stages of their `run`, `df.empty`, and when the chunk loop
 * reports success.
 */
module BigQueryEtl {
  import opened Wrappers
  import opened Frames
  import Chunks

  /** How a client connection ends: the constructor raises, the test query raises, or both succeed. */
  datatype Connection = Refused | TestFails | Connected

  /** The stages of `run`, in order; the São Paulo extractor has no query file to load. */
  datatype Stage =
    | ValidateCredentials | ConnectBigQuery | ConnectPostgres | LoadQuery
    | ExecuteQuery | PrepareData | InsertRows | CreateIndexes

  /** `df.empty`: no rows or no columns. */
  predicate EmptyFrame(f: Frame) {
    |f.rows| == 0 || |f.columns| == 0
  }

  /** Whether the chunk loop returns True for n rows. */
  predicate InsertSucceeds(n: nat, chunkSize: int, failAt: Option<nat>) {
    chunkSize < 0 || (chunkSize > 0 && Chunks.Succeeded(Chunks.TotalChunks(n, chunkSize), failAt) == Chunks.TotalChunks(n, chunkSize))
  }

  /**
   * The chunk loop succeeds exactly when no chunk write raises: the chunk size
   * is negative, or it is positive and the failing chunk (if any) lies beyond
   * the last one.
   */
  lemma InsertSucceedsIff(n: nat, chunkSize: int, failAt: Option<nat>)
    ensures InsertSucceeds(n, chunkSize, failAt) <==>
      chunkSize < 0 || (chunkSize > 0 && (failAt.None? || failAt.value >= Chunks.TotalChunks(n, chunkSize)))
  {
  }
}
