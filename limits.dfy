/**
 * Routing between the whole-file and the streaming compactor, and the batch
 * cap the streaming compactor is given.
 *
 * `file_exists` and `filesize` become the parameters `present` and `size`.
 */
module Limits {
  /** Files strictly larger than this many bytes (50 MiB) are cleaned in batches. */
  const BatchThreshold: nat := 52428800
  /** `getBatchSize`: entries per batch. */
  const BatchSize: nat := 100
  /** The batch cap for large (or vanished) files. */
  const MaxBatchesForLargeFiles: nat := 300
  /** The total number of sample lines the estimator aims for, over its three samples. */
  const LargeFileSampleSize: nat := 2000
  /** `PHP_INT_MAX` on a 64-bit build: the "no cap" value. */
  const PhpIntMax: nat := 0x7fff_ffff_ffff_ffff

  /** `shouldUseBatchProcessing`: an existing file over the threshold. */
  predicate ShouldUseBatchProcessing(present: bool, size: nat) {
    present && size > BatchThreshold
  }

  /** `getMaxBatchesForFile`: the cap for a missing or large file, otherwise effectively none. */
  function MaxBatchesForFile(present: bool, size: nat): (m: nat)
    ensures m > 0
    ensures m == MaxBatchesForLargeFiles || m == PhpIntMax
  {
    if !present then MaxBatchesForLargeFiles
    else if size > BatchThreshold then MaxBatchesForLargeFiles
    else PhpIntMax
  }

  /**
   * Both directions of the routing rule: batch mode exactly for existing files
   * strictly over 52428800 bytes, so a file of exactly the threshold is read whole.
   */
  lemma BatchRoutingIff(present: bool, size: nat)
    ensures ShouldUseBatchProcessing(present, size) <==> present && size >= 52428801
    ensures !ShouldUseBatchProcessing(true, 52428800) && ShouldUseBatchProcessing(true, 52428801)
  {
  }

  /**
   * The cap and the routing agree: an existing file is capped at 300 batches
   * exactly when it is routed to batch mode, and is uncapped otherwise.
   */
  lemma CapMatchesRouting(present: bool, size: nat)
    ensures present ==> (MaxBatchesForFile(present, size) == 300 <==> ShouldUseBatchProcessing(present, size))
    ensures present && !ShouldUseBatchProcessing(present, size) ==> MaxBatchesForFile(present, size) == PhpIntMax
    ensures !present ==> MaxBatchesForFile(present, size) == 300 && !ShouldUseBatchProcessing(present, size)
  {
  }

  /** A larger file is never routed back to the whole-file compactor. */
  lemma RoutingMonotone(s1: nat, s2: nat)
    requires s1 <= s2 && ShouldUseBatchProcessing(true, s1)
    ensures ShouldUseBatchProcessing(true, s2)
  {
  }

  /** A file in batch mode has an entry cap of 300 batches of 100, that is 30000 entries. */
  lemma LargeFileEntryCap(size: nat)
    requires ShouldUseBatchProcessing(true, size)
    ensures MaxBatchesForFile(true, size) * BatchSize == 30000
  {
  }
}
