/**
  The cache of decrypted rating statistics (`decryptedStatsById` in
  frontend/src/App.tsx) and how the relayer's answer is read. A successful
  decrypt stores the entry of its image, a failed one deletes it, and no
  other image's entry is touched.
*/
module DecryptCache {
  import opened Wrappers
  import opened Acl

  /** The cleartext sum and count of an image's ratings (the floating-point average is not modelled). */
  datatype DecryptedStats = DecryptedStats(sum: nat, count: nat)

  /** `decryptedStatsById`, keyed by the card's id string. */
  type StatsCache = map<string, DecryptedStats>

  /** The state update on success: `{ ...prev, [imageId]: { sum, count, ... } }`. */
  function RecordDecrypted(cache: StatsCache, imageId: string, sum: nat, count: nat): (r: StatsCache)
    ensures r.Keys == cache.Keys + {imageId}
    ensures r[imageId] == DecryptedStats(sum, count)
    ensures forall k :: k in cache && k != imageId ==> r[k] == cache[k]
  {
    cache[imageId := DecryptedStats(sum, count)]
  }

  /** The state update on failure: copy `prev`, then `delete next[imageId]`. */
  function ForgetDecrypted(cache: StatsCache, imageId: string): (r: StatsCache)
    ensures r.Keys == cache.Keys - {imageId}
    ensures forall k :: k in r ==> r[k] == cache[k]
  {
    cache - {imageId}
  }

  /** A failure after a success leaves no trace of the success. */
  lemma FailureErasesSuccess(cache: StatsCache, imageId: string, sum: nat, count: nat)
    ensures ForgetDecrypted(RecordDecrypted(cache, imageId, sum, count), imageId) == ForgetDecrypted(cache, imageId)
  {
  }

  /** A second success for the same image replaces the first. */
  lemma LatestSuccessWins(cache: StatsCache, imageId: string, sum1: nat, count1: nat, sum2: nat, count2: nat)
    ensures RecordDecrypted(RecordDecrypted(cache, imageId, sum1, count1), imageId, sum2, count2)
         == RecordDecrypted(cache, imageId, sum2, count2)
  {
  }

  /** Decrypts of two different images can be recorded in either order. */
  lemma DifferentImagesCommute(cache: StatsCache, a: string, sa: nat, ca: nat, b: string, sb: nat, cb: nat)
    requires a != b
    ensures RecordDecrypted(RecordDecrypted(cache, a, sa, ca), b, sb, cb)
         == RecordDecrypted(RecordDecrypted(cache, b, sb, cb), a, sa, ca)
  {
  }

  /** What `fheInstance.userDecrypt` resolves to: values under `clearValues`, and values keyed by handle at top level. */
  datatype UserDecryptResult = UserDecryptResult(clearValues: Option<map<Handle, nat>>, topLevel: map<Handle, nat>)

  /** `resolveValue(handle)`: the `clearValues` entry if there is one, else the top-level entry, else undefined. */
  function ResolveValue(result: UserDecryptResult, handle: Handle): (v: Option<nat>)
    ensures v.Some? <==> (result.clearValues.Some? && handle in result.clearValues.value) || handle in result.topLevel
    ensures result.clearValues.Some? && handle in result.clearValues.value ==> v == Some(result.clearValues.value[handle])
    ensures v.Some? && (result.clearValues.None? || handle !in result.clearValues.value) ==> v == Some(result.topLevel[handle])
  {
    if result.clearValues.Some? && handle in result.clearValues.value then Some(result.clearValues.value[handle])
    else if handle in result.topLevel then Some(result.topLevel[handle])
    else None
  }

  const InvalidResultMessage := "Decryption result is invalid, please try again."

  /**
    The statistics read from the relayer's answer, or the error thrown when either
    value is missing (`Number(undefined)` is NaN).
  */
  function ReadStats(result: UserDecryptResult, sumHandle: Handle, countHandle: Handle): (r: Result<DecryptedStats, string>)
    ensures r.Ok? <==> ResolveValue(result, sumHandle).Some? && ResolveValue(result, countHandle).Some?
    ensures r.Ok? ==> r.value == DecryptedStats(ResolveValue(result, sumHandle).value, ResolveValue(result, countHandle).value)
    ensures r.Err? ==> r.error == InvalidResultMessage
  {
    match (ResolveValue(result, sumHandle), ResolveValue(result, countHandle))
    case (Some(sum), Some(count)) => Ok(DecryptedStats(sum, count))
    case _ => Err(InvalidResultMessage)
  }
}
