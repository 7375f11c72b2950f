/**
 * JSON values as the request bodies and the stored document carry them.
 * A prompt is an object: a finite map from keys to values, schema-less.
 */
module Json {
  datatype Value =
    | Null
    | Bool(b: bool)
    | Num(n: int)
    | Str(s: string)
    | Arr(items: seq<Value>)
    | Obj(fields: map<string, Value>)

  /** One stored prompt: `id`, `title`, `basePrompt`, ... and any other key a client sent. */
  type Record = map<string, Value>

  /**
   * The object spread `{ ...base, ...patch }`: every key of either side,
   * and on a key both carry the later one (the patch) wins.
   */
  function Merge(base: Record, patch: Record): (r: Record)
    ensures r.Keys == base.Keys + patch.Keys
    ensures forall k | k in patch :: r[k] == patch[k]
    ensures forall k | k in base && k !in patch :: r[k] == base[k]
  {
    base + patch
  }

  /** Spreading the same patch twice changes nothing more than spreading it once. */
  lemma MergeIdempotent(base: Record, patch: Record)
    ensures Merge(Merge(base, patch), patch) == Merge(base, patch)
  {
  }
}
