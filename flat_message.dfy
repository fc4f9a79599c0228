/**
 * `flat_message_json` of the consumer-group sample (samples/consumerGroupParallel.py):
 * the attributes of the JSON document in a tuple's `message` field are merged
 * into the tuple itself with `dict.update`, in place, and the same tuple is
 * returned. Decoding the JSON is not modelled: the decoded document is an input.
 */
module FlatMessage {

  /** The key-by-key meaning of `base.update(changes)`: keys of changes take
      their new value, every other key of base keeps its old one. */
  function Updated<V>(base: map<string, V>, changes: map<string, V>): (r: map<string, V>)
    ensures r.Keys == base.Keys + changes.Keys
    ensures forall k :: k in changes ==> r[k] == changes[k]
    ensures forall k :: k in base && k !in changes ==> r[k] == base[k]
  {
    map k | k in base.Keys + changes.Keys :: if k in changes then changes[k] else base[k]
  }

  /** A stream tuple as the Python callable sees it: a mutable dictionary from
      attribute names to values. */
  class StreamTuple<V> {
    var attributes: map<string, V>

    constructor (attributes: map<string, V>)
      ensures this.attributes == attributes
    {
      this.attributes := attributes;
    }

    /** `dict.update`. */
    method Update(changes: map<string, V>)
      modifies this
      ensures attributes == Updated(old(attributes), changes)
    {
      attributes := attributes + changes;
    }
  }

  /** `flat_message_json(tuple)`, with `json.loads(tuple['message'])` given as
      the decoded document. */
  method FlatMessageJson<V>(t: StreamTuple<V>, decoded: map<string, V>) returns (r: StreamTuple<V>)
    modifies t
    ensures r == t
    ensures t.attributes == Updated(old(t.attributes), decoded)
  {
    t.Update(decoded);
    r := t;
  }

  // ---------------------------------------------------------------------------
  // Properties

  /** `update` agrees with map union, where the right operand wins. */
  lemma UpdatedIsUnion<V>(base: map<string, V>, changes: map<string, V>)
    ensures Updated(base, changes) == base + changes
  {
  }

  /** Flattening the same document twice changes nothing the first time did not. */
  lemma UpdatedIdempotent<V>(base: map<string, V>, changes: map<string, V>)
    ensures Updated(Updated(base, changes), changes) == Updated(base, changes)
  {
  }

  /** The `message` attribute itself survives unless the document has a
      `message` key of its own. */
  lemma MessageKept<V>(base: map<string, V>, decoded: map<string, V>)
    requires "message" in base && "message" !in decoded
    ensures Updated(base, decoded)["message"] == base["message"]
  {
  }

  /** Updating with the empty document leaves the tuple as it was. */
  lemma UpdatedEmpty<V>(base: map<string, V>)
    ensures Updated(base, map[]) == base
  {
  }
}
