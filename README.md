# Event Streams integration: string hash, message flattening and test data

This project models, in Dafny, the small pieces of self-contained logic in the
samples and integration tests of the Python wrapper that publishes streams of
an IBM Streams topology to an Event Streams (Kafka) topic and subscribes to
one. Everything else in that code wires operators into a topology or submits
jobs to the external runtime, and is not modelled.

- `StringHash` (`hash.dfy`): `string_hashcode` of the consumer-group sample,
  the key function of its hash-partitioned parallel region. A loop folds
  `h = (31*h + ord(c)) & 0xFFFFFFFF` over the characters. The result is then
  read as a two's-complement signed 32-bit value. The method is proved equal
  to a closed form, the polynomial sum of `ord(s[j]) * 31^(n-1-j)`, reduced
  modulo 2^32 and read as signed. It is also proved equal to a fold that wraps
  in signed 32-bit arithmetic at every step over the same code points, which is
  how a language with a 32-bit `int` computes the same hash. A fold over UTF-16
  code units would differ for characters above U+FFFF.
- `FlatMessage` (`flat_message.dfy`): `flat_message_json`. A mutable stream
  tuple is a class holding a `map` of attributes. It is updated in place with
  the attributes of the already-decoded message document, and the same object
  is returned.
- `Decimal` (`decimal.dfy`): Python's `str(i)` on non-negative integers, with
  its round trip in both directions.
- `TestData` (`test_data.dfy`): the `StringData` and `JsonData` generators of
  the integration tests, as classes. Each has a loop that appends item `i` for
  `i` in `range(count)`. The file also holds the uid-prefix filter the tests use
  and the expectations of the round-trip tests. Other test runs may write to the
  same topic at the same time, with other uids. What a subscriber reads is then
  modelled as any merge of this run's items with theirs that keeps the order of
  each.
- `SubscribeSchema` (`subscribe_schema.dfy`): which schemas `subscribe`
  accepts and which it rejects with `TypeError`, as far as the tests and the
  sample pin it down.

## Model

| member | source | states |
|---|---|---|
| `StringHash.StringHashcode` | samples/consumerGroupParallel.py:45-49 | the loop returns `Hash(s)`; the result lies in [-2^31, 2^31); it equals the closed form `Σ ord(s[j])·31^(n-1-j) mod 2^32` read as signed; the empty string gives 0 |
| `StringHash.Mask32` | samples/consumerGroupParallel.py:48 | `& 0xFFFFFFFF` yields a value in [0, 2^32) congruent to its operand modulo 2^32, and leaves 32-bit values unchanged |
| `StringHash.Ord` | samples/consumerGroupParallel.py:48 | `ord(c)` is a code point: below 0x110000 and outside the surrogate range |
| `StringHash.Unsigned` | samples/consumerGroupParallel.py:46-48 | the accumulator stays in [0, 2^32) after every character |
| `StringHash.UnsignedAppend` | samples/consumerGroupParallel.py:47-48 | appending c to s maps the accumulator u to (31·u + ord(c)) mod 2^32: the hash is a left fold |
| `StringHash.UnsignedClosedForm` | samples/consumerGroupParallel.py:46-48 | the loop invariant: after the characters of s the accumulator is the polynomial sum over s reduced modulo 2^32 |
| `StringHash.ToSigned` | samples/consumerGroupParallel.py:49 | the return expression lies in [-2^31, 2^31) and has the same 32-bit pattern as its operand |
| `StringHash.Hash` | samples/consumerGroupParallel.py:45-49 | the value of `string_hashcode(s)` lies in [-2^31, 2^31), and its 32-bit pattern is the loop's final accumulator |
| `StringHash.ToSignedCases` | samples/consumerGroupParallel.py:49 | the final expression maps h to h when h < 2^31 and to h - 2^32 otherwise, so it lies in [-2^31, 2^31) |
| `StringHash.ToSignedInjective` | samples/consumerGroupParallel.py:49 | the final step is injective on 32-bit accumulators: two accumulators give the same hash exactly when they are equal |
| `StringHash.HashRange` | samples/consumerGroupParallel.py:49 | every string hashes into [-2^31, 2^31) |
| `StringHash.HashEmpty` | samples/consumerGroupParallel.py:46-49 | the empty string hashes to 0 |
| `StringHash.HashClosedForm` | samples/consumerGroupParallel.py:45-49 | the hash is the polynomial sum modulo 2^32, read as signed |
| `StringHash.HashIsSignedFold` | samples/consumerGroupParallel.py:43-49 | masking at each step and converting once at the end gives the same value as wrapping in signed 32-bit arithmetic at every step, folding over the same code points |
| `StringHash.HashDeterministic` | samples/consumerGroupParallel.py:91-94 | equal keys give equal hashes, so hash partitioning sends each key to one channel; for the method this follows from `StringHashcode`'s `ensures r == Hash(s)` |
| `FlatMessage.Updated` | samples/consumerGroupParallel.py:39 | after `update`, the keys are the union of both key sets; every key of the document has the document's value; every other key keeps its old value |
| `FlatMessage.StreamTuple.Update` | samples/consumerGroupParallel.py:39 | `tuple.update(d)` changes the tuple's attributes in place to `Updated(old attributes, d)` |
| `FlatMessage.FlatMessageJson` | samples/consumerGroupParallel.py:37-40 | the tuple's attributes become `Updated(old attributes, decoded)`, and the very same tuple object is returned |
| `FlatMessage.UpdatedIsUnion` | samples/consumerGroupParallel.py:39 | `update` agrees with map union where the right operand wins |
| `FlatMessage.UpdatedIdempotent` | samples/consumerGroupParallel.py:39 | merging the same document a second time changes nothing more |
| `FlatMessage.MessageKept` | samples/consumerGroupParallel.py:38-39 | the `message` attribute survives unless the document has a `message` key of its own |
| `FlatMessage.UpdatedEmpty` | samples/consumerGroupParallel.py:39 | an empty document leaves the tuple unchanged |
| `Decimal.Show` | package/streamsx/eventstreams/tests/test_eventstreams.py:79 | `str(i)` is never empty |
| `Decimal.ShowCanonical` | package/streamsx/eventstreams/tests/test_eventstreams.py:79 | `str(i)` is digits only with no leading zero except for "0" |
| `Decimal.ValueOfShow` | package/streamsx/eventstreams/tests/test_eventstreams.py:79 | reading back `str(i)` gives i |
| `Decimal.ShowOfValue` | package/streamsx/eventstreams/tests/test_eventstreams.py:79 | writing the value of a canonical numeral gives the numeral back |
| `Decimal.ShowInjective` | package/streamsx/eventstreams/tests/test_eventstreams.py:79 | `str(i) == str(j)` exactly when i == j |
| `TestData.RangeLength` | package/streamsx/eventstreams/tests/test_eventstreams.py:67 | `range(count)` runs over count indices when count is positive and over none otherwise |
| `TestData.StringItem` | package/streamsx/eventstreams/tests/test_eventstreams.py:79 | item i is the prefix, then an underscore, then `str(i)` |
| `TestData.JsonItem` | package/streamsx/eventstreams/tests/test_eventstreams.py:68 | record i has `c == i`, and its `p` is the prefix, then an underscore, then `str(i)` |
| `TestData.StringItems` | package/streamsx/eventstreams/tests/test_eventstreams.py:78-79 | exactly max(count, 0) items, item i being `prefix + "_" + str(i)`, in increasing i |
| `TestData.JsonItems` | package/streamsx/eventstreams/tests/test_eventstreams.py:67-68 | exactly max(count, 0) records, record i being `{'p': prefix + "_" + str(i), 'c': i}` |
| `TestData.StringData.constructor` | package/streamsx/eventstreams/tests/test_eventstreams.py:71-74 | the three fields hold the arguments |
| `TestData.StringData.Call` | package/streamsx/eventstreams/tests/test_eventstreams.py:75-79 | the loop yields `StringItems(prefix, count)` whatever `delay` is |
| `TestData.JsonData.constructor` | package/streamsx/eventstreams/tests/test_eventstreams.py:58-61 | the three fields hold the arguments |
| `TestData.JsonData.Call` | package/streamsx/eventstreams/tests/test_eventstreams.py:62-68 | the loop yields `JsonItems(prefix, count)` whatever `delay` is |
| `TestData.FilterStrings` | package/streamsx/eventstreams/tests/test_eventstreams.py:118 | a string is in the result exactly when it is in the input and starts with the uid; the result is no longer than the input |
| `TestData.FilterRecords` | package/streamsx/eventstreams/tests/test_eventstreams.py:100 | a record is in the result exactly when it is in the input and its `p` starts with the uid; the result is no longer than the input |
| `TestData.FilterStringsAppend` | package/streamsx/eventstreams/tests/test_eventstreams.py:118 | filtering a concatenation concatenates the filtered parts, so the filter keeps order |
| `TestData.FilterRecordsAppend` | package/streamsx/eventstreams/tests/test_eventstreams.py:100 | the same for records |
| `TestData.FilterDropsOthers` | package/streamsx/eventstreams/tests/test_eventstreams.py:55-56 | items of other runs, which do not start with the uid, are all dropped |
| `TestData.FilterDropsOtherRecords` | package/streamsx/eventstreams/tests/test_eventstreams.py:55-56 | records of other runs are all dropped |
| `TestData.InterleavesAfter` | package/streamsx/eventstreams/tests/test_eventstreams.py:55-56 | reading every item of the other runs first and then this run's items is one possible merge |
| `TestData.FilterStringsInterleaving` | package/streamsx/eventstreams/tests/test_eventstreams.py:117-122 | from any order-keeping merge of this run's items (all starting with the uid) with other runs' items (none starting with it), the filter recovers exactly this run's items in order |
| `TestData.FilterRecordsInterleaving` | package/streamsx/eventstreams/tests/test_eventstreams.py:99-104 | the same for records, on `p` |
| `TestData.ItemsStartWithPrefix` | package/streamsx/eventstreams/tests/test_eventstreams.py:68-79 | every string item, and the `p` of every record, starts with the prefix |
| `TestData.StringItemInjective` | package/streamsx/eventstreams/tests/test_eventstreams.py:78-79 | items i and j of one generator are equal exactly when i == j |
| `TestData.FilterKeepsPrefixed` | package/streamsx/eventstreams/tests/test_eventstreams.py:118 | a sequence whose every item starts with the uid passes the filter unchanged |
| `TestData.FilterKeepsPrefixedRecords` | package/streamsx/eventstreams/tests/test_eventstreams.py:100 | the same for records, on their `p` field |
| `TestData.FilterKeepsStringItems` | package/streamsx/eventstreams/tests/test_eventstreams.py:113-119 | the uid filter keeps every generated string item |
| `TestData.FilterKeepsJsonItems` | package/streamsx/eventstreams/tests/test_eventstreams.py:95-101 | the uid filter keeps every generated record |
| `TestData.StringRoundTripExpectation` | package/streamsx/eventstreams/tests/test_eventstreams.py:108-124 | the delayed source sends exactly the undelayed expected list, which has n pairwise distinct items; with other runs' items, which carry other uids, merged in any order-keeping way, the uid filter gives back exactly that list |
| `TestData.JsonRoundTripExpectation` | package/streamsx/eventstreams/tests/test_eventstreams.py:90-106 | the delayed source sends exactly the undelayed expected list of n records, record i having `c == i`; with other runs' records merged in any order-keeping way, the uid filter gives back exactly that list |
| `SubscribeSchema.Accepts` | package/streamsx/eventstreams/tests/test_eventstreams.py:33-45 | String and Json (and the sample's `StringMessageMeta`) are accepted; Python, Binary, XML, a user-defined tuple schema and a raw schema string are rejected |
| `SubscribeSchema.Subscribe` | package/streamsx/eventstreams/tests/test_eventstreams.py:33-45 | subscribing succeeds exactly for accepted schemas, with a stream of the given topic and schema; otherwise it fails with `TypeError` naming the schema |
| `SubscribeSchema.SchemasOk` | package/streamsx/eventstreams/tests/test_eventstreams.py:34-37 | subscribing to "T1" with String and with Json succeeds |
| `SubscribeSchema.SchemasBad` | package/streamsx/eventstreams/tests/test_eventstreams.py:39-45 | subscribing to "T1" with each of the five rejected schemas fails with `TypeError` |

## Left out

- Topology construction, `publish` and the operator wiring of `subscribe`, `set_parallel`, `parallel`, `end_parallel` and the assignment of tuples to channels by `Routing.HASH_PARTITIONED`: these are done by the external Streams runtime.
- Job submission, `Tester`, `setup_streaming_analytics` and `add_mh_toolkit`: I/O against remote services and the file system.
- `json.loads` and `json.dumps`: foreign library calls. `FlatMessageJson` takes the decoded document as an input.
- FlatMessage.FlatMessageJson: does not model the `KeyError` raised when the tuple has no `message` attribute, because that lookup only feeds `json.loads`, which is not modelled.
- FlatMessage.FlatMessageJson: takes the decoded document to be a JSON object, a map from names to values. A document that decodes to a list or a scalar makes `update` raise, or insert other keys, and is not modelled.
- FlatMessage.StreamTuple: a `map` has no order, so the insertion order that a Python dict keeps through `update` is not modelled.
- `SensorReadingsSource`: it depends on `random`, the clock, `time.sleep` and floating-point readings.
- The `value > 0 and ts > 0` filter of the sample: it works on floating-point values.
- Reading credentials from environment variables and files (`test_creds`, `test_string_creds`).
- The `time.sleep(10)` of the generators: `delay` is a field that has no effect on the items produced.
- The commented-out `test_create_app_config`: it is not working code.
- SubscribeSchema.Accepts: the real validator lives in the library and is not part of this model. The tests fix the five common schemas and one user tuple and one raw string, both `'tuple<int32 a>'`. The model rejects every user-defined tuple schema and every raw schema string, whatever its text. That extends the tests' single example on the word of the library's design, not of the tests: only its own message schemas and the string and JSON schemas are accepted. It includes a user tuple whose declaration spells out the same attributes as `StringMessageMeta`, which no shown code decides. Schema kinds that no shown code subscribes with, such as the message tuple without metadata, are not in the enumeration. Validation for `publish` is not modelled, because no shown code has it reject anything.
- StringHash.Ord: a Dafny `char` is a Unicode scalar value, so lone surrogate code points, which a Python `str` may hold, are not representable.
- TestData.Interleaves: models other runs' traffic on the topic as having no item that starts with this run's uid, which is what the test's uuid is for. A delivery that drops or duplicates items is not modelled.
- TestData.StringData: Python accepts any object as `count` and raises `TypeError` from `range` for non-integers. The model types it as `int`, where a negative count yields no items, as `range` does.
