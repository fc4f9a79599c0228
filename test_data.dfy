/**
 * The data generators of the Event Streams integration tests
 * (package/streamsx/eventstreams/tests/test_eventstreams.py): `StringData` and
 * `JsonData` are callables configured with a run-unique prefix, an item count
 * and a delay flag, and yield `count` items numbered from 0. The round-trip
 * tests publish what a delayed generator yields, subscribe, keep the items
 * that start with the prefix and compare them with what an undelayed
 * generator yields.
 */
module TestData {
  import Decimal

  /** The record `{'p': ..., 'c': ...}` that `JsonData` yields. */
  datatype JsonRecord = JsonRecord(p: string, c: int)

  /** The number of items `range(count)` runs over: the least n >= 0 with
      n >= count, so count itself when positive and none otherwise. */
  function RangeLength(count: int): (n: nat)
    ensures n >= count
    ensures n == 0 || n == count
  {
    if count <= 0 then 0 else count
  }

  /** Item i of `StringData`: `prefix + '_' + str(i)`. */
  function StringItem(prefix: string, i: nat): (item: string)
    ensures prefix <= item
    ensures |item| > |prefix| && item[|prefix|] == '_'
    ensures item[|prefix| + 1..] == Decimal.Show(i)
  {
    prefix + "_" + Decimal.Show(i)
  }

  /** Item i of `JsonData`: its `p` is item i of `StringData`, its `c` is i. */
  function JsonItem(prefix: string, i: nat): (r: JsonRecord)
    ensures prefix <= r.p
    ensures r.c == i && |r.p| > |prefix| && r.p[|prefix|] == '_'
    ensures r.p[|prefix| + 1..] == Decimal.Show(i)
  {
    JsonRecord(StringItem(prefix, i), i)
  }

  /** What `StringData(prefix, count, delay)()` yields, whatever delay is. */
  function StringItems(prefix: string, count: int): (items: seq<string>)
    ensures |items| == RangeLength(count)
    ensures forall i :: 0 <= i < |items| ==> items[i] == StringItem(prefix, i)
  {
    seq(RangeLength(count), i requires 0 <= i => StringItem(prefix, i))
  }

  /** What `JsonData(prefix, count, delay)()` yields, whatever delay is. */
  function JsonItems(prefix: string, count: int): (items: seq<JsonRecord>)
    ensures |items| == RangeLength(count)
    ensures forall i :: 0 <= i < |items| ==> items[i] == JsonItem(prefix, i)
  {
    seq(RangeLength(count), i requires 0 <= i => JsonItem(prefix, i))
  }

  /** `StringData`: a callable with the three fields `__init__` sets. */
  class StringData {
    var prefix: string
    var count: int
    var delay: bool

    constructor (prefix: string, count: int, delay: bool)
      ensures this.prefix == prefix && this.count == count && this.delay == delay
    {
      this.prefix := prefix;
      this.count := count;
      this.delay := delay;
    }

    /** `__call__`: the sleep before the first item is not modelled, so delay
        has no effect on what is produced. */
    method Call() returns (items: seq<string>)
      ensures items == StringItems(prefix, count)
    {
      items := [];
      for i := 0 to RangeLength(count)
        invariant items == StringItems(prefix, i)
      {
        items := items + [StringItem(prefix, i)];
      }
    }
  }

  /** `JsonData`: a callable with the three fields `__init__` sets. */
  class JsonData {
    var prefix: string
    var count: int
    var delay: bool

    constructor (prefix: string, count: int, delay: bool)
      ensures this.prefix == prefix && this.count == count && this.delay == delay
    {
      this.prefix := prefix;
      this.count := count;
      this.delay := delay;
    }

    /** `__call__`: as for `StringData`, delay has no effect on the items. */
    method Call() returns (items: seq<JsonRecord>)
      ensures items == JsonItems(prefix, count)
    {
      items := [];
      for i := 0 to RangeLength(count)
        invariant items == JsonItems(prefix, i)
      {
        items := items + [JsonItem(prefix, i)];
      }
    }
  }

  /** The uid filter of the string tests, `t.startswith(uid)`. */
  function FilterStrings(uid: string, items: seq<string>): (r: seq<string>)
    ensures |r| <= |items|
    ensures forall x :: x in r <==> x in items && uid <= x
  {
    if items == [] then []
    else if uid <= items[0] then [items[0]] + FilterStrings(uid, items[1..])
    else FilterStrings(uid, items[1..])
  }

  /** The uid filter of the JSON test, `t['p'].startswith(uid)`. */
  function FilterRecords(uid: string, items: seq<JsonRecord>): (r: seq<JsonRecord>)
    ensures |r| <= |items|
    ensures forall x :: x in r <==> x in items && uid <= x.p
  {
    if items == [] then []
    else if uid <= items[0].p then [items[0]] + FilterRecords(uid, items[1..])
    else FilterRecords(uid, items[1..])
  }

  // ---------------------------------------------------------------------------
  // Properties

  /** Every item starts with the prefix. */
  lemma ItemsStartWithPrefix(prefix: string, i: nat)
    ensures prefix <= StringItem(prefix, i)
    ensures prefix <= JsonItem(prefix, i).p
  {
  }

  /** The filter keeps order: filtering a concatenation concatenates the
      filtered parts. */
  lemma {:induction false} FilterStringsAppend(uid: string, a: seq<string>, b: seq<string>)
    ensures FilterStrings(uid, a + b) == FilterStrings(uid, a) + FilterStrings(uid, b)
  {
    if a == [] {
      assert a + b == b;
    } else {
      assert (a + b)[0] == a[0] && (a + b)[1..] == a[1..] + b;
      FilterStringsAppend(uid, a[1..], b);
    }
  }

  /** The same for records. */
  lemma {:induction false} FilterRecordsAppend(uid: string, a: seq<JsonRecord>, b: seq<JsonRecord>)
    ensures FilterRecords(uid, a + b) == FilterRecords(uid, a) + FilterRecords(uid, b)
  {
    if a == [] {
      assert a + b == b;
    } else {
      assert (a + b)[0] == a[0] && (a + b)[1..] == a[1..] + b;
      FilterRecordsAppend(uid, a[1..], b);
    }
  }

  /** Items that do not start with uid are all dropped. */
  lemma FilterDropsOthers(uid: string, others: seq<string>)
    requires forall k :: 0 <= k < |others| ==> !(uid <= others[k])
    ensures FilterStrings(uid, others) == []
  {
  }

  /** Records whose `p` does not start with uid are all dropped. */
  lemma FilterDropsOtherRecords(uid: string, others: seq<JsonRecord>)
    requires forall k :: 0 <= k < |others| ==> !(uid <= others[k].p)
    ensures FilterRecords(uid, others) == []
  {
  }

  /** What one subscriber reads from a single-partition topic that this run
      and other runs write to: a merge of both that keeps the order of each. */
  predicate Interleaves<T(==)>(received: seq<T>, a: seq<T>, b: seq<T>)
    decreases |received|
  {
    if received == [] then a == [] && b == []
    else
      || (a != [] && received[0] == a[0] && Interleaves(received[1..], a[1..], b))
      || (b != [] && received[0] == b[0] && Interleaves(received[1..], a, b[1..]))
  }

  /** Reading everything of the other runs first, then this run's items, is one
      such merge. */
  lemma {:induction false} InterleavesAfter<T>(a: seq<T>, b: seq<T>)
    ensures Interleaves(b + a, a, b)
    decreases |a| + |b|
  {
    if b == [] {
      assert b + a == a;
      if a != [] {
        InterleavesAfter(a[1..], b);
        assert b + a[1..] == a[1..];
      }
    } else {
      InterleavesAfter(a, b[1..]);
      assert (b + a)[1..] == b[1..] + a;
    }
  }

  /** The uid filter recovers this run's items, in order, from any merge with
      items of other runs whose uids differ. */
  lemma {:induction false} FilterStringsInterleaving(uid: string, received: seq<string>, sent: seq<string>, others: seq<string>)
    requires Interleaves(received, sent, others)
    requires forall k :: 0 <= k < |sent| ==> uid <= sent[k]
    requires forall k :: 0 <= k < |others| ==> !(uid <= others[k])
    ensures FilterStrings(uid, received) == sent
    decreases |received|
  {
    if received != [] {
      if sent != [] && received[0] == sent[0] && Interleaves(received[1..], sent[1..], others) {
        FilterStringsInterleaving(uid, received[1..], sent[1..], others);
      } else {
        FilterStringsInterleaving(uid, received[1..], sent, others[1..]);
      }
    }
  }

  /** The same for records, on their `p` field. */
  lemma {:induction false} FilterRecordsInterleaving(uid: string, received: seq<JsonRecord>, sent: seq<JsonRecord>, others: seq<JsonRecord>)
    requires Interleaves(received, sent, others)
    requires forall k :: 0 <= k < |sent| ==> uid <= sent[k].p
    requires forall k :: 0 <= k < |others| ==> !(uid <= others[k].p)
    ensures FilterRecords(uid, received) == sent
    decreases |received|
  {
    if received != [] {
      if sent != [] && received[0] == sent[0] && Interleaves(received[1..], sent[1..], others) {
        FilterRecordsInterleaving(uid, received[1..], sent[1..], others);
      } else {
        FilterRecordsInterleaving(uid, received[1..], sent, others[1..]);
      }
    }
  }

  /** The items of one generator are pairwise distinct: the number after the
      prefix and the underscore is `str(i)`, and `str` is injective. */
  lemma StringItemInjective(prefix: string, i: nat, j: nat)
    ensures StringItem(prefix, i) == StringItem(prefix, j) <==> i == j
  {
    if StringItem(prefix, i) == StringItem(prefix, j) {
      var n := |prefix| + 1;
      assert StringItem(prefix, i)[n..] == Decimal.Show(i);
      assert StringItem(prefix, j)[n..] == Decimal.Show(j);
      Decimal.ShowInjective(i, j);
    }
  }

  /** Filtering a sequence whose every element starts with uid keeps all of it. */
  lemma {:induction false} FilterKeepsPrefixed(uid: string, items: seq<string>)
    requires forall k :: 0 <= k < |items| ==> uid <= items[k]
    ensures FilterStrings(uid, items) == items
  {
    if items != [] {
      FilterKeepsPrefixed(uid, items[1..]);
    }
  }

  /** The same for records, on their `p` field. */
  lemma {:induction false} FilterKeepsPrefixedRecords(uid: string, items: seq<JsonRecord>)
    requires forall k :: 0 <= k < |items| ==> uid <= items[k].p
    ensures FilterRecords(uid, items) == items
  {
    if items != [] {
      FilterKeepsPrefixedRecords(uid, items[1..]);
    }
  }

  /** The uid filter keeps every generated string item. */
  lemma FilterKeepsStringItems(uid: string, count: int)
    ensures FilterStrings(uid, StringItems(uid, count)) == StringItems(uid, count)
  {
    var items := StringItems(uid, count);
    forall k | 0 <= k < |items| ensures uid <= items[k] {
      ItemsStartWithPrefix(uid, k);
    }
    FilterKeepsPrefixed(uid, items);
  }

  /** The uid filter keeps every generated JSON item. */
  lemma FilterKeepsJsonItems(uid: string, count: int)
    ensures FilterRecords(uid, JsonItems(uid, count)) == JsonItems(uid, count)
  {
    var items := JsonItems(uid, count);
    forall k | 0 <= k < |items| ensures uid <= items[k].p {
      ItemsStartWithPrefix(uid, k);
    }
    FilterKeepsPrefixedRecords(uid, items);
  }

  /** `test_string`: the delayed generator sends the same items as the
      undelayed expected list, `n` pairwise distinct ones. Other runs write to
      the same topic with other uids; from any merge of their items with this
      run's, the uid filter recovers exactly the expected list. */
  method StringRoundTripExpectation(uid: string, n: nat, others: seq<string>) returns (sent: seq<string>, expected: seq<string>)
    requires forall k :: 0 <= k < |others| ==> !(uid <= others[k])
    ensures |expected| == n
    ensures sent == expected
    ensures forall i, j :: 0 <= i < j < n ==> expected[i] != expected[j]
    ensures FilterStrings(uid, others + sent) == expected
    ensures forall received :: Interleaves(received, sent, others) ==> FilterStrings(uid, received) == expected
  {
    var source := new StringData(uid, n, true);
    sent := source.Call();
    var reference := new StringData(uid, n, false);
    expected := reference.Call();
    forall i, j | 0 <= i < j < n ensures expected[i] != expected[j] {
      StringItemInjective(uid, i, j);
    }
    FilterStringsAppend(uid, others, sent);
    FilterDropsOthers(uid, others);
    FilterKeepsStringItems(uid, n);
    assert [] + sent == sent;
    forall received | Interleaves(received, sent, others)
      ensures FilterStrings(uid, received) == expected
    {
      FilterStringsInterleaving(uid, received, sent, others);
    }
  }

  /** `test_json`: the same for the JSON generator; record i carries `c == i`. */
  method JsonRoundTripExpectation(uid: string, n: nat, others: seq<JsonRecord>) returns (sent: seq<JsonRecord>, expected: seq<JsonRecord>)
    requires forall k :: 0 <= k < |others| ==> !(uid <= others[k].p)
    ensures |expected| == n
    ensures sent == expected
    ensures forall i :: 0 <= i < n ==> expected[i].c == i
    ensures FilterRecords(uid, others + sent) == expected
    ensures forall received :: Interleaves(received, sent, others) ==> FilterRecords(uid, received) == expected
  {
    var source := new JsonData(uid, n, true);
    sent := source.Call();
    var reference := new JsonData(uid, n, false);
    expected := reference.Call();
    FilterRecordsAppend(uid, others, sent);
    FilterDropsOtherRecords(uid, others);
    FilterKeepsJsonItems(uid, n);
    assert [] + sent == sent;
    forall received | Interleaves(received, sent, others)
      ensures FilterRecords(uid, received) == expected
    {
      FilterRecordsInterleaving(uid, received, sent, others);
    }
  }
}
