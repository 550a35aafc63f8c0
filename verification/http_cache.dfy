/**
  The expiring LRU cache (app/common/http_cache.py): an ordered dictionary,
  oldest use first, bounded in number and in bytes. Times are real numbers.
 */
module HttpCache {
  import opened Options

  type Key = nat
  type Value = nat

  datatype Item = Item(key: Key, value: Value, size: nat, expires: real)

  datatype Limits = Limits(ttl: real, maxItems: int, maxBytes: int)

  function Total(items: seq<Item>): nat {
    if items == [] then 0 else items[0].size + Total(items[1..])
  }

  predicate Fits(items: seq<Item>, limits: Limits) {
    |items| <= limits.maxItems && Total(items) <= limits.maxBytes
  }

  function Without(items: seq<Item>, key: Key): seq<Item> {
    if items == [] then []
    else if items[0].key == key then Without(items[1..], key)
    else [items[0]] + Without(items[1..], key)
  }

  function Unexpired(items: seq<Item>, now: real): seq<Item> {
    if items == [] then []
    else if items[0].expires <= now then Unexpired(items[1..], now)
    else [items[0]] + Unexpired(items[1..], now)
  }

  function Lookup(items: seq<Item>, key: Key): Option<Item> {
    if items == [] then None
    else if items[0].key == key then Some(items[0])
    else Lookup(items[1..], key)
  }

  /** Drops the oldest until the rest fits. */
  function Evict(items: seq<Item>, limits: Limits): seq<Item> {
    if items == [] || Fits(items, limits) then items else Evict(items[1..], limits)
  }

  function Get(items: seq<Item>, key: Key, now: real): (seq<Item>, Option<Value>) {
    var live := Unexpired(items, now);
    match Lookup(live, key)
    case None => (live, None)
    case Some(item) => (Without(live, key) + [item], Some(item.value))
  }

  function Put(items: seq<Item>, key: Key, value: Value, size: nat, now: real, limits: Limits): seq<Item> {
    if size > limits.maxBytes then items
    else Evict(Without(items, key) + [Item(key, value, size, now + limits.ttl)], limits)
  }

  // ------------------------------------------------------------ one operation

  ghost predicate Distinct(items: seq<Item>) {
    forall i, j | 0 <= i < j < |items| :: items[i].key != items[j].key
  }

  ghost predicate Valid(items: seq<Item>, limits: Limits) {
    Distinct(items) && Fits(items, limits)
  }

  lemma {:induction false} TotalOfSum(a: seq<Item>, b: seq<Item>)
    ensures Total(a + b) == Total(a) + Total(b)
  {
    if a == [] {
      assert a + b == b;
    } else {
      TotalOfSum(a[1..], b);
      assert (a + b)[1..] == a[1..] + b;
    }
  }

  lemma OneMore(items: seq<Item>, item: Item)
    ensures Total(items + [item]) == Total(items) + item.size
  {
    TotalOfSum(items, [item]);
    assert [item][1..] == [];
    assert Total([item]) == item.size + Total([item][1..]);
  }

  /** What is taken out of an ordered dictionary leaves the order of the rest. */
  ghost predicate Subsequence(a: seq<Item>, b: seq<Item>) {
    a == [] || (b != [] && ((a[0] == b[0] && Subsequence(a[1..], b[1..])) || Subsequence(a, b[1..])))
  }

  lemma {:induction false} SubsequencesAreSmaller(a: seq<Item>, b: seq<Item>)
    requires Subsequence(a, b)
    ensures |a| <= |b| && Total(a) <= Total(b)
    ensures forall item | item in a :: item in b
    ensures Distinct(b) ==> Distinct(a)
    decreases |b|
  {
    if a != [] {
      if a[0] == b[0] && Subsequence(a[1..], b[1..]) {
        SubsequencesAreSmaller(a[1..], b[1..]);
        forall item | item in a
          ensures item in b
        {
          assert item == a[0] || item in a[1..];
        }
        if Distinct(b) {
          forall j | 1 <= j < |a|
            ensures a[0].key != a[j].key
          {
            assert a[1..][j - 1] in b[1..];
          }
        }
      } else {
        SubsequencesAreSmaller(a, b[1..]);
      }
    }
  }

  lemma {:induction false} WithoutIs(items: seq<Item>, key: Key)
    ensures Subsequence(Without(items, key), items)
    ensures forall item :: item in Without(items, key) <==> item in items && item.key != key
  {
    if items != [] {
      WithoutIs(items[1..], key);
    }
  }

  lemma {:induction false} UnexpiredIs(items: seq<Item>, now: real)
    ensures Subsequence(Unexpired(items, now), items)
    ensures forall item :: item in Unexpired(items, now) <==> item in items && item.expires > now
  {
    if items != [] {
      UnexpiredIs(items[1..], now);
    }
  }

  lemma NextUnexpired(kept: seq<Item>, rest: seq<Item>, now: real)
    requires rest != []
    ensures kept + Unexpired(rest, now) ==
              (if rest[0].expires <= now then kept else kept + [rest[0]]) + Unexpired(rest[1..], now)
  {
  }

  lemma {:induction false} LookupIs(items: seq<Item>, key: Key)
    ensures match Lookup(items, key)
            case Some(item) => item in items && item.key == key
            case None => forall item | item in items :: item.key != key
  {
    if items != [] {
      LookupIs(items[1..], key);
    }
  }

  /** The n most recently used. */
  function Newest(items: seq<Item>, n: nat): seq<Item>
    requires n <= |items|
  {
    items[|items| - n..]
  }

  /** The longest suffix that fits. */
  ghost predicate LongestFitting(kept: seq<Item>, items: seq<Item>, limits: Limits) {
    && |kept| <= |items| && kept == Newest(items, |kept|) && Fits(kept, limits)
    && forall n: nat | |kept| < n <= |items| :: !Fits(Newest(items, n), limits)
  }

  /** The survivors are the longest suffix that fits. */
  lemma {:induction false} SurvivorsAreTheLongestSuffix(items: seq<Item>, limits: Limits)
    requires limits.maxItems >= 0 && limits.maxBytes >= 0
    ensures LongestFitting(Evict(items, limits), items, limits)
  {
    if items != [] && !Fits(items, limits) {
      SurvivorsAreTheLongestSuffix(items[1..], limits);
      var kept := Evict(items, limits);
      forall n: nat | |kept| < n <= |items|
        ensures !Fits(Newest(items, n), limits)
      {
        assert n < |items| ==> Newest(items, n) == Newest(items[1..], n);
      }
    }
  }

  lemma AppendStaysDistinct(items: seq<Item>, item: Item)
    requires Distinct(items) && forall other | other in items :: other.key != item.key
    ensures Distinct(items + [item])
  {
    forall i, j | 0 <= i < j < |items + [item]|
      ensures (items + [item])[i].key != (items + [item])[j].key
    {
      if j == |items| {
        assert items[i] in items;
      }
    }
  }

  /** A get keeps the cache valid; it returns an unexpired item, if one is there, and makes it the most recent. */
  lemma GetIsRight(items: seq<Item>, key: Key, now: real, limits: Limits)
    requires Valid(items, limits)
    ensures var (after, value) := Get(items, key, now);
            && Valid(after, limits)
            && (forall item :: item in after <==> item in items && item.expires > now)
            && (value.Some? <==> exists item :: item in after && item.key == key)
            && (value.Some? ==> after != [] && after[|after| - 1].key == key && after[|after| - 1].value == value.value)
  {
    var live := Unexpired(items, now);
    UnexpiredIs(items, now);
    SubsequencesAreSmaller(live, items);
    LookupIs(live, key);
    if Lookup(live, key).Some? {
      var item := Lookup(live, key).value;
      WithoutIs(live, key);
      SubsequencesAreSmaller(Without(live, key), live);
      AppendStaysDistinct(Without(live, key), item);
      MovedToTheEnd(live, item);
      OnlyOne(live, item);
    }
  }

  lemma OnlyOne(items: seq<Item>, item: Item)
    requires Distinct(items) && item in items
    ensures forall other | other in items && other.key == item.key :: other == item
  {
  }

  lemma {:induction false} NothingToRemove(items: seq<Item>, key: Key)
    requires forall item | item in items :: item.key != key
    ensures Without(items, key) == items
  {
    if items != [] {
      assert items[0] in items;
      NothingToRemove(items[1..], key);
    }
  }

  lemma {:induction false} MovedToTheEnd(items: seq<Item>, item: Item)
    requires Distinct(items) && item in items
    ensures var after := Without(items, item.key) + [item];
            |after| == |items| && Total(after) == Total(items)
  {
    var rest := Without(items[1..], item.key);
    if items[0].key == item.key {
      OnlyOne(items, item);
      forall other | other in items[1..]
        ensures other.key != item.key
      {
        var i :| 0 <= i < |items[1..]| && items[1..][i] == other;
        assert items[i + 1] == other;
      }
      NothingToRemove(items[1..], item.key);
      assert items[0] == item;
      TotalOfSum(rest, [item]);
    } else {
      MovedToTheEnd(items[1..], item);
      assert ([items[0]] + rest + [item])[1..] == rest + [item];
    }
  }

  lemma SuffixStaysDistinct(kept: seq<Item>, items: seq<Item>)
    requires Distinct(items) && |kept| <= |items| && kept == Newest(items, |kept|)
    ensures Distinct(kept) && forall item | item in kept :: item in items
  {
    var k := |items| - |kept|;
    forall i, j | 0 <= i < j < |kept|
      ensures kept[i].key != kept[j].key
    {
      assert kept[i] == items[k + i] && kept[j] == items[k + j];
    }
  }

  /** In order of use once a key was put. */
  function Used(items: seq<Item>, item: Item): seq<Item> {
    Without(items, item.key) + [item]
  }

  lemma UsedIsDistinct(items: seq<Item>, item: Item)
    requires Distinct(items)
    ensures Distinct(Used(items, item))
  {
    WithoutIs(items, item.key);
    SubsequencesAreSmaller(Without(items, item.key), items);
    AppendStaysDistinct(Without(items, item.key), item);
  }

  lemma TheNewItemFits(items: seq<Item>, item: Item, kept: seq<Item>, limits: Limits)
    requires item.size <= limits.maxBytes && LongestFitting(kept, items + [item], limits)
    ensures limits.maxItems > 0 ==> kept != [] && kept[|kept| - 1] == item
  {
    assert Newest(items + [item], 1) == [item];
    assert Total([item]) == item.size + Total([]);
    assert limits.maxItems > 0 ==> Fits(Newest(items + [item], 1), limits);
  }

  lemma EvictingKeepsTheLongestSuffix(items: seq<Item>, item: Item, limits: Limits)
    requires Distinct(items) && limits.maxItems >= 0 && limits.maxBytes >= 0
    ensures Distinct(Used(items, item)) && LongestFitting(Evict(Used(items, item), limits), Used(items, item), limits)
  {
    UsedIsDistinct(items, item);
    SurvivorsAreTheLongestSuffix(Used(items, item), limits);
  }

  /** After a put: the new item, and others of before under other keys. */
  ghost predicate Brings(after: seq<Item>, items: seq<Item>, item: Item) {
    forall other | other in after :: other == item || (other in items && other.key != item.key)
  }

  lemma SurvivorsAreRight(items: seq<Item>, item: Item, after: seq<Item>, limits: Limits)
    requires Distinct(Used(items, item)) && LongestFitting(after, Used(items, item), limits)
    requires item.size <= limits.maxBytes
    ensures Valid(after, limits) && Brings(after, items, item)
    ensures limits.maxItems > 0 ==> after != [] && after[|after| - 1] == item
  {
    SuffixStaysDistinct(after, Used(items, item));
    TheNewItemFits(Without(items, item.key), item, after, limits);
    WithoutIs(items, item.key);
  }

  lemma PutEvicts(items: seq<Item>, key: Key, value: Value, size: nat, now: real, limits: Limits)
    requires Distinct(items) && limits.maxItems >= 0 && size <= limits.maxBytes
    ensures var item := Item(key, value, size, now + limits.ttl);
            && Distinct(Used(items, item))
            && LongestFitting(Put(items, key, value, size, now, limits), Used(items, item), limits)
  {
    EvictingKeepsTheLongestSuffix(items, Item(key, value, size, now + limits.ttl), limits);
  }

  /** An accepted put keeps the cache valid, with the longest suffix of recent use that fits both limits. */
  lemma PutIsRight(items: seq<Item>, key: Key, value: Value, size: nat, now: real, limits: Limits)
    requires Valid(items, limits) && limits.maxItems >= 0 && size <= limits.maxBytes
    ensures var item := Item(key, value, size, now + limits.ttl);
            var after := Put(items, key, value, size, now, limits);
            && Valid(after, limits)
            && LongestFitting(after, Used(items, item), limits)
            && Brings(after, items, item)
            && (limits.maxItems > 0 ==> after != [] && after[|after| - 1] == item)
  {
    PutEvicts(items, key, value, size, now, limits);
    SurvivorsAreRight(items, Item(key, value, size, now + limits.ttl), Put(items, key, value, size, now, limits), limits);
  }

  // ------------------------------------------------------------ whole histories

  datatype Operation = Reading(key: Key, now: real) | Writing(key: Key, value: Value, size: nat, now: real)

  function After(ops: seq<Operation>, limits: Limits): seq<Item> {
    if ops == [] then []
    else
      var before := After(ops[..|ops| - 1], limits);
      Step(before, ops[|ops| - 1], limits)
  }

  /** The plain map: the latest put of a key that was not too large. */
  function LatestPut(ops: seq<Operation>, key: Key, limits: Limits): Option<Item> {
    if ops == [] then None
    else
      var brought := Brought(ops[|ops| - 1], limits);
      if brought.Some? && brought.value.key == key then brought else LatestPut(ops[..|ops| - 1], key, limits)
  }

  /** Every cached item is the latest accepted put of its key; the bytes and the number stay within the limits. */
  lemma {:induction false} TheCacheRefinesAMap(ops: seq<Operation>, limits: Limits)
    requires limits.maxItems >= 0 && limits.maxBytes >= 0
    ensures Valid(After(ops, limits), limits)
    ensures |After(ops, limits)| <= limits.maxItems && Total(After(ops, limits)) <= limits.maxBytes
    ensures forall item | item in After(ops, limits) :: LatestPut(ops, item.key, limits) == Some(item)
  {
    if ops != [] {
      var n := |ops| - 1;
      TheCacheRefinesAMap(ops[..n], limits);
      var before := After(ops[..n], limits);
      OneMoreRefines(ops, before, limits);
    }
  }

  lemma OneMoreRefines(ops: seq<Operation>, before: seq<Item>, limits: Limits)
    requires limits.maxItems >= 0 && limits.maxBytes >= 0 && ops != [] && before == After(ops[..|ops| - 1], limits)
    requires Valid(before, limits)
    requires forall item | item in before :: LatestPut(ops[..|ops| - 1], item.key, limits) == Some(item)
    ensures Valid(After(ops, limits), limits)
    ensures forall item | item in After(ops, limits) :: LatestPut(ops, item.key, limits) == Some(item)
  {
    var last := ops[|ops| - 1];
    var after := After(ops, limits);
    OneStepKeeps(before, last, limits);
    forall item | item in after
      ensures LatestPut(ops, item.key, limits) == Some(item)
    {
      if Some(item) != Brought(last, limits) {
        assert LatestPut(ops[..|ops| - 1], item.key, limits) == Some(item);
      }
    }
  }

  function Step(items: seq<Item>, op: Operation, limits: Limits): seq<Item> {
    match op
    case Reading(key, now) => Get(items, key, now).0
    case Writing(key, value, size, now) => Put(items, key, value, size, now, limits)
  }

  /** The item an accepted put brings. */
  function Brought(op: Operation, limits: Limits): Option<Item> {
    if op.Writing? && op.size <= limits.maxBytes then Some(Item(op.key, op.value, op.size, op.now + limits.ttl)) else None
  }

  lemma OneStepKeeps(items: seq<Item>, op: Operation, limits: Limits)
    requires Valid(items, limits) && limits.maxItems >= 0
    ensures Valid(Step(items, op, limits), limits)
    ensures Follows(Step(items, op, limits), items, Brought(op, limits))
  {
    match op
    case Reading(key, now) => AReadingKeeps(items, key, now, limits);
    case Writing(key, value, size, now) => AWritingKeeps(items, key, value, size, now, limits);
  }

  /** Nothing but what was brought and what was there under another key. */
  ghost predicate Follows(after: seq<Item>, items: seq<Item>, brought: Option<Item>) {
    forall item | item in after ::
      Some(item) == brought || (item in items && (brought.Some? ==> item.key != brought.value.key))
  }

  lemma AWritingKeeps(items: seq<Item>, key: Key, value: Value, size: nat, now: real, limits: Limits)
    requires Valid(items, limits) && limits.maxItems >= 0
    ensures var after := Put(items, key, value, size, now, limits);
            Valid(after, limits) && Follows(after, items, Brought(Writing(key, value, size, now), limits))
  {
    if size <= limits.maxBytes {
      PutIsRight(items, key, value, size, now, limits);
    }
  }

  lemma AReadingKeeps(items: seq<Item>, key: Key, now: real, limits: Limits)
    requires Valid(items, limits)
    ensures Valid(Get(items, key, now).0, limits) && forall item | item in Get(items, key, now).0 :: item in items
  {
    GetIsRight(items, key, now, limits);
  }

  /** What a get returns after any history: the latest accepted put of the key, unexpired, or nothing. */
  lemma AGetReturnsOnlyTheLatestPut(ops: seq<Operation>, key: Key, now: real, limits: Limits)
    requires limits.maxItems >= 0 && limits.maxBytes >= 0
    ensures var value := Get(After(ops, limits), key, now).1;
            value.Some? ==> LatestPut(ops, key, limits).Some? && LatestPut(ops, key, limits).value.value == value.value
                            && LatestPut(ops, key, limits).value.expires > now
  {
    TheCacheRefinesAMap(ops, limits);
    GetIsRight(After(ops, limits), key, now, limits);
  }

  /** An accepted put is there for the next get, as long as it has not expired and one item is allowed at all. */
  lemma AFreshPutIsFound(ops: seq<Operation>, key: Key, value: Value, size: nat, now: real, then_: real, limits: Limits)
    requires limits.maxItems > 0 && size <= limits.maxBytes && then_ < now + limits.ttl
    ensures Get(After(ops + [Writing(key, value, size, now)], limits), key, then_).1 == Some(value)
  {
    var all := ops + [Writing(key, value, size, now)];
    assert all[..|ops|] == ops;
    TheCacheRefinesAMap(ops, limits);
    TheCacheRefinesAMap(all, limits);
    PutIsRight(After(ops, limits), key, value, size, now, limits);
    var items := After(all, limits);
    GetIsRight(items, key, then_, limits);
    assert items[|items| - 1] in Get(items, key, then_).0;
    AGetReturnsOnlyTheLatestPut(all, key, then_, limits);
  }

  // -------------------------------------------------------------- the cache

  class ExpiringLRUCache {
    var items: seq<Item>
    var totalBytes: int
    const limits: Limits

    ghost predicate Holds()
      reads this
    {
      Valid(items, limits) && totalBytes == Total(items) && limits.maxItems >= 0
    }

    constructor (limits: Limits)
      requires limits.maxItems >= 0 && limits.maxBytes >= 0
      ensures this.limits == limits && items == [] && Holds()
    {
      this.limits, items, totalBytes := limits, [], 0;
    }

    method RemoveKey(key: Key) returns (found: bool)
      requires Holds()
      modifies this
      ensures Holds() && items == Without(old(items), key)
      ensures found <==> exists item :: item in old(items) && item.key == key
    {
      LookupIs(items, key);
      WithoutIs(items, key);
      SubsequencesAreSmaller(Without(items, key), items);
      var item := Lookup(items, key);
      if item.None? {
        NothingToRemove(items, key);
        return false;
      }
      MovedToTheEnd(items, item.value);
      OneMore(Without(items, key), item.value);
      items := Without(items, key);
      totalBytes := totalBytes - item.value.size;
      return true;
    }

    method PruneExpired(now: real)
      requires Holds()
      modifies this
      ensures Holds() && items == Unexpired(old(items), now)
    {
      UnexpiredIs(items, now);
      SubsequencesAreSmaller(Unexpired(items, now), items);
      items, totalBytes := DropExpired(items, totalBytes, now);
    }

    /** Forgets what has expired, one key after the other. */
    static method DropExpired(items: seq<Item>, total: int, now: real) returns (kept: seq<Item>, bytes: int)
      requires total == Total(items)
      ensures kept == Unexpired(items, now) && bytes == Total(kept)
    {
      var rest := items;
      kept, bytes := [], total;
      ghost var live := Unexpired(items, now);
      while rest != []
        invariant bytes == Total(kept) + Total(rest)
        invariant kept + Unexpired(rest, now) == live
      {
        NextUnexpired(kept, rest, now);
        if rest[0].expires <= now {
          bytes := bytes - rest[0].size;
        } else {
          OneMore(kept, rest[0]);
          kept := kept + [rest[0]];
        }
        rest := rest[1..];
      }
    }

    method GetItem(key: Key, now: real) returns (value: Option<Value>)
      requires Holds()
      modifies this
      ensures Holds() && (items, value) == Get(old(items), key, now)
    {
      PruneExpired(now);
      var item := Lookup(items, key);
      if item.None? {
        return None;
      }
      LookupIs(items, key);
      MovedToTheEnd(items, item.value);
      WithoutIs(items, key);
      SubsequencesAreSmaller(Without(items, key), items);
      AppendStaysDistinct(Without(items, key), item.value);
      items := Without(items, key) + [item.value];
      return Some(item.value.value);
    }

    method PutItem(key: Key, value: Value, size: nat, now: real)
      requires Holds()
      modifies this
      ensures Holds() && items == Put(old(items), key, value, size, now, limits)
    {
      if size > limits.maxBytes {
        return;
      }
      ghost var target := Put(items, key, value, size, now, limits);
      PutIsRight(items, key, value, size, now, limits);
      var found := RemoveKey(key);
      Append(Item(key, value, size, now + limits.ttl));
      EvictOldest();
    }

    method Append(item: Item)
      requires totalBytes == Total(items)
      modifies this
      ensures items == old(items) + [item] && totalBytes == Total(items)
    {
      OneMore(items, item);
      items := items + [item];
      totalBytes := totalBytes + item.size;
    }

    method EvictOldest()
      requires totalBytes == Total(items) && limits.maxItems >= 0 && limits.maxBytes >= 0
      modifies this
      ensures items == Evict(old(items), limits) && totalBytes == Total(items)
    {
      while |items| > limits.maxItems || totalBytes > limits.maxBytes
        invariant totalBytes == Total(items)
        invariant Evict(items, limits) == Evict(old(items), limits)
        decreases |items|
      {
        totalBytes := totalBytes - items[0].size;
        items := items[1..];
      }
    }
  }
}
