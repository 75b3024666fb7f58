/**
 * `FileRepositoryProvider._purge_duplicates` and `_get_last_item_date` of
 * the newest cache: the forge's listings may repeat a record, so every list
 * written to the cache is first collapsed on the record's key (a dictionary
 * comprehension: the first occurrence fixes the position, the last one the
 * value) and, for dated item types, sorted newest first.
 *
 * The dictionary step and the sort are stated for any element type with a
 * key function and a date function; `Purge` instantiates them per item type.
 */
module Purging {
  import opened Common
  import opened Items

  /** A dictionary key: an integer `id` or a string `sha` / `slug` / `login`. */
  datatype Key = IdKey(id: int) | TextKey(text: string)

  /** The field `_purge_duplicates` identifies records of each type by. */
  function KeyOf(t: ItemType, r: Record): Key {
    match t
    case COMMITS => TextKey(r.sha)
    case TEAMS => TextKey(r.slug)
    case COMMITTERS => TextKey(r.login)
    case _ => IdKey(r.id)
  }

  /** The date a record of each type is sorted (and resumed) by. */
  function TimeOf(t: ItemType, r: Record): int {
    if t == COMMITS then r.commitDate else r.createdAt
  }

  function KeyFn(t: ItemType): Record -> Key {
    (r: Record) => KeyOf(t, r)
  }

  function TimeFn(t: ItemType): Record -> int {
    (r: Record) => TimeOf(t, r)
  }

  /** The types whose purged list is re-sorted by date. */
  predicate IsDated(t: ItemType) {
    t != LABELS && t != TEAMS && t != COMMITTERS
  }

  // ---------------------------------------------------------------------
  // Keys
  // ---------------------------------------------------------------------

  function Keys<T(==), K(==)>(key: T -> K, s: seq<T>): (ks: seq<K>)
    ensures |ks| == |s| && forall i :: 0 <= i < |s| ==> ks[i] == key(s[i])
  {
    seq(|s|, i requires 0 <= i < |s| => key(s[i]))
  }

  function KeySet<T(==), K(==)>(key: T -> K, s: seq<T>): set<K> {
    set x | x in s :: key(x)
  }

  predicate DistinctKeys<T(==), K(==)>(key: T -> K, s: seq<T>) {
    forall i, j :: 0 <= i < j < |s| ==> key(s[i]) != key(s[j])
  }

  predicate SortedDesc<T(==)>(time: T -> int, s: seq<T>) {
    forall i, j :: 0 <= i < j < |s| ==> time(s[i]) >= time(s[j])
  }

  /** The keys of `ks` in order of first occurrence. */
  function Distinct<K(==)>(ks: seq<K>): seq<K> {
    if ks == [] then []
    else
      var d := Distinct(ks[..|ks| - 1]);
      if ks[|ks| - 1] in d then d else d + [ks[|ks| - 1]]
  }

  lemma KeySetSnoc<T, K>(key: T -> K, init: seq<T>, x: T)
    ensures KeySet(key, init + [x]) == KeySet(key, init) + {key(x)}
  {
    assert forall r :: r in init + [x] <==> r in init || r == x;
  }

  lemma InKeySet<T, K>(key: T -> K, s: seq<T>, k: K)
    ensures k in KeySet(key, s) <==> k in Keys(key, s)
  {
    if k in KeySet(key, s) {
      var y :| y in s && key(y) == k;
      var j :| 0 <= j < |s| && s[j] == y;
      assert Keys(key, s)[j] == k;
    }
  }

  lemma SameElementsSameKeys<T, K>(key: T -> K, a: seq<T>, b: seq<T>)
    requires multiset(a) == multiset(b)
    ensures forall r :: r in a <==> r in b
    ensures KeySet(key, a) == KeySet(key, b)
  {
    assert forall r :: r in a <==> r in multiset(a);
    assert forall r :: r in b <==> r in multiset(b);
  }

  /** In a list of distinct keys, the head's key is absent from the tail. */
  lemma DistinctTail<T, K>(key: T -> K, s: seq<T>)
    requires DistinctKeys(key, s) && s != []
    ensures DistinctKeys(key, s[1..])
    ensures key(s[0]) !in KeySet(key, s[1..])
  {
    forall r | r in s[1..] ensures key(r) != key(s[0]) {
      var m :| 0 <= m < |s[1..]| && s[1..][m] == r;
      assert s[m + 1] == r;
    }
  }

  lemma DistinctInit<T, K>(key: T -> K, s: seq<T>)
    requires DistinctKeys(key, s) && s != []
    ensures DistinctKeys(key, s[..|s| - 1])
    ensures key(s[|s| - 1]) !in KeySet(key, s[..|s| - 1])
  {
    forall r | r in s[..|s| - 1] ensures key(r) != key(s[|s| - 1]) {
      var m :| 0 <= m < |s| - 1 && s[..|s| - 1][m] == r;
      assert s[m] == r;
    }
  }

  lemma {:induction false} DistinctKeysCardinality<T, K>(key: T -> K, s: seq<T>)
    requires DistinctKeys(key, s)
    ensures |KeySet(key, s)| == |s|
  {
    if s != [] {
      var init, x := s[..|s| - 1], s[|s| - 1];
      DistinctInit(key, s);
      DistinctKeysCardinality(key, init);
      assert s == init + [x];
      KeySetSnoc(key, init, x);
    }
  }

  /** The last element of `s` with key `k`. */
  function LastWith<T(==), K(==)>(key: T -> K, s: seq<T>, k: K): (r: Option<T>)
    ensures r.Some? ==> r.value in s && key(r.value) == k
    ensures r.None? <==> k !in KeySet(key, s)
  {
    if s == [] then None
    else
      KeySetSnoc(key, s[..|s| - 1], s[|s| - 1]);
      assert s == s[..|s| - 1] + [s[|s| - 1]];
      if key(s[|s| - 1]) == k then Some(s[|s| - 1])
      else LastWith(key, s[..|s| - 1], k)
  }

  lemma {:induction false} LastWithAppend<T, K>(key: T -> K, a: seq<T>, b: seq<T>, k: K)
    ensures LastWith(key, a + b, k) == if k in KeySet(key, b) then LastWith(key, b, k) else LastWith(key, a, k)
  {
    if b == [] {
      assert a + b == a;
    } else {
      assert (a + b)[..|a + b| - 1] == a + b[..|b| - 1];
      LastWithAppend(key, a, b[..|b| - 1], k);
      KeySetSnoc(key, b[..|b| - 1], b[|b| - 1]);
      assert b == b[..|b| - 1] + [b[|b| - 1]];
    }
  }

  // ---------------------------------------------------------------------
  // The dictionary comprehension `{key(x): x for x in data}.values()`
  // ---------------------------------------------------------------------

  function IndexOfKey<T(==), K(==)>(key: T -> K, d: seq<T>, k: K): (r: Option<nat>)
    ensures r.Some? ==> r.value < |d| && key(d[r.value]) == k
    ensures r.None? ==> forall i :: 0 <= i < |d| ==> key(d[i]) != k
  {
    if d == [] then None
    else if key(d[0]) == k then Some(0)
    else match IndexOfKey(key, d[1..], k)
      case None => None
      case Some(i) => Some(i + 1)
  }

  /** `d[key(x)] = x`: overwrite in place if the key is there, append otherwise. */
  function Upsert<T(==), K(==)>(key: T -> K, d: seq<T>, x: T): seq<T> {
    match IndexOfKey(key, d, key(x))
    case Some(i) => d[i := x]
    case None => d + [x]
  }

  function Dedup<T(==), K(==)>(key: T -> K, s: seq<T>): seq<T> {
    if s == [] then [] else Upsert(key, Dedup(key, s[..|s| - 1]), s[|s| - 1])
  }

  lemma UpsertShape<T, K>(key: T -> K, d: seq<T>, x: T)
    requires DistinctKeys(key, d)
    ensures DistinctKeys(key, Upsert(key, d, x))
    ensures x in Upsert(key, d, x)
    ensures forall y :: y in Upsert(key, d, x) && y != x ==> y in d && key(y) != key(x)
    ensures KeySet(key, Upsert(key, d, x)) == KeySet(key, d) + {key(x)}
  {
    match IndexOfKey(key, d, key(x))
    case Some(i) =>
      var u := d[i := x];
      assert u[i] == x;
      assert Keys(key, d)[i] == key(x);
      assert Keys(key, u) == Keys(key, d);
      forall k ensures k in KeySet(key, u) <==> k in KeySet(key, d) {
        InKeySet(key, u, k);
        InKeySet(key, d, k);
      }
    case None =>
      InKeySet(key, d, key(x));
      KeySetSnoc(key, d, x);
  }

  lemma {:induction false} DedupDistinctKeepsLast<T, K>(key: T -> K, s: seq<T>)
    ensures DistinctKeys(key, Dedup(key, s))
    ensures KeySet(key, Dedup(key, s)) == KeySet(key, s)
    ensures forall r :: r in Dedup(key, s) ==> LastWith(key, s, key(r)) == Some(r)
  {
    if s != [] {
      var init, x := s[..|s| - 1], s[|s| - 1];
      assert s == init + [x];
      DedupDistinctKeepsLast(key, init);
      UpsertShape(key, Dedup(key, init), x);
      KeySetSnoc(key, init, x);
    }
  }

  lemma UpsertKeys<T, K>(key: T -> K, d: seq<T>, x: T)
    ensures Keys(key, Upsert(key, d, x)) ==
      if key(x) in Keys(key, d) then Keys(key, d) else Keys(key, d) + [key(x)]
  {
    match IndexOfKey(key, d, key(x))
    case Some(i) =>
      assert Keys(key, d)[i] == key(x);
      assert Keys(key, d[i := x]) == Keys(key, d);
    case None =>
  }

  lemma {:induction false} DedupKeepsFirstPositions<T, K>(key: T -> K, s: seq<T>)
    ensures Keys(key, Dedup(key, s)) == Distinct(Keys(key, s))
  {
    if s != [] {
      var init, x := s[..|s| - 1], s[|s| - 1];
      DedupKeepsFirstPositions(key, init);
      UpsertKeys(key, Dedup(key, init), x);
      var ks := Keys(key, s);
      assert ks[..|ks| - 1] == Keys(key, init);
    }
  }

  lemma {:induction false} DedupOfDistinct<T, K>(key: T -> K, s: seq<T>)
    requires DistinctKeys(key, s)
    ensures Dedup(key, s) == s
  {
    if s != [] {
      var init, x := s[..|s| - 1], s[|s| - 1];
      DistinctInit(key, s);
      DedupOfDistinct(key, init);
      InKeySet(key, init, key(x));
      assert s == init + [x];
    }
  }

  // ---------------------------------------------------------------------
  // `sorted(..., reverse=True, key=date)`: stable, newest first
  // ---------------------------------------------------------------------

  /** Place `x` before the first element that is not newer than it. */
  function InsertDesc<T(==)>(time: T -> int, x: T, s: seq<T>): (r: seq<T>)
    ensures multiset(r) == multiset(s) + multiset{x}
  {
    if s == [] || time(s[0]) <= time(x) then [x] + s
    else
      assert s == [s[0]] + s[1..];
      [s[0]] + InsertDesc(time, x, s[1..])
  }

  function SortDesc<T(==)>(time: T -> int, s: seq<T>): (r: seq<T>)
    ensures multiset(r) == multiset(s)
  {
    if s == [] then []
    else
      assert s == [s[0]] + s[1..];
      InsertDesc(time, s[0], SortDesc(time, s[1..]))
  }

  lemma {:induction false} InsertDescSorted<T>(time: T -> int, x: T, s: seq<T>)
    requires SortedDesc(time, s)
    ensures SortedDesc(time, InsertDesc(time, x, s))
  {
    if s != [] && time(s[0]) > time(x) {
      var tail := s[1..];
      InsertDescSorted(time, x, tail);
      var rest := InsertDesc(time, x, tail);
      forall j | 0 <= j < |rest| ensures time(s[0]) >= time(rest[j]) {
        assert rest[j] in multiset(rest);
        if rest[j] != x {
          assert rest[j] in multiset(tail);
          var m :| 0 <= m < |tail| && tail[m] == rest[j];
          assert s[m + 1] == rest[j];
        }
      }
    }
  }

  lemma {:induction false} InsertDescDistinct<T, K>(key: T -> K, time: T -> int, x: T, s: seq<T>)
    requires DistinctKeys(key, s) && key(x) !in KeySet(key, s)
    ensures DistinctKeys(key, InsertDesc(time, x, s))
  {
    if s == [] || time(s[0]) <= time(x) {
      forall j | 0 <= j < |s| ensures key(x) != key(s[j]) {
        assert s[j] in s;
      }
    } else {
      var tail := s[1..];
      DistinctTail(key, s);
      assert key(x) !in KeySet(key, tail) by {
        forall r | r in tail ensures key(r) != key(x) {
          assert r in s;
        }
      }
      InsertDescDistinct(key, time, x, tail);
      var rest := InsertDesc(time, x, tail);
      SameElementsSameKeys(key, rest, tail + [x]);
      KeySetSnoc(key, tail, x);
      forall j | 0 <= j < |rest| ensures key(s[0]) != key(rest[j]) {
        assert rest[j] in rest;
      }
    }
  }

  lemma {:induction false} SortDescShape<T, K>(key: T -> K, time: T -> int, s: seq<T>)
    ensures SortedDesc(time, SortDesc(time, s))
    ensures DistinctKeys(key, s) ==> DistinctKeys(key, SortDesc(time, s))
  {
    if s != [] {
      var tail := s[1..];
      SortDescShape(key, time, tail);
      InsertDescSorted(time, s[0], SortDesc(time, tail));
      if DistinctKeys(key, s) {
        DistinctTail(key, s);
        SameElementsSameKeys(key, tail, SortDesc(time, tail));
        InsertDescDistinct(key, time, s[0], SortDesc(time, tail));
      }
    }
  }

  lemma {:induction false} SortDescOfSorted<T>(time: T -> int, s: seq<T>)
    requires SortedDesc(time, s)
    ensures SortDesc(time, s) == s
  {
    if s != [] {
      SortDescOfSorted(time, s[1..]);
      assert s == [s[0]] + s[1..];
    }
  }

  // ---------------------------------------------------------------------
  // `_purge_duplicates` and `_get_last_item_date`
  // ---------------------------------------------------------------------

  /** `_purge_duplicates(data, item_type)`. */
  function Purge(t: ItemType, s: seq<Record>): seq<Record> {
    if IsDated(t) then SortDesc(TimeFn(t), Dedup(KeyFn(t), s)) else Dedup(KeyFn(t), s)
  }

  /** The types whose refresh resumes from the date of the cache's last record. */
  predicate ResumesFromLast(t: ItemType) {
    t == COMMENTS || t == EVENTS || t == COMMITS || t == RELEASES
  }

  /** `_get_last_item_date(item_type, data)`; `data[-1]` on an empty list raises. */
  function LastItemDate(t: ItemType, data: seq<Record>): (r: Result<Option<int>>)
    ensures r.Err? <==> ResumesFromLast(t) && data == []
    ensures r.Err? ==> r.error == IndexError
  {
    if !ResumesFromLast(t) then Ok(None)
    else if data == [] then Err(IndexError)
    else if t == COMMITS then Ok(Some(data[|data| - 1].commitDate))
    else Ok(Some(data[|data| - 1].createdAt))
  }

  /**
   * The purged list has one record per key of the input, that record is the
   * input's last one with that key, and dated types come out newest first;
   * the others keep the keys in order of first appearance.
   */
  lemma PurgeSpec(t: ItemType, s: seq<Record>)
    ensures DistinctKeys(KeyFn(t), Purge(t, s))
    ensures KeySet(KeyFn(t), Purge(t, s)) == KeySet(KeyFn(t), s)
    ensures forall r :: r in Purge(t, s) ==> LastWith(KeyFn(t), s, KeyOf(t, r)) == Some(r)
    ensures IsDated(t) ==> SortedDesc(TimeFn(t), Purge(t, s))
    ensures !IsDated(t) ==> Keys(KeyFn(t), Purge(t, s)) == Distinct(Keys(KeyFn(t), s))
    ensures |Purge(t, s)| == |KeySet(KeyFn(t), s)|
  {
    var key, time := KeyFn(t), TimeFn(t);
    DedupDistinctKeepsLast(key, s);
    DedupKeepsFirstPositions(key, s);
    var d := Dedup(key, s);
    if IsDated(t) {
      SortDescShape(key, time, d);
      SameElementsSameKeys(key, d, SortDesc(time, d));
    }
    DistinctKeysCardinality(key, Purge(t, s));
  }

  /** Purging an already purged list changes nothing. */
  lemma PurgeIdempotent(t: ItemType, s: seq<Record>)
    ensures Purge(t, Purge(t, s)) == Purge(t, s)
  {
    PurgeSpec(t, s);
    var p := Purge(t, s);
    DedupOfDistinct(KeyFn(t), p);
    if IsDated(t) {
      SortDescOfSorted(TimeFn(t), p);
    }
  }

  /**
   * The refresh merge `purge(fetched + cached)`: every key of either list
   * survives once, and where a key is in both, the copy already in the cache
   * is the one kept.
   */
  lemma MergeKeepsCachedCopy(t: ItemType, fetched: seq<Record>, cached: seq<Record>)
    ensures KeySet(KeyFn(t), Purge(t, fetched + cached)) == KeySet(KeyFn(t), fetched) + KeySet(KeyFn(t), cached)
    ensures forall r :: r in Purge(t, fetched + cached) && KeyOf(t, r) in KeySet(KeyFn(t), cached) ==>
      LastWith(KeyFn(t), cached, KeyOf(t, r)) == Some(r)
    ensures forall r :: r in Purge(t, fetched + cached) && KeyOf(t, r) !in KeySet(KeyFn(t), cached) ==>
      LastWith(KeyFn(t), fetched, KeyOf(t, r)) == Some(r)
  {
    var key := KeyFn(t);
    PurgeSpec(t, fetched + cached);
    assert KeySet(key, fetched + cached) == KeySet(key, fetched) + KeySet(key, cached) by {
      assert forall r :: r in fetched + cached <==> r in fetched || r in cached;
    }
    forall r | r in Purge(t, fetched + cached) {
      LastWithAppend(key, fetched, cached, KeyOf(t, r));
    }
  }

  /**
   * On a cache written by `_purge_duplicates` (newest first), `data[-1]` is
   * the oldest record: the date the refresh resumes from is the minimum date
   * in the cache, not the maximum.
   */
  lemma LastItemDateIsOldest(t: ItemType, s: seq<Record>)
    requires ResumesFromLast(t)
    requires s != []
    ensures var data := Purge(t, s);
      LastItemDate(t, data).Ok? && LastItemDate(t, data).value.Some? &&
      (forall r :: r in data ==> LastItemDate(t, data).value.value <= TimeOf(t, r)) &&
      LastItemDate(t, data).value.value == TimeOf(t, data[|data| - 1])
  {
    var data := Purge(t, s);
    assert data != [] && SortedDesc(TimeFn(t), data) by {
      PurgeSpec(t, s);
      assert KeyOf(t, s[0]) in KeySet(KeyFn(t), s);
    }
    LastIsLeast(TimeFn(t), data);
    var last := data[|data| - 1];
    assert LastItemDate(t, data) == Ok(Some(TimeOf(t, last)));
    forall r | r in data ensures TimeOf(t, last) <= TimeOf(t, r) {
      assert TimeFn(t)(last) <= TimeFn(t)(r);
    }
  }

  /** The last element of a list sorted newest first is the oldest. */
  lemma LastIsLeast<T>(time: T -> int, data: seq<T>)
    requires data != [] && SortedDesc(time, data)
    ensures forall r :: r in data ==> time(data[|data| - 1]) <= time(r)
  {
    forall r | r in data ensures time(data[|data| - 1]) <= time(r) {
      var j :| 0 <= j < |data| && data[j] == r;
      if j < |data| - 1 {
        assert time(data[j]) >= time(data[|data| - 1]);
      }
    }
  }

  lemma LastItemDateCases(t: ItemType, data: seq<Record>)
    ensures t == ISSUES || t == LABELS || t == TEAMS || t == COMMITTERS ==> LastItemDate(t, data) == Ok(None)
    ensures t == COMMITS && data != [] ==> LastItemDate(t, data) == Ok(Some(data[|data| - 1].commitDate))
    ensures (t == COMMENTS || t == EVENTS || t == RELEASES) && data != [] ==>
      LastItemDate(t, data) == Ok(Some(data[|data| - 1].createdAt))
  {
  }
}
