/**
 * `MemoryRepositoryProvider`: keeps the records of each item type once
 * fetched from its backend, retagged with the wrapper of that type. The
 * same code appears in the middle and newest generations.
 */
module Memory {
  import opened Common
  import opened Items

  /** `_wrappers`: the wrapper each item type is given; TEAMS, LABELS and COMMITTERS have none. */
  function WrapperOf(t: ItemType): Option<Kind> {
    match t
    case ISSUES => Some(Issue)
    case COMMITS => Some(Commit)
    case COMMENTS => Some(Plain)
    case EVENTS => Some(Event)
    case RELEASES => Some(Release)
    case _ => None
  }

  /** The records of `items`, each with its wrapper set to `k`. */
  function Tagged(items: seq<Record>, k: Kind): (r: seq<Record>)
    ensures |r| == |items|
    ensures forall i :: 0 <= i < |items| ==> r[i] == items[i].(kind := k)
  {
    if items == [] then [] else Tagged(items[..|items| - 1], k) + [items[|items| - 1].(kind := k)]
  }

  /** What the provider stores for a fetched list: retagged when the type has a wrapper, as it is otherwise. */
  function Wrapped(t: ItemType, items: seq<Record>): seq<Record> {
    match WrapperOf(t)
    case Some(k) => Tagged(items, k)
    case None => items
  }

  /** Retagging changes nothing but the wrapper: every field the accessors read keeps its value. */
  lemma WrappedKeepsFields(t: ItemType, items: seq<Record>)
    ensures |Wrapped(t, items)| == |items|
    ensures forall i :: 0 <= i < |items| ==> Wrapped(t, items)[i].(kind := items[i].kind) == items[i]
    ensures WrapperOf(t).Some? ==> forall r :: r in Wrapped(t, items) ==> r.kind == WrapperOf(t).value
    ensures WrapperOf(t).None? ==> Wrapped(t, items) == items
  {
  }

  /** `for item in items: item.__class__ = wrapper`. */
  method Retag(items: seq<Record>, k: Kind) returns (out: seq<Record>)
    ensures out == Tagged(items, k)
  {
    out := items;
    var i := 0;
    while i < |out|
      invariant 0 <= i <= |out| == |items|
      invariant out[..i] == Tagged(items[..i], k)
      invariant out[i..] == items[i..]
    {
      out := out[i := out[i].(kind := k)];
      i := i + 1;
      assert items[..i] == items[..i - 1] + [items[i - 1]];
    }
    assert out == out[..i];
    assert items == items[..i];
  }

  /** One call to the backend: its arguments and whether it returned. */
  datatype Call = Call(t: ItemType, since: Option<int>, ok: bool)

  class MemoryProvider {
    const backend: Backend
    /** `_data`. */
    var data: map<ItemType, seq<Record>>
    /** Every call made to the backend, in order. */
    ghost var calls: seq<Call>

    /**
     * The backend was called successfully once for each stored type and
     * for no other; a type is only asked for again after a call that
     * raised.
     */
    ghost predicate Valid()
      reads this
    {
      (forall i, j :: 0 <= i < j < |calls| && calls[i].t == calls[j].t ==> !calls[i].ok) &&
      (forall i :: 0 <= i < |calls| && calls[i].ok ==> calls[i].t in data) &&
      (forall t :: t in data ==> Returned(calls, t))
    }

    constructor(backend: Backend)
      ensures Valid() && this.backend == backend && data == map[] && calls == []
    {
      this.backend := backend;
      data := map[];
      calls := [];
    }

    /**
     * `get_data(item_type, since)`: the stored list when there is one,
     * whatever `since` is; otherwise the backend's list, retagged, stored
     * and returned. Entries of other types are left as they are.
     */
    method GetData(t: ItemType, since: Option<int>) returns (r: Result<seq<Record>>)
      requires Valid()
      modifies this
      ensures Valid()
      ensures t in old(data) ==> r == Ok(old(data)[t]) && data == old(data) && calls == old(calls)
      ensures t !in old(data) ==>
        match backend(t, since)
        case Err(e) => r == Err(e) && data == old(data) && calls == old(calls) + [Call(t, since, false)]
        case Ok(items) =>
          r == Ok(Wrapped(t, items)) && data == old(data)[t := Wrapped(t, items)] &&
          calls == old(calls) + [Call(t, since, true)]
    {
      if t !in data {
        var fetched := backend(t, since);
        if fetched.Err? {
          forall u | u in data ensures Returned(calls + [Call(t, since, false)], u) {
            ReturnedExtend(calls, Call(t, since, false), u);
          }
          calls := calls + [Call(t, since, false)];
          r := fetched;
          return;
        }
        var items := fetched.value;
        var wrapper := WrapperOf(t);
        if wrapper.Some? {
          items := Retag(items, wrapper.value);
        }
        forall u | u in data || u == t ensures Returned(calls + [Call(t, since, true)], u) {
          ReturnedExtend(calls, Call(t, since, true), u);
        }
        calls := calls + [Call(t, since, true)];
        data := data[t := items];
      }
      r := Ok(data[t]);
    }
  }

  /** Some call for `t` returned. */
  ghost predicate Returned(calls: seq<Call>, t: ItemType) {
    exists i :: 0 <= i < |calls| && calls[i].t == t && calls[i].ok
  }

  lemma ReturnedExtend(calls: seq<Call>, c: Call, t: ItemType)
    ensures Returned(calls, t) ==> Returned(calls + [c], t)
    ensures c.ok && c.t == t ==> Returned(calls + [c], t)
  {
    if Returned(calls, t) {
      var i :| 0 <= i < |calls| && calls[i].t == t && calls[i].ok;
      assert (calls + [c])[i] == calls[i];
    }
    if c.ok && c.t == t {
      assert (calls + [c])[|calls|] == c;
    }
  }

  /**
   * Two calls in a row for the same type reach the backend at most once,
   * and the second returns what the first stored, whatever `since` each
   * was given.
   */
  method TwoCalls(m: MemoryProvider, t: ItemType, since1: Option<int>, since2: Option<int>)
      returns (r1: Result<seq<Record>>, r2: Result<seq<Record>>)
    requires m.Valid()
    modifies m
    ensures m.Valid()
    ensures r1.Ok? ==> r2 == r1 && t in m.data && m.data[t] == r1.value
    ensures r1.Ok? ==> |m.calls| <= |old(m.calls)| + 1
  {
    r1 := m.GetData(t, since1);
    r2 := m.GetData(t, since2);
  }
}
