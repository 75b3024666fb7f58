/**
 * `FileRepositoryProvider` of the middle generation: a disk cache with a
 * fixed staleness cutoff of 30 days, which appends what it fetches to what
 * it had, without removing duplicates or sorting.
 */
module LegacyCache {
  import opened Common
  import opened Items
  import FileCache
  import Dates

  /** `_stale_cutoff`: 30 days, in seconds. */
  const StaleCutoff: int := 30 * Dates.Day

  /** A cache file last written at `mtime` is stale at `now`. */
  predicate Stale(now: int, mtime: int) {
    now - StaleCutoff > mtime
  }

  /** The types whose refresh reads the last cached record in this generation. */
  predicate ReadsLastRecord(t: ItemType) {
    t == COMMENTS || t == EVENTS || t == COMMITS || t == RELEASES || t == COMMITTERS
  }

  /**
   * `_get_last_item_date(item_type, data)` as written: COMMITTERS is not
   * among the types that refetch everything, so it falls through to the
   * `created_at` branch, which contributor records lack.
   */
  function LastItemDateAsWritten(t: ItemType, data: seq<Record>): Result<Option<int>> {
    if t == ISSUES || t == LABELS || t == TEAMS then Ok(None)
    else if data == [] then Err(IndexError)
    else if t == COMMITS then Ok(Some(data[|data| - 1].commitDate))
    else if t == COMMITTERS then Err(AttributeError)
    else Ok(Some(data[|data| - 1].createdAt))
  }

  /** `_get_last_item_date` with COMMITTERS refetched in full, as the newest generation does. */
  function LastItemDate(t: ItemType, data: seq<Record>): (r: Result<Option<int>>)
    ensures r.Err? <==> data == [] && (t == COMMENTS || t == EVENTS || t == COMMITS || t == RELEASES)
    ensures r.Ok? && r.value.Some? ==> data != [] && (t == COMMENTS || t == EVENTS || t == COMMITS || t == RELEASES)
  {
    match t
    case ISSUES | LABELS | TEAMS | COMMITTERS => Ok(None)
    case COMMITS => if data == [] then Err(IndexError) else Ok(Some(data[|data| - 1].commitDate))
    case COMMENTS | EVENTS | RELEASES => if data == [] then Err(IndexError) else Ok(Some(data[|data| - 1].createdAt))
  }

  /** A stale refresh of COMMITTERS raises as written, whatever the cache holds. */
  lemma StaleCommittersRaise(data: seq<Record>)
    ensures LastItemDateAsWritten(COMMITTERS, data).Err?
    ensures data != [] ==> LastItemDateAsWritten(COMMITTERS, data) == Err(AttributeError)
    ensures LastItemDate(COMMITTERS, data) == Ok(None)
  {
  }

  /** What `get_data` does for one call. */
  datatype LegacyPlan =
    | Serve(data: seq<Record>)                     // the cached records, no backend call
    | Refetch(since: Option<int>, prefix: seq<Record>) // backend call; result is `prefix` then the fetched records
    | Crash(error: Error)                          // an exception before the backend is called

  /** The decision as written: the resume point is read before the emptiness check. */
  function DecideAsWritten(now: int, file: Option<FileCache.CacheFile>, t: ItemType, since: Option<int>): LegacyPlan {
    var data := if file.Some? then file.value.records else [];
    var refresh := file.Some? && Stale(now, file.value.mtime);
    var resume := if refresh then LastItemDateAsWritten(t, data) else Ok(since);
    match resume
    case Err(e) => Crash(e)
    case Ok(s) =>
      if |data| == 0 then Refetch(None, [])
      else if refresh then Refetch(s, data)
      else Serve(data)
  }

  /**
   * The decision with the emptiness check first and COMMITTERS refetched
   * in full: a missing or empty file means a full fetch; a stale file is
   * extended; a fresh one is served.
   */
  function Decide(now: int, file: Option<FileCache.CacheFile>, t: ItemType, since: Option<int>): (plan: LegacyPlan)
    ensures !plan.Crash?
    ensures plan.Refetch? ==> plan.prefix == (if file.Some? then file.value.records else [])
  {
    if file.None? || file.value.records == [] then Refetch(None, [])
    else if Stale(now, file.value.mtime) then Refetch(LastItemDate(t, file.value.records).value, file.value.records)
    else Serve(file.value.records)
  }

  lemma DecideCases(now: int, file: Option<FileCache.CacheFile>, t: ItemType, since: Option<int>)
    ensures file.None? || file.value.records == [] ==> Decide(now, file, t, since) == Refetch(None, [])
    ensures file.Some? && file.value.records != [] && !Stale(now, file.value.mtime) ==>
      Decide(now, file, t, since) == Serve(file.value.records)
    ensures file.Some? && file.value.records != [] && Stale(now, file.value.mtime) ==>
      var plan := Decide(now, file, t, since);
      plan.Refetch? && Ok(plan.since) == LastItemDate(t, file.value.records) && plan.prefix == file.value.records
    ensures Decide(now, file, t, since) == Decide(now, file, t, None)
  {
  }

  /**
   * The code as written raises exactly on a stale file whose last record
   * it cannot read: an empty one of a type that reads it (IndexError), or
   * a non-empty COMMITTERS file (AttributeError).
   */
  lemma DecideAsWrittenCrashes(now: int, file: Option<FileCache.CacheFile>, t: ItemType, since: Option<int>)
    ensures DecideAsWritten(now, file, t, since).Crash? <==>
      file.Some? && Stale(now, file.value.mtime) &&
      ((file.value.records == [] && ReadsLastRecord(t)) || (file.value.records != [] && t == COMMITTERS))
    ensures DecideAsWritten(now, file, t, since).Crash? && file.Some? && file.value.records == [] ==>
      DecideAsWritten(now, file, t, since).error == IndexError
    ensures DecideAsWritten(now, file, t, since).Crash? && file.Some? && file.value.records != [] ==>
      DecideAsWritten(now, file, t, since).error == AttributeError
  {
  }

  /** Where the code as written does not raise, the corrected decision is the same. */
  lemma DecideAgreesUnlessCrash(now: int, file: Option<FileCache.CacheFile>, t: ItemType, since: Option<int>)
    ensures !DecideAsWritten(now, file, t, since).Crash? ==>
      DecideAsWritten(now, file, t, since) == Decide(now, file, t, since)
  {
  }

  /**
   * A stale refresh of a type fetched in full (ISSUES, LABELS, TEAMS) keeps
   * the cached list and appends the whole fetched one, so a record that is
   * both cached and fetched is there twice afterwards.
   */
  lemma FullRefreshDuplicates(now: int, mtime: int, cached: seq<Record>, fetched: seq<Record>, t: ItemType, since: Option<int>)
    requires t == ISSUES || t == LABELS || t == TEAMS
    requires cached != [] && Stale(now, mtime)
    ensures Decide(now, Some(FileCache.CacheFile(cached, mtime)), t, since) == Refetch(None, cached)
    ensures forall r :: r in cached && r in fetched ==> Count(cached + fetched, r) >= 2
    ensures |cached + fetched| == |cached| + |fetched|
  {
    forall r | r in cached && r in fetched ensures Count(cached + fetched, r) >= 2 {
      CountAppend(cached, fetched, r);
    }
  }

  class LegacyFileProvider {
    const directory: string
    const backend: Backend
    /** The cache directory: the file of each item type that has one. */
    var files: map<ItemType, FileCache.CacheFile>
    /** Every call made to the backend, in order. */
    ghost var calls: seq<(ItemType, Option<int>)>

    constructor(directory: string, backend: Backend, files: map<ItemType, FileCache.CacheFile>)
      ensures this.directory == directory && this.backend == backend && this.files == files && calls == []
    {
      this.directory := directory;
      this.backend := backend;
      this.files := files;
      calls := [];
    }

    /**
     * `get_data(item_type, since)` at time `clock`, with the corrections of
     * `Decide`. A refresh writes the extended list back.
     */
    method GetData(t: ItemType, since: Option<int>, clock: int) returns (r: Result<seq<Record>>)
      modifies this
      ensures match Decide(clock, FileCache.FileOf(old(files), t), t, since)
        case Serve(d) => r == Ok(d) && files == old(files) && calls == old(calls)
        case Refetch(s, prefix) =>
          calls == old(calls) + [(t, s)] &&
          (backend(t, s).Err? ==> r == backend(t, s) && files == old(files)) &&
          (backend(t, s).Ok? ==> r == Ok(prefix + backend(t, s).value) &&
                                 files == old(files)[t := FileCache.CacheFile(r.value, clock)])
        case Crash(_) => false
    {
      var data: seq<Record> := [];
      var refresh := false;
      var resume := since;
      if t in files {
        data := files[t].records;
        if Stale(clock, files[t].mtime) && |data| > 0 {
          refresh := true;
          resume := LastItemDate(t, data).value;
        }
      }
      if |data| == 0 {
        refresh := true;
        resume := None;
      }
      if refresh {
        var fetched := backend(t, resume);
        calls := calls + [(t, resume)];
        if fetched.Err? {
          r := fetched;
          return;
        }
        data := data + fetched.value;
        files := files[t := FileCache.CacheFile(data, clock)];
      }
      r := Ok(data);
    }
  }
}
