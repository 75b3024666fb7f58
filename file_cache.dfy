/**
 * `FileRepositoryProvider` of the newest generation: a disk cache in front
 * of another provider. The cache directory is a map from item type to the
 * cached records and the file's modification time; the backend is a
 * function from an item type and an optional `since` to the records it
 * returns (or the error it raises), and a ghost log records every call to
 * it.
 */
module FileCache {
  import opened Common
  import opened Items
  import opened Purging
  import opened Caching

  /** One `<type>.json` file: its records and its modification time. */
  datatype CacheFile = CacheFile(records: seq<Record>, mtime: int)

  function FileOf(files: map<ItemType, CacheFile>, t: ItemType): Option<CacheFile> {
    if t in files then Some(files[t]) else None
  }

  // ---------------------------------------------------------------------
  // File names
  // ---------------------------------------------------------------------

  /** `item_type.name`. */
  function TypeName(t: ItemType): string {
    match t
    case ISSUES => "ISSUES"
    case COMMENTS => "COMMENTS"
    case TEAMS => "TEAMS"
    case LABELS => "LABELS"
    case EVENTS => "EVENTS"
    case COMMITS => "COMMITS"
    case RELEASES => "RELEASES"
    case COMMITTERS => "COMMITTERS"
  }

  /** `os.path.join(directory, name)` for a relative `name`. */
  function PathJoin(directory: string, name: string): (path: string)
    ensures EndsWith(path, name)
  {
    var prefix := if directory == [] || EndsWith(directory, "/") then directory else directory + "/";
    assert (prefix + name)[|prefix + name| - |name|..] == name;
    prefix + name
  }

  /** `_get_data_file(item_type)`: the lower-cased type name plus `.json`, in the cache directory. */
  function DataFile(directory: string, t: ItemType): (path: string)
    ensures EndsWith(path, ".json")
  {
    var path := PathJoin(directory, Lower(TypeName(t)) + ".json");
    assert path[|path| - 5..] == (Lower(TypeName(t)) + ".json")[|Lower(TypeName(t))|..];
    path
  }

  lemma PathJoinInjective(directory: string, a: string, b: string)
    ensures PathJoin(directory, a) == PathJoin(directory, b) ==> a == b
  {
    var prefix := if directory == [] || EndsWith(directory, "/") then directory else directory + "/";
    assert (prefix + a)[|prefix|..] == a;
    assert (prefix + b)[|prefix|..] == b;
  }

  /** Every item type has a file of its own, so the directory can be keyed by item type. */
  lemma DataFilesDistinct(directory: string, a: ItemType, b: ItemType)
    requires a != b
    ensures DataFile(directory, a) != DataFile(directory, b)
  {
    var na := Lower(TypeName(a)) + ".json";
    var nb := Lower(TypeName(b)) + ".json";
    assert na[0] == LowerChar(TypeName(a)[0]) && nb[0] == LowerChar(TypeName(b)[0]);
    assert |na| == |TypeName(a)| + 5 && |nb| == |TypeName(b)| + 5;
    assert na != nb;
    PathJoinInjective(directory, na, nb);
  }

  // ---------------------------------------------------------------------
  // The decision procedure of `get_data`
  // ---------------------------------------------------------------------

  /** What `get_data` does for one call. */
  datatype Plan =
    | Delegate(since: Option<int>)                // DISABLED: straight to the backend, no file touched
    | Serve(data: seq<Record>)                    // the cached records, no backend call
    | Fetch(since: Option<int>, keep: seq<Record>) // backend call, append `keep`, purge, write the file
    | Crash(error: Error)                         // an exception before the backend is called

  /**
   * The decision as the code is written: a stale file first asks
   * `_get_last_item_date` for the resume point, and only then is the file
   * checked for being empty.
   */
  function DecideAsWritten(disabled: bool, reset: bool, p: CachePolicy, file: Option<CacheFile>,
                           t: ItemType, since: Option<int>): Plan
  {
    if disabled then Delegate(since)
    else
      var data := if !reset && file.Some? then file.value.records else [];
      var refresh := !reset && file.Some? && p.Refresh(file.value.mtime);
      var resume := if refresh then LastItemDate(t, data) else Ok(since);
      match resume
      case Err(e) => Crash(e)
      case Ok(s) =>
        if |data| == 0 then Fetch(None, [])
        else if refresh then Fetch(s, if s.Some? then data else [])
        else Serve(data)
  }

  /**
   * The decision with the emptiness check first: an empty or missing file,
   * or RESET, means a full fetch; a non-empty stale file resumes from its
   * last record; a non-empty fresh file is served as it is.
   */
  function Decide(disabled: bool, reset: bool, p: CachePolicy, file: Option<CacheFile>,
                  t: ItemType, since: Option<int>): (plan: Plan)
    ensures !plan.Crash?
    ensures plan.Fetch? && plan.since.Some? ==> plan.keep != [] && file.Some? && plan.keep == file.value.records
  {
    if disabled then Delegate(since)
    else if reset || file.None? || file.value.records == [] then Fetch(None, [])
    else if p.Refresh(file.value.mtime) then
      var s := LastItemDate(t, file.value.records).value;
      Fetch(s, if s.Some? then file.value.records else [])
    else Serve(file.value.records)
  }

  /** The five outcomes of `get_data`, one per situation of the cache. */
  lemma DecideCases(disabled: bool, reset: bool, p: CachePolicy, file: Option<CacheFile>,
                    t: ItemType, since: Option<int>)
    ensures disabled ==> Decide(disabled, reset, p, file, t, since) == Delegate(since)
    ensures !disabled && (reset || file.None? || file.value.records == []) ==>
      Decide(disabled, reset, p, file, t, since) == Fetch(None, [])
    ensures !disabled && !reset && file.Some? && file.value.records != [] && !p.Refresh(file.value.mtime) ==>
      Decide(disabled, reset, p, file, t, since) == Serve(file.value.records)
    ensures !disabled && !reset && file.Some? && file.value.records != [] && p.Refresh(file.value.mtime) ==>
      var plan := Decide(disabled, reset, p, file, t, since);
      plan.Fetch? && Ok(plan.since) == LastItemDate(t, file.value.records) &&
      plan.keep == (if plan.since.Some? then file.value.records else [])
  {
  }

  /**
   * The caller's `since` only matters when the cache is disabled: otherwise
   * the backend is asked either for everything or for what follows the
   * cached records, and only the types that resume from their last record
   * are ever asked for part of the data.
   */
  lemma DecideIgnoresCallerSince(disabled: bool, reset: bool, p: CachePolicy, file: Option<CacheFile>,
                                 t: ItemType, since: Option<int>)
    ensures !disabled ==> Decide(disabled, reset, p, file, t, since) == Decide(disabled, reset, p, file, t, None)
    ensures Decide(disabled, reset, p, file, t, since).Fetch? && Decide(disabled, reset, p, file, t, since).since.Some? ==>
      ResumesFromLast(t) && file.Some? && p.Refresh(file.value.mtime)
  {
  }

  /**
   * Resuming from a cache that `get_data` wrote itself asks for everything
   * since its OLDEST record, because the purged list is sorted newest first.
   */
  lemma ResumeFromOldest(p: CachePolicy, t: ItemType, fetched: seq<Record>, mtime: int, since: Option<int>)
    requires ResumesFromLast(t) && fetched != [] && p.Refresh(mtime)
    ensures var data := Purge(t, fetched);
      var plan := Decide(false, false, p, Some(CacheFile(data, mtime)), t, since);
      plan.Fetch? && plan.since.Some? && plan.keep == data &&
      forall r :: r in data ==> plan.since.value <= TimeOf(t, r)
  {
    var data := Purge(t, fetched);
    PurgeSpec(t, fetched);
    LastItemDateIsOldest(t, fetched);
    LastItemDateCases(t, data);
  }

  /** An empty stale file of a type that resumes from its last record makes the code as written raise IndexError. */
  lemma DecideAsWrittenCrashes(disabled: bool, reset: bool, p: CachePolicy, file: Option<CacheFile>,
                               t: ItemType, since: Option<int>)
    ensures DecideAsWritten(disabled, reset, p, file, t, since).Crash? <==>
      !disabled && !reset && file.Some? && file.value.records == [] && p.Refresh(file.value.mtime) && ResumesFromLast(t)
    ensures DecideAsWritten(disabled, reset, p, file, t, since).Crash? ==>
      DecideAsWritten(disabled, reset, p, file, t, since).error == IndexError
  {
  }

  /**
   * A concrete case: a repository without releases leaves `[]` in
   * `releases.json`; once that file is older than the maximum age, the
   * next call raises instead of fetching again.
   */
  lemma EmptyStaleReleasesCrash(p: CachePolicy)
    requires p.now == 100 && p.maxAge == 10
    ensures DecideAsWritten(false, false, p, Some(CacheFile([], 50)), RELEASES, None) == Crash(IndexError)
    ensures Decide(false, false, p, Some(CacheFile([], 50)), RELEASES, None) == Fetch(None, [])
  {
  }

  /** The corrected decision differs from the code as written only where the latter raises. */
  lemma DecideAgreesUnlessCrash(disabled: bool, reset: bool, p: CachePolicy, file: Option<CacheFile>,
                                t: ItemType, since: Option<int>)
    ensures !DecideAsWritten(disabled, reset, p, file, t, since).Crash? ==>
      DecideAsWritten(disabled, reset, p, file, t, since) == Decide(disabled, reset, p, file, t, since)
    ensures DecideAsWritten(disabled, reset, p, file, t, since).Crash? ==>
      Decide(disabled, reset, p, file, t, since) == Fetch(None, [])
  {
  }

  /** What a cached list looks like once `get_data` has written it. */
  predicate Purged(t: ItemType, s: seq<Record>) {
    DistinctKeys(KeyFn(t), s) && (IsDated(t) ==> SortedDesc(TimeFn(t), s))
  }

  lemma PurgeIsPurged(t: ItemType, s: seq<Record>)
    ensures Purged(t, Purge(t, s))
  {
    PurgeSpec(t, s);
  }

  /**
   * A refresh keeps every record that was cached and adds every one that
   * was fetched; for a key present in both, the cached copy survives.
   */
  lemma RefreshMerges(t: ItemType, fetched: seq<Record>, cached: seq<Record>)
    ensures Purged(t, Purge(t, fetched + cached))
    ensures KeySet(KeyFn(t), Purge(t, fetched + cached)) == KeySet(KeyFn(t), fetched) + KeySet(KeyFn(t), cached)
    ensures forall r :: r in Purge(t, fetched + cached) && KeyOf(t, r) in KeySet(KeyFn(t), cached) ==>
      LastWith(KeyFn(t), cached, KeyOf(t, r)) == Some(r)
  {
    PurgeSpec(t, fetched + cached);
    MergeKeepsCachedCopy(t, fetched, cached);
  }

  // ---------------------------------------------------------------------
  // The provider
  // ---------------------------------------------------------------------

  class FileProvider {
    const directory: string
    const backend: Backend
    const policy: CachePolicy
    /** The class-level singleton slots `policy` is compared with. */
    const registry: Policies
    /** The cache directory: the file of each item type that has one. */
    var files: map<ItemType, CacheFile>
    /** Every call made to the backend, in order. */
    ghost var calls: seq<(ItemType, Option<int>)>

    constructor(directory: string, backend: Backend, policy: CachePolicy, registry: Policies,
                files: map<ItemType, CacheFile>)
      ensures this.directory == directory && this.backend == backend && this.policy == policy
      ensures this.registry == registry && this.files == files && calls == []
    {
      this.directory := directory;
      this.backend := backend;
      this.policy := policy;
      this.registry := registry;
      this.files := files;
      calls := [];
    }

    /**
     * `get_data(item_type, since)`, with the emptiness check ahead of the
     * resume point (see `DecideAsWritten` for the order in the code).
     * Comparing the policy with DISABLED and RESET creates those singletons
     * if they do not exist yet; `clock` is the time the file is written.
     */
    method GetData(t: ItemType, since: Option<int>, clock: int) returns (r: Result<seq<Record>>)
      requires registry.Valid()
      modifies this, registry
      ensures registry.Valid()
      ensures var plan := Decide(policy == old(registry.disabledPolicy), policy == old(registry.resetPolicy),
                                 policy, FileOf(old(files), t), t, since);
        match plan
        case Delegate(s) => r == backend(t, s) && files == old(files) && calls == old(calls) + [(t, s)]
        case Serve(d) => r == Ok(d) && files == old(files) && calls == old(calls)
        case Fetch(s, keep) =>
          calls == old(calls) + [(t, s)] &&
          (backend(t, s).Err? ==> r == backend(t, s) && files == old(files)) &&
          (backend(t, s).Ok? ==> r == Ok(Purge(t, backend(t, s).value + keep)) &&
                                 files == old(files)[t := CacheFile(r.value, clock)] &&
                                 Purged(t, r.value))
        case Crash(_) => false
    {
      var disabledPolicy := registry.Disabled(clock);
      if policy == disabledPolicy {
        r := backend(t, since);
        calls := calls + [(t, since)];
        return;
      }
      var resetPolicy := registry.Reset(clock);
      r := ReadThrough(t, since, policy == resetPolicy, clock);
    }

    /** `get_data` past the DISABLED test: read the file, decide, and refetch if needed. */
    method ReadThrough(t: ItemType, since: Option<int>, reset: bool, clock: int) returns (r: Result<seq<Record>>)
      modifies this
      ensures var plan := Decide(false, reset, policy, FileOf(old(files), t), t, since);
        match plan
        case Serve(d) => r == Ok(d) && files == old(files) && calls == old(calls)
        case Fetch(s, keep) =>
          calls == old(calls) + [(t, s)] &&
          (backend(t, s).Err? ==> r == backend(t, s) && files == old(files)) &&
          (backend(t, s).Ok? ==> r == Ok(Purge(t, backend(t, s).value + keep)) &&
                                 files == old(files)[t := CacheFile(r.value, clock)] &&
                                 Purged(t, r.value))
        case _ => false
    {
      var data: seq<Record> := [];
      var refresh := false;
      var resume := since;
      ghost var plan := Decide(false, reset, policy, FileOf(files, t), t, since);
      if !reset && t in files {
        data := files[t].records;
        if policy.Refresh(files[t].mtime) && |data| > 0 {
          refresh := true;
          resume := LastItemDate(t, data).value;
        }
      }
      if |data| == 0 {
        refresh := true;
        resume := None;
      }
      assert refresh ==> plan == Fetch(resume, if resume.Some? then data else []);
      assert !refresh ==> plan == Serve(data);
      if refresh {
        var fetched := backend(t, resume);
        calls := calls + [(t, resume)];
        if fetched.Err? {
          r := fetched;
          return;
        }
        var newData := fetched.value;
        if resume.Some? {
          newData := newData + data;
        } else {
          assert newData + [] == newData;
        }
        data := Purge(t, newData);
        PurgeIsPurged(t, newData);
        files := files[t := CacheFile(data, clock)];
      }
      r := Ok(data);
    }
  }
}
