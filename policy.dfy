/**
 * `CachePolicy` of the newest generation: when a cached file must be
 * refetched. A policy is a maximum age in seconds together with the time it
 * was created; four special policies (REFRESH, NO_REFRESH, RESET, DISABLED)
 * are singletons the rest of the code compares by identity, created on
 * first use. Times are integer seconds.
 */
module Caching {
  import opened Common
  import opened Dates

  /**
   * `timedelta.max.total_seconds()`: 999999999 days and 86399.999999
   * seconds, which the float rounds to this integer.
   */
  const NeverMaxAge: int := 86_400_000_000_000

  class CachePolicy {
    /** `_now`: the clock when the policy was created. */
    const now: int
    /** `_max_age`, in seconds. */
    const maxAge: int

    constructor(maxAge: int, clock: int)
      ensures this.maxAge == maxAge && now == clock
    {
      this.maxAge := maxAge;
      now := clock;
    }

    /** `refresh(then)`: data cached at `then` is older than the maximum age. */
    predicate Refresh(cachedAt: int) {
      now - cachedAt > maxAge
    }

    /**
     * `refresh_file(pathname)` as written: it calls `os.path.getmtime()`
     * without the path, which raises before any file is looked at.
     * `mtimes` maps each existing path to its modification time.
     */
    function RefreshFileAsWritten(mtimes: map<string, int>, pathname: string): Result<bool> {
      Err(TypeError)
    }

    /** `refresh_file(pathname)` as evidently intended: `refresh` of the file's modification time. */
    function RefreshFile(mtimes: map<string, int>, pathname: string): (r: Result<bool>)
      ensures pathname in mtimes ==> r.Ok? && (r.value <==> now - mtimes[pathname] > maxAge)
      ensures pathname !in mtimes ==> r == Err(OSError)
    {
      if pathname in mtimes then Ok(Refresh(mtimes[pathname])) else Err(OSError)
    }

    predicate IsAlwaysRefresh() { maxAge == 0 }

    predicate IsNeverRefresh() { maxAge == NeverMaxAge }

    predicate IsReset() { maxAge == -1 }

    predicate IsDisabled() { maxAge == -2 }
  }

  /**
   * The class-level slots `_refresh_policy`, `_no_refresh_policy`,
   * `_reset_policy` and `_disabled_policy`, and the properties that fill
   * them on first use.
   */
  class Policies {
    var refreshPolicy: CachePolicy?
    var noRefreshPolicy: CachePolicy?
    var resetPolicy: CachePolicy?
    var disabledPolicy: CachePolicy?

    /** Each filled slot holds a policy of its own kind. */
    predicate Valid()
      reads this
    {
      (refreshPolicy != null ==> refreshPolicy.maxAge == 0) &&
      (noRefreshPolicy != null ==> noRefreshPolicy.maxAge == NeverMaxAge) &&
      (resetPolicy != null ==> resetPolicy.maxAge == -1) &&
      (disabledPolicy != null ==> disabledPolicy.maxAge == -2)
    }

    constructor()
      ensures Valid()
      ensures refreshPolicy == null && noRefreshPolicy == null && resetPolicy == null && disabledPolicy == null
    {
      refreshPolicy := null;
      noRefreshPolicy := null;
      resetPolicy := null;
      disabledPolicy := null;
    }

    /** `CachePolicy.REFRESH`. */
    method Refresh(clock: int) returns (p: CachePolicy)
      requires Valid()
      modifies this
      ensures Valid() && p == refreshPolicy && p.maxAge == 0
      ensures old(refreshPolicy) != null ==> p == old(refreshPolicy)
      ensures old(refreshPolicy) == null ==> fresh(p) && p.now == clock
      ensures noRefreshPolicy == old(noRefreshPolicy) && resetPolicy == old(resetPolicy)
      ensures disabledPolicy == old(disabledPolicy)
    {
      if refreshPolicy == null {
        refreshPolicy := new CachePolicy(0, clock);
      }
      p := refreshPolicy;
    }

    /** `CachePolicy.NO_REFRESH`. */
    method NoRefresh(clock: int) returns (p: CachePolicy)
      requires Valid()
      modifies this
      ensures Valid() && p == noRefreshPolicy && p.maxAge == NeverMaxAge
      ensures old(noRefreshPolicy) != null ==> p == old(noRefreshPolicy)
      ensures old(noRefreshPolicy) == null ==> fresh(p) && p.now == clock
      ensures refreshPolicy == old(refreshPolicy) && resetPolicy == old(resetPolicy)
      ensures disabledPolicy == old(disabledPolicy)
    {
      if noRefreshPolicy == null {
        noRefreshPolicy := new CachePolicy(NeverMaxAge, clock);
      }
      p := noRefreshPolicy;
    }

    /** `CachePolicy.RESET`. */
    method Reset(clock: int) returns (p: CachePolicy)
      requires Valid()
      modifies this
      ensures Valid() && p == resetPolicy && p.maxAge == -1
      ensures old(resetPolicy) != null ==> p == old(resetPolicy)
      ensures old(resetPolicy) == null ==> fresh(p) && p.now == clock
      ensures refreshPolicy == old(refreshPolicy) && noRefreshPolicy == old(noRefreshPolicy)
      ensures disabledPolicy == old(disabledPolicy)
    {
      if resetPolicy == null {
        resetPolicy := new CachePolicy(-1, clock);
      }
      p := resetPolicy;
    }

    /** `CachePolicy.DISABLED`. */
    method Disabled(clock: int) returns (p: CachePolicy)
      requires Valid()
      modifies this
      ensures Valid() && p == disabledPolicy && p.maxAge == -2
      ensures old(disabledPolicy) != null ==> p == old(disabledPolicy)
      ensures old(disabledPolicy) == null ==> fresh(p) && p.now == clock
      ensures refreshPolicy == old(refreshPolicy) && noRefreshPolicy == old(noRefreshPolicy)
      ensures resetPolicy == old(resetPolicy)
    {
      if disabledPolicy == null {
        disabledPolicy := new CachePolicy(-2, clock);
      }
      p := disabledPolicy;
    }

    /**
     * `CachePolicy.from_string(value)`: a keyword yields its singleton, a
     * duration a new policy, anything else None (`Ok(null)`); a duration of
     * more than 999999999 days raises.
     */
    method FromString(value: string, clock: int) returns (r: Result<CachePolicy?>)
      requires Valid()
      modifies this
      ensures Valid()
      ensures match ParsePolicy(value)
        case Special(DisabledKw) => r == Ok(disabledPolicy) && disabledPolicy != null
        case Special(RefreshKw) => r == Ok(refreshPolicy) && refreshPolicy != null
        case Special(NoRefreshKw) => r == Ok(noRefreshPolicy) && noRefreshPolicy != null
        case Special(ResetKw) => r == Ok(resetPolicy) && resetPolicy != null
        case MaxAge(seconds) =>
          r.Ok? && r.value != null && fresh(r.value) && r.value.maxAge == seconds && r.value.now == clock
        case TooLong => r == Err(OverflowError)
        case Unrecognised => r == Ok(null)
      ensures ParsePolicy(value).Special? ==> match ParsePolicy(value).kw
        case DisabledKw => unchanged(this`refreshPolicy, this`noRefreshPolicy, this`resetPolicy)
        case RefreshKw => unchanged(this`noRefreshPolicy, this`resetPolicy, this`disabledPolicy)
        case NoRefreshKw => unchanged(this`refreshPolicy, this`resetPolicy, this`disabledPolicy)
        case ResetKw => unchanged(this`refreshPolicy, this`noRefreshPolicy, this`disabledPolicy)
      ensures ParsePolicy(value).Special? && ParsePolicy(value).kw == DisabledKw && old(disabledPolicy) != null ==>
        disabledPolicy == old(disabledPolicy)
      ensures ParsePolicy(value).Special? && ParsePolicy(value).kw == RefreshKw && old(refreshPolicy) != null ==>
        refreshPolicy == old(refreshPolicy)
      ensures ParsePolicy(value).Special? && ParsePolicy(value).kw == NoRefreshKw && old(noRefreshPolicy) != null ==>
        noRefreshPolicy == old(noRefreshPolicy)
      ensures ParsePolicy(value).Special? && ParsePolicy(value).kw == ResetKw && old(resetPolicy) != null ==>
        resetPolicy == old(resetPolicy)
      ensures !ParsePolicy(value).Special? ==> unchanged(this)
    {
      match ParsePolicy(value)
      case Special(DisabledKw) =>
        var p := Disabled(clock);
        r := Ok(p);
      case Special(RefreshKw) =>
        var p := Refresh(clock);
        r := Ok(p);
      case Special(NoRefreshKw) =>
        var p := NoRefresh(clock);
        r := Ok(p);
      case Special(ResetKw) =>
        var p := Reset(clock);
        r := Ok(p);
      case MaxAge(seconds) =>
        var p := new CachePolicy(seconds, clock);
        r := Ok(p);
      case TooLong =>
        r := Err(OverflowError);
      case Unrecognised =>
        r := Ok(null);
    }
  }

  // ---------------------------------------------------------------------
  // The string form of a policy
  // ---------------------------------------------------------------------

  datatype Keyword = DisabledKw | RefreshKw | NoRefreshKw | ResetKw

  /** What `from_string` makes of its argument. */
  datatype Parsed =
    | Special(kw: Keyword)     // one of the singletons
    | MaxAge(seconds: int)     // `cls(seconds)`
    | TooLong                  // `timedelta(days=...)` out of range
    | Unrecognised             // None

  predicate IsUnit(c: char) {
    c == 's' || c == 'd' || c == 'w' || c == 'm' || c == 'y'
  }

  /** `_durations`: days per unit, a month being 30 days and a year 365. */
  function UnitDays(f: char): (days: int)
    requires f == 'd' || f == 'w' || f == 'm' || f == 'y'
    ensures days >= 1
  {
    match f
    case 'd' => 1
    case 'w' => 7
    case 'm' => 30
    case 'y' => 365
  }

  /**
   * `from_string`: the lower-cased value is first compared with the
   * keywords, then matched against `^([0-9]+)([sdwmy])?` with nothing
   * required after the match.
   */
  function ParsePolicy(value: string): Parsed {
    var v := Lower(value);
    match KeywordOf(v)
    case Some(kw) => Special(kw)
    case None => ParseDuration(v)
  }

  /** The keyword checks of `from_string`, on the whole lower-cased value. */
  function KeywordOf(v: string): Option<Keyword> {
    if v == "disabled" || v == "no-cache" then Some(DisabledKw)
    else if v == "refresh" || v == "always" then Some(RefreshKw)
    else if v == "no-refresh" || v == "never" then Some(NoRefreshKw)
    else if v == "reset" || v == "clear" then Some(ResetKw)
    else None
  }

  /** The duration match: digits, then an optional unit (days when absent); the rest is ignored. */
  function ParseDuration(v: string): Parsed {
    var k := LeadingDigits(v);
    if k == 0 then Unrecognised
    else
      var n := DecimalValue(v[..k]);
      var f := if k < |v| && IsUnit(v[k]) then v[k] else 'd';
      if f == 's' then MaxAge(n)
      else if n * UnitDays(f) > MaxDays then TooLong
      else MaxAge(n * UnitDays(f) * Day)
  }

  /** Every keyword starts with a letter, so a value starting with a digit is never one. */
  lemma DigitIsNoKeyword(v: string)
    requires v != [] && IsDigit(v[0])
    ensures KeywordOf(v) == None
  {
    assert v != "disabled" && v != "no-cache" by { assert "disabled"[0] == 'd' && "no-cache"[0] == 'n'; }
    assert v != "refresh" && v != "always" by { assert "refresh"[0] == 'r' && "always"[0] == 'a'; }
    assert v != "no-refresh" && v != "never" by { assert "no-refresh"[0] == 'n' && "never"[0] == 'n'; }
    assert v != "reset" && v != "clear" by { assert "reset"[0] == 'r' && "clear"[0] == 'c'; }
  }

  // ---------------------------------------------------------------------
  // Properties
  // ---------------------------------------------------------------------

  /** A policy with a larger maximum age refreshes less: whatever it refreshes, a smaller one refreshes too. */
  lemma RefreshAntitone(p: CachePolicy, q: CachePolicy, cachedAt: int)
    requires p.now == q.now && p.maxAge <= q.maxAge
    ensures q.Refresh(cachedAt) ==> p.Refresh(cachedAt)
  {
  }

  /**
   * REFRESH refreshes anything cached strictly before its creation, but not
   * at that very second; RESET and DISABLED refresh anything cached up to
   * then (and a little after); NO_REFRESH refreshes nothing cached in the
   * last 999999999 days.
   */
  lemma SpecialPoliciesRefresh(p: CachePolicy, cachedAt: int)
    ensures p.IsAlwaysRefresh() ==> (p.Refresh(cachedAt) <==> cachedAt < p.now)
    ensures p.IsReset() ==> (p.Refresh(cachedAt) <==> cachedAt <= p.now)
    ensures p.IsDisabled() ==> (p.Refresh(cachedAt) <==> cachedAt <= p.now + 1)
    ensures p.IsNeverRefresh() && cachedAt >= p.now - MaxDays * Day ==> !p.Refresh(cachedAt)
  {
  }

  /** Whatever the files on disk, `refresh_file` as written never answers. */
  lemma RefreshFileAlwaysRaises(p: CachePolicy, mtimes: map<string, int>, pathname: string)
    ensures p.RefreshFileAsWritten(mtimes, pathname) == Err(TypeError)
    ensures pathname in mtimes ==> p.RefreshFileAsWritten(mtimes, pathname) != p.RefreshFile(mtimes, pathname)
  {
  }

  /** The corrected `refresh_file` agrees with `refresh` on the file's modification time, so it inherits its antitonicity. */
  lemma RefreshFileFollowsRefresh(p: CachePolicy, q: CachePolicy, mtimes: map<string, int>, pathname: string)
    requires pathname in mtimes
    requires p.now == q.now && p.maxAge <= q.maxAge
    ensures p.RefreshFile(mtimes, pathname) == Ok(p.Refresh(mtimes[pathname]))
    ensures q.RefreshFile(mtimes, pathname) == Ok(true) ==> p.RefreshFile(mtimes, pathname) == Ok(true)
  {
    RefreshAntitone(p, q, mtimes[pathname]);
  }

  lemma KindsAreExclusive(p: CachePolicy)
    ensures p.IsAlwaysRefresh() ==> !p.IsNeverRefresh() && !p.IsReset() && !p.IsDisabled()
    ensures p.IsNeverRefresh() ==> !p.IsReset() && !p.IsDisabled()
    ensures p.IsReset() ==> !p.IsDisabled()
  {
  }

  /** `from_string` lower-cases its argument first. */
  lemma ParsePolicyIgnoresCase(value: string)
    ensures ParsePolicy(Lower(value)) == ParsePolicy(value)
  {
    LowerIdempotent(value);
  }

  lemma ParsePolicyKeywords(value: string)
    ensures Lower(value) == "disabled" || Lower(value) == "no-cache" ==> ParsePolicy(value) == Special(DisabledKw)
    ensures Lower(value) == "refresh" || Lower(value) == "always" ==> ParsePolicy(value) == Special(RefreshKw)
    ensures Lower(value) == "no-refresh" || Lower(value) == "never" ==> ParsePolicy(value) == Special(NoRefreshKw)
    ensures Lower(value) == "reset" || Lower(value) == "clear" ==> ParsePolicy(value) == Special(ResetKw)
    ensures Lower(value) == [] || !IsDigit(Lower(value)[0]) ==> ParsePolicy(value).Special? || ParsePolicy(value) == Unrecognised
  {
  }

  lemma LowerDigitsThenUnit(ds: string, u: char, rest: string)
    requires AllDigits(ds)
    requires 'a' <= u <= 'z'
    ensures Lower(ds + [u] + rest) == ds + [u] + Lower(rest)
  {
    var w := ds + [u] + rest;
    assert forall i :: 0 <= i < |ds| ==> w[i] == ds[i];
    assert forall i :: 0 <= i < |rest| ==> w[|ds| + 1 + i] == rest[i];
  }

  /**
   * A number followed by a unit letter converts to seconds (`s`) or to that
   * many days, weeks, months of 30 days or years of 365 days in seconds,
   * whatever text follows the unit.
   */
  lemma ParsePolicyNumeric(ds: string, u: char, rest: string)
    requires ds != [] && AllDigits(ds) && IsUnit(u)
    ensures var n := DecimalValue(ds);
      ParsePolicy(ds + [u] + rest) ==
        if u == 's' then MaxAge(n)
        else if n * UnitDays(u) > MaxDays then TooLong
        else MaxAge(n * UnitDays(u) * Day)
  {
    LowerDigitsThenUnit(ds, u, rest);
    var v := ds + [u] + Lower(rest);
    assert v == ds + ([u] + Lower(rest));
    DigitIsNoKeyword(v);
    ParseDurationNumeric(ds, u, Lower(rest));
  }

  lemma ParseDurationNumeric(ds: string, u: char, tail: string)
    requires ds != [] && AllDigits(ds) && IsUnit(u)
    ensures var n := DecimalValue(ds);
      ParseDuration(ds + [u] + tail) ==
        if u == 's' then MaxAge(n)
        else if n * UnitDays(u) > MaxDays then TooLong
        else MaxAge(n * UnitDays(u) * Day)
  {
    var v := ds + [u] + tail;
    assert v == ds + ([u] + tail);
    LeadingDigitsOfDigitsThen(ds, [u] + tail);
    assert v[..|ds|] == ds;
    assert v[|ds|] == u;
  }

  /** A bare number counts days. */
  lemma ParsePolicyBareNumber(ds: string)
    requires ds != [] && AllDigits(ds)
    ensures var n := DecimalValue(ds);
      ParsePolicy(ds) == if n > MaxDays then TooLong else MaxAge(n * Day)
  {
    LowerKeepsDigits(ds);
    LeadingDigitsOfDigitsThen(ds, []);
    assert ds + [] == ds;
    assert ds[..|ds|] == ds;
    DigitIsNoKeyword(ds);
  }

  /** Writing a number of seconds as `<n>s` and reading it back gives a policy of that age. */
  lemma SecondsRoundTrip(n: nat)
    ensures ParsePolicy(Decimal(n) + "s") == MaxAge(n)
  {
    ParsePolicyNumeric(Decimal(n), 's', "");
    assert Decimal(n) + ['s'] + "" == Decimal(n) + "s";
    DecimalRoundTrip(n);
  }

  /**
   * A parsed duration is never negative, so never RESET or DISABLED; only a
   * count of seconds can reach NO_REFRESH's maximum age, since the day-based
   * units stop at 999999999 days.
   */
  lemma ParsedAgesAreOrdinary(value: string)
    requires ParsePolicy(value).MaxAge?
    ensures ParsePolicy(value).seconds >= 0
    ensures var v := Lower(value); var k := LeadingDigits(v);
      ParsePolicy(value).seconds == NeverMaxAge ==> k < |v| && v[k] == 's'
  {
  }
}
