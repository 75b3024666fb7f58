/**
 * Shared vocabulary of the model: optional values, the exceptions the Python
 * code can raise (as values), and the small string and sequence operations
 * the source performs with Python built-ins (`str.lower`, `in`, `split`,
 * `join`, `startswith`, list comprehensions, `set(...)`).
 */
module Common {

  datatype Option<+T> = None | Some(value: T)

  /** The exceptions that escape from the modelled code. */
  datatype Error =
    | HttpClientError   // HTTP4xxClientError from the forge API
    | HttpServerError   // any other failure of an API call
    | IndexError        // `xs[-1]` or `s[0]` on an empty sequence
    | KeyError          // a dictionary lookup of a missing key
    | AttributeError    // `.login` on a missing actor or author, a missing field
    | ValueError        // unpacking `split` into the wrong number of parts
    | OverflowError     // a `timedelta` or `datetime` out of range
    | TypeError         // a call with a missing argument
    | OSError           // a file operation on a missing file
    | BadParameter      // a command-line value its parameter type refuses (`self.fail`)

  datatype Result<+T> = Ok(value: T) | Err(error: Error) {
    /** Support for `:-`: an exception propagates to the caller unchanged. */
    predicate IsFailure() { Err? }

    function PropagateFailure<U>(): Result<U>
      requires Err?
    {
      Err(error)
    }

    function Extract(): T
      requires Ok?
    {
      value
    }

    /** The value passed through `f`; an exception is kept as it is. */
    function Map<U>(f: T -> U): Result<U> {
      if Ok? then Ok(f(value)) else Err(error)
    }
  }

  // ---------------------------------------------------------------------
  // Characters and decimal numbers
  // ---------------------------------------------------------------------

  predicate IsDigit(c: char) { '0' <= c <= '9' }

  predicate AllDigits(s: string) { forall i :: 0 <= i < |s| ==> IsDigit(s[i]) }

  /** ASCII lower-casing of one character. */
  function LowerChar(c: char): (r: char)
    ensures 'A' <= c <= 'Z' ==> 'a' <= r <= 'z'
    ensures !('A' <= c <= 'Z') ==> r == c
  {
    if 'A' <= c <= 'Z' then (c as int + 32) as char else c
  }

  /** `str.lower()` restricted to ASCII letters. */
  function Lower(s: string): (r: string)
    ensures |r| == |s|
    ensures forall i :: 0 <= i < |s| ==> r[i] == LowerChar(s[i])
  {
    if s == [] then [] else [LowerChar(s[0])] + Lower(s[1..])
  }

  lemma LowerIdempotent(s: string)
    ensures Lower(Lower(s)) == Lower(s)
  {
    assert forall i :: 0 <= i < |s| ==> LowerChar(LowerChar(s[i])) == LowerChar(s[i]);
  }

  lemma LowerKeepsDigits(s: string)
    requires AllDigits(s)
    ensures Lower(s) == s
  {
  }

  function DigitValue(c: char): (d: nat)
    requires IsDigit(c)
    ensures d < 10
  {
    c as int - '0' as int
  }

  function DigitChar(d: nat): (c: char)
    requires d < 10
    ensures IsDigit(c) && DigitValue(c) == d
  {
    ('0' as int + d) as char
  }

  /** `int(ds)` for a string of decimal digits. */
  function DecimalValue(ds: string): nat
    requires AllDigits(ds)
  {
    if ds == [] then 0 else DecimalValue(ds[..|ds| - 1]) * 10 + DigitValue(ds[|ds| - 1])
  }

  /** The canonical decimal rendering of a natural number (`str(n)`). */
  function Decimal(n: nat): (s: string)
    ensures |s| > 0 && AllDigits(s)
  {
    if n < 10 then [DigitChar(n)] else Decimal(n / 10) + [DigitChar(n % 10)]
  }

  lemma {:induction false} DecimalRoundTrip(n: nat)
    ensures DecimalValue(Decimal(n)) == n
  {
    if n >= 10 {
      var s := Decimal(n);
      assert s[..|s| - 1] == Decimal(n / 10);
      DecimalRoundTrip(n / 10);
    }
  }

  /** Length of the longest prefix of `s` made of digits (what a greedy `[0-9]+` consumes). */
  function LeadingDigits(s: string): (k: nat)
    ensures k <= |s|
    ensures AllDigits(s[..k])
    ensures k < |s| ==> !IsDigit(s[k])
  {
    if s == [] || !IsDigit(s[0]) then 0
    else
      var k := 1 + LeadingDigits(s[1..]);
      assert s[..k] == [s[0]] + s[1..][..k - 1];
      k
  }

  lemma {:induction false} LeadingDigitsOfDigitsThen(ds: string, rest: string)
    requires AllDigits(ds)
    requires rest == [] || !IsDigit(rest[0])
    ensures LeadingDigits(ds + rest) == |ds|
  {
    if ds != [] {
      assert (ds + rest)[1..] == ds[1..] + rest;
      LeadingDigitsOfDigitsThen(ds[1..], rest);
    }
  }

  // ---------------------------------------------------------------------
  // Strings
  // ---------------------------------------------------------------------

  predicate StartsWith(s: string, prefix: string) {
    |prefix| <= |s| && s[..|prefix|] == prefix
  }

  predicate EndsWith(s: string, suffix: string) {
    |suffix| <= |s| && s[|s| - |suffix|..] == suffix
  }

  /** `sep.join(parts)`. */
  function Join(sep: string, parts: seq<string>): string {
    if parts == [] then ""
    else if |parts| == 1 then parts[0]
    else parts[0] + sep + Join(sep, parts[1..])
  }

  /** `sub` occurs in `s` starting at index `j`. */
  predicate OccursAt(s: string, sub: string, j: nat) {
    j + |sub| <= |s| && s[j..j + |sub|] == sub
  }

  /** Index of the first occurrence of a non-empty `sub` in `s` at or after `from`, if any. */
  function FindFrom(s: string, sub: string, from: nat): (r: Option<nat>)
    requires |sub| > 0
    ensures r.Some? ==> from <= r.value && OccursAt(s, sub, r.value)
    ensures r.Some? ==> forall j :: from <= j < r.value ==> !OccursAt(s, sub, j)
    ensures r.None? ==> forall j :: from <= j ==> !OccursAt(s, sub, j)
    decreases |s| - from
  {
    if from + |sub| > |s| then None
    else if s[from..from + |sub|] == sub then Some(from)
    else FindFrom(s, sub, from + 1)
  }

  /** Python's `sub in s` for a non-empty `sub`. */
  predicate Contains(s: string, sub: string)
    requires |sub| > 0
  {
    FindFrom(s, sub, 0).Some?
  }

  /** Python's `s.split(sep)` for a non-empty separator: the pieces between non-overlapping occurrences. */
  function SplitOn(s: string, sep: string): (parts: seq<string>)
    requires |sep| > 0
    ensures |parts| >= 1
    ensures forall i :: 0 <= i < |parts| ==> |parts[i]| <= |s|
    ensures (|parts| == 1) <==> !Contains(s, sep)
    ensures |parts| == 1 ==> parts[0] == s
    decreases |s|
  {
    match FindFrom(s, sep, 0)
    case None => [s]
    case Some(i) =>
      var rest := SplitOn(s[i + |sep|..], sep);
      [s[..i]] + rest
  }

  /** Splitting and joining back with the same separator gives the original text. */
  lemma {:induction false} SplitJoin(s: string, sep: string)
    requires |sep| > 0
    ensures Join(sep, SplitOn(s, sep)) == s
    decreases |s|
  {
    match FindFrom(s, sep, 0)
    case None =>
    case Some(i) =>
      var tail := s[i + |sep|..];
      var rest := SplitOn(tail, sep);
      var parts := [s[..i]] + rest;
      assert SplitOn(s, sep) == parts;
      SplitJoin(tail, sep);
      assert |parts| >= 2 && parts[0] == s[..i] && parts[1..] == rest;
      assert Join(sep, parts) == s[..i] + sep + Join(sep, rest);
      OccurrenceSplits(s, sep, i);
  }

  lemma OccurrenceSplits(s: string, sub: string, i: nat)
    requires OccursAt(s, sub, i)
    ensures s[..i] + sub + s[i + |sub|..] == s
  {
    var j := i + |sub|;
    assert s[..j] == s[..i] + sub;
    assert s == s[..j] + s[j..];
  }

  // ---------------------------------------------------------------------
  // Sequences
  // ---------------------------------------------------------------------

  /** `[x for x in s if p(x)]`. */
  function Filter<T>(p: T -> bool, s: seq<T>): (r: seq<T>)
    ensures |r| <= |s|
    ensures forall x :: x in r ==> x in s && p(x)
  {
    if s == [] then [] else (if p(s[0]) then [s[0]] else []) + Filter(p, s[1..])
  }

  lemma {:induction false} FilterKeeps<T>(p: T -> bool, s: seq<T>, x: T)
    requires x in s && p(x)
    ensures x in Filter(p, s)
  {
    if s[0] != x {
      FilterKeeps(p, s[1..], x);
    }
  }

  lemma {:induction false} FilterAppend<T>(p: T -> bool, a: seq<T>, b: seq<T>)
    ensures Filter(p, a + b) == Filter(p, a) + Filter(p, b)
  {
    if a == [] {
      assert a + b == b;
    } else {
      assert (a + b)[1..] == a[1..] + b;
      FilterAppend(p, a[1..], b);
    }
  }

  /** A predicate and its negation split a sequence into two parts that together hold every element once. */
  lemma {:induction false} FilterPartition<T>(p: T -> bool, q: T -> bool, s: seq<T>)
    requires forall x :: q(x) == !p(x)
    ensures |Filter(p, s)| + |Filter(q, s)| == |s|
    ensures multiset(Filter(p, s)) + multiset(Filter(q, s)) == multiset(s)
  {
    if s != [] {
      FilterPartition(p, q, s[1..]);
      assert s == [s[0]] + s[1..];
    }
  }

  /** `xs.count(x)`. */
  function Count<T(==)>(s: seq<T>, x: T): (n: nat)
    ensures n <= |s|
    ensures n == 0 <==> x !in s
  {
    if s == [] then 0 else (if s[0] == x then 1 else 0) + Count(s[1..], x)
  }

  lemma {:induction false} CountAppend<T>(a: seq<T>, b: seq<T>, x: T)
    ensures Count(a + b, x) == Count(a, x) + Count(b, x)
  {
    if a == [] {
      assert a + b == b;
    } else {
      assert (a + b)[1..] == a[1..] + b;
      CountAppend(a[1..], b, x);
    }
  }

  /** No element occurs twice. */
  predicate NoDuplicates<T(==)>(s: seq<T>) {
    forall i, j :: 0 <= i < j < |s| ==> s[i] != s[j]
  }

  /** `set(s)`. */
  function Elements<T>(s: seq<T>): set<T> {
    set x | x in s
  }

  lemma {:induction false} ElementsBound<T>(s: seq<T>)
    ensures |Elements(s)| <= |s|
  {
    if s != [] {
      ElementsBound(s[1..]);
      assert Elements(s) == {s[0]} + Elements(s[1..]);
    }
  }

  /** `sum(ns)`. */
  function Sum(ns: seq<nat>): nat {
    if ns == [] then 0 else ns[0] + Sum(ns[1..])
  }

  /** Sum over `hs` of how often each of them occurs in `s`. */
  function CountAll<T(==)>(s: seq<T>, hs: seq<T>): nat {
    if hs == [] then 0 else Count(s, hs[0]) + CountAll(s, hs[1..])
  }

  /**
   * Counting every element of `s` against a list of distinct handles that
   * covers `s` accounts for each element exactly once.
   */
  lemma {:induction false} CountAllCovers<T>(s: seq<T>, hs: seq<T>)
    requires NoDuplicates(hs)
    requires forall x :: x in s ==> x in hs
    ensures CountAll(s, hs) == |s|
  {
    if s == [] {
      CountAllEmpty(hs);
    } else {
      assert s == [s[0]] + s[1..];
      CountAllAppend([s[0]], s[1..], hs);
      CountAllSingleton(s[0], hs);
      CountAllCovers(s[1..], hs);
    }
  }

  /** Against distinct handles, no element of `s` is counted more than once. */
  lemma {:induction false} CountAllAtMost<T>(s: seq<T>, hs: seq<T>)
    requires NoDuplicates(hs)
    ensures CountAll(s, hs) <= |s|
  {
    if s == [] {
      CountAllEmpty(hs);
    } else {
      assert s == [s[0]] + s[1..];
      CountAllAppend([s[0]], s[1..], hs);
      CountAllSingleton(s[0], hs);
      CountAllAtMost(s[1..], hs);
    }
  }

  lemma {:induction false} CountAllEmpty<T>(hs: seq<T>)
    ensures CountAll([], hs) == 0
  {
    if hs != [] {
      CountAllEmpty(hs[1..]);
    }
  }

  lemma {:induction false} CountAllAppend<T>(a: seq<T>, b: seq<T>, hs: seq<T>)
    ensures CountAll(a + b, hs) == CountAll(a, hs) + CountAll(b, hs)
  {
    if hs != [] {
      CountAppend(a, b, hs[0]);
      CountAllAppend(a, b, hs[1..]);
    }
  }

  lemma {:induction false} CountAllSingleton<T>(x: T, hs: seq<T>)
    requires NoDuplicates(hs)
    ensures CountAll([x], hs) == if x in hs then 1 else 0
  {
    if hs != [] {
      CountAllSingleton(x, hs[1..]);
      if hs[0] == x {
        assert x !in hs[1..] by {
          forall j | 0 <= j < |hs[1..]| ensures hs[1..][j] != x {
            assert hs[1..][j] == hs[j + 1];
          }
        }
      }
    }
  }
}
