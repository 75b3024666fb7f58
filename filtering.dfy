/**
 * The filter algebra of `filtering.py` (middle generation): a tree of
 * predicates over records, each with a display string (`str`) and a
 * user-friendly name (`name`).
 */
module Filtering {
  import opened Common
  import opened Items

  datatype Filter =
    | Base                                     // `ItemFilter` itself
    | Null                                     // `NullFilter`
    | DateRange(start: int, end: int, shown: string) // `DateRangeFilter`; `shown` is the two bounds as `%Y-%m-%d..%Y-%m-%d`
    | Team(slug: string, members: seq<string>) // `TeamFilter`
    | User(user: string)                       // `UserFilter`
    | Label(text: string)                     // `LabelFilter`
    | Complement(inner: Filter)                // `ComplementFilter`
    | Combined(filters: seq<Filter>, op: string) // `CombinedFilter` itself
    | Intersection(filters: seq<Filter>)       // `IntersectionFilter`
    | Union(filters: seq<Filter>)              // `UnionFilter`
    | Difference(filters: seq<Filter>)         // `DifferenceFilter`

  /** How many of `bs` are true. */
  function CountTrue(bs: seq<bool>): (n: nat)
    ensures n <= |bs|
    ensures n == 0 <==> true !in bs
  {
    if bs == [] then 0 else (if bs[0] then 1 else 0) + CountTrue(bs[1..])
  }

  /** `filter(item)`. */
  function Accepts(f: Filter, r: Record): bool
    decreases f
  {
    match f
    case Base => false
    case Null => true
    case DateRange(start, end, _) => Created(r, Some(start), Some(end))
    case Team(_, members) => UserName(r).Some? && UserName(r).value in members
    case User(user) => UserName(r) == Some(user)
    case Label(text) => text in LabelStrings(r)
    case Complement(g) => !Accepts(g, r)
    case Combined(_, _) => false
    case Intersection(fs) => false !in seq(|fs|, i requires 0 <= i < |fs| => Accepts(fs[i], r))
    case Union(fs) => true in seq(|fs|, i requires 0 <= i < |fs| => Accepts(fs[i], r))
    case Difference(fs) => CountTrue(seq(|fs|, i requires 0 <= i < |fs| => Accepts(fs[i], r))) == 1
  }

  /** The verdicts of each filter of `fs`, in order. */
  function Verdicts(fs: seq<Filter>, r: Record): (bs: seq<bool>)
    ensures |bs| == |fs|
    ensures forall i :: 0 <= i < |fs| ==> bs[i] == Accepts(fs[i], r)
  {
    seq(|fs|, i requires 0 <= i < |fs| => Accepts(fs[i], r))
  }

  lemma LeafFilters(r: Record, start: int, end: int, shown: string, slug: string, members: seq<string>,
                    user: string, name: string, op: string, fs: seq<Filter>)
    ensures Accepts(Null, r) && !Accepts(Base, r) && !Accepts(Combined(fs, op), r)
    ensures Accepts(DateRange(start, end, shown), r) <==> start < CreationTime(r) < end
    ensures Accepts(Team(slug, members), r) <==> UserName(r).Some? && UserName(r).value in members
    ensures Accepts(User(user), r) <==> UserName(r) == Some(user)
    ensures UserName(r).None? ==> !Accepts(Team(slug, members), r) && !Accepts(User(user), r)
    ensures Accepts(User(user), r) == Accepts(Team(slug, [user]), r)
    ensures Accepts(Label(name), r) <==> name in LabelStrings(r)
  {
  }

  lemma ComplementNegates(f: Filter, r: Record)
    ensures Accepts(Complement(f), r) == !Accepts(f, r)
    ensures Accepts(Complement(Complement(f)), r) == Accepts(f, r)
  {
  }

  /** An intersection accepts when every member does (so the empty one accepts everything); a union when some member does. */
  lemma IntersectionAndUnion(fs: seq<Filter>, r: Record)
    ensures Accepts(Intersection(fs), r) <==> forall i :: 0 <= i < |fs| ==> Accepts(fs[i], r)
    ensures Accepts(Union(fs), r) <==> exists i :: 0 <= i < |fs| && Accepts(fs[i], r)
    ensures Accepts(Intersection([]), r) && !Accepts(Union([]), r)
  {
    assert Verdicts(fs, r) == seq(|fs|, i requires 0 <= i < |fs| => Accepts(fs[i], r));
    if forall i :: 0 <= i < |fs| ==> Accepts(fs[i], r) {
      assert false !in Verdicts(fs, r);
    }
    if exists i :: 0 <= i < |fs| && Accepts(fs[i], r) {
      var i :| 0 <= i < |fs| && Accepts(fs[i], r);
      assert Verdicts(fs, r)[i];
    }
  }

  /** A difference accepts when exactly one member does: for two filters, exclusive or. */
  lemma DifferenceExactlyOne(f: Filter, g: Filter, r: Record)
    ensures Accepts(Difference([f, g]), r) <==> Accepts(f, r) != Accepts(g, r)
    ensures Accepts(Difference([f]), r) == Accepts(f, r)
    ensures !Accepts(Difference([]), r)
  {
    var bs := seq(2, i requires 0 <= i < 2 => Accepts([f, g][i], r));
    assert bs == [Accepts(f, r), Accepts(g, r)];
    assert bs[1..] == [Accepts(g, r)];
    var b1 := seq(1, i requires 0 <= i < 1 => Accepts([f][i], r));
    assert b1 == [Accepts(f, r)];
  }

  /** De Morgan: the complement of an intersection is the union of the complements. */
  lemma ComplementOfIntersection(fs: seq<Filter>, r: Record)
    ensures Accepts(Complement(Intersection(fs)), r) ==
            Accepts(Union(seq(|fs|, i requires 0 <= i < |fs| => Complement(fs[i]))), r)
  {
    var cs := seq(|fs|, i requires 0 <= i < |fs| => Complement(fs[i]));
    IntersectionAndUnion(fs, r);
    IntersectionAndUnion(cs, r);
    forall i | 0 <= i < |fs| ensures Accepts(cs[i], r) == !Accepts(fs[i], r) {
      ComplementNegates(fs[i], r);
    }
  }

  // ---------------------------------------------------------------------
  // Display
  // ---------------------------------------------------------------------

  /**
   * `str(f)` and `f.name` are both texts; a filter without `__str__`
   * shows Python's default object representation, which carries a memory
   * address: `None` stands for any text containing one.
   */
  datatype Form = Str | Name

  /** `sep.join(parts)`, or `None` when a part is. */
  function JoinShown(sep: string, parts: seq<Option<string>>): (r: Option<string>)
    ensures r.Some? <==> forall i :: 0 <= i < |parts| ==> parts[i].Some?
  {
    if parts == [] then Some("")
    else if |parts| == 1 then parts[0]
    else
      var rest := JoinShown(sep, parts[1..]);
      if parts[0].Some? && rest.Some? then Some(parts[0].value + sep + rest.value)
      else None
  }

  /**
   * The text of a filter in either form. With `joined` false, an
   * intersection shows the default object representation, as
   * `IntersectionFilter` (which derives from `ItemFilter` rather than
   * `CombinedFilter`) does; with `joined` true it shows its members
   * joined by ` & `.
   */
  function Shown(f: Filter, form: Form, joined: bool): Option<string>
    decreases f
  {
    match f
    case Base => None
    case Null => Some("all")
    case DateRange(_, _, shown) => Some("date:" + shown)
    case Team(slug, _) => if form == Str then Some("team:" + slug) else Some(slug)
    case User(user) => if form == Str then Some("user:" + user) else Some("@" + user)
    case Label(text) => if form == Str then Some("label:" + text) else Some(text)
    case Complement(g) =>
      var inner := Shown(g, form, joined);
      if inner.Some? then Some("!" + inner.value) else None
    case Combined(fs, op) => JoinShown(" " + op + " ", seq(|fs|, i requires 0 <= i < |fs| => Shown(fs[i], form, joined)))
    case Intersection(fs) =>
      if joined then JoinShown(" & ", seq(|fs|, i requires 0 <= i < |fs| => Shown(fs[i], form, joined)))
      else None
    case Union(fs) => JoinShown(" | ", seq(|fs|, i requires 0 <= i < |fs| => Shown(fs[i], form, joined)))
    case Difference(fs) => JoinShown(" ^ ", seq(|fs|, i requires 0 <= i < |fs| => Shown(fs[i], form, joined)))
  }

  /** The texts of the members of a combination, in order. */
  function Parts(fs: seq<Filter>, form: Form, joined: bool): (ps: seq<Option<string>>)
    ensures |ps| == |fs|
    ensures forall i :: 0 <= i < |fs| ==> ps[i] == Shown(fs[i], form, joined)
  {
    seq(|fs|, i requires 0 <= i < |fs| => Shown(fs[i], form, joined))
  }

  /** A combination shows its members' texts joined by its operator. */
  lemma ShownJoins(fs: seq<Filter>, op: string, form: Form, joined: bool)
    ensures Shown(Combined(fs, op), form, joined) == JoinShown(" " + op + " ", Parts(fs, form, joined))
    ensures Shown(Union(fs), form, joined) == JoinShown(" | ", Parts(fs, form, joined))
    ensures Shown(Difference(fs), form, joined) == JoinShown(" ^ ", Parts(fs, form, joined))
    ensures Shown(Intersection(fs), form, joined) == if joined then JoinShown(" & ", Parts(fs, form, joined)) else None
  {
  }

  /** `f.name` as written. */
  function NameAsWritten(f: Filter): Option<string> {
    Shown(f, Name, false)
  }

  /** `str(f)` as written. */
  function StrAsWritten(f: Filter): Option<string> {
    Shown(f, Str, false)
  }

  /** `f.name` with `IntersectionFilter` a `CombinedFilter` with operator `&`. */
  function FilterName(f: Filter): Option<string> {
    Shown(f, Name, true)
  }

  /** `str(f)` with `IntersectionFilter` a `CombinedFilter` with operator `&`. */
  function FilterStr(f: Filter): Option<string> {
    Shown(f, Str, true)
  }

  lemma DisplayNames(slug: string, members: seq<string>, user: string, name: string, f: Filter, g: Filter)
    ensures FilterName(Team(slug, members)) == Some(slug) && FilterStr(Team(slug, members)) == Some("team:" + slug)
    ensures FilterName(User(user)) == Some("@" + user) && FilterStr(User(user)) == Some("user:" + user)
    ensures FilterName(Label(name)) == Some(name) && FilterStr(Label(name)) == Some("label:" + name)
    ensures FilterName(Null) == Some("all") && FilterStr(Null) == Some("all")
    ensures FilterName(f).Some? ==> FilterName(Complement(f)) == Some("!" + FilterName(f).value)
    ensures FilterName(f).Some? && FilterName(g).Some? ==>
      FilterName(Union([f, g])) == Some(FilterName(f).value + " | " + FilterName(g).value) &&
      FilterName(Difference([f, g])) == Some(FilterName(f).value + " ^ " + FilterName(g).value) &&
      FilterName(Intersection([f, g])) == Some(FilterName(f).value + " & " + FilterName(g).value)
  {
    ShownJoins([f, g], "&", Name, true);
    assert Parts([f, g], Name, true) == [FilterName(f), FilterName(g)];
    if FilterName(f).Some? && FilterName(g).Some? {
      JoinTwo(" | ", FilterName(f).value, FilterName(g).value);
      JoinTwo(" ^ ", FilterName(f).value, FilterName(g).value);
      JoinTwo(" & ", FilterName(f).value, FilterName(g).value);
    }
  }

  lemma JoinTwo(sep: string, a: string, b: string)
    ensures JoinShown(sep, [Some(a), Some(b)]) == Some(a + sep + b)
  {
    assert [Some(a), Some(b)][1..] == [Some(b)];
  }

  /** No part of the filter is a bare `ItemFilter`. */
  predicate NoBase(f: Filter)
    decreases f
  {
    match f
    case Base => false
    case Complement(g) => NoBase(g)
    case Combined(fs, _) => forall i :: 0 <= i < |fs| ==> NoBase(fs[i])
    case Intersection(fs) => forall i :: 0 <= i < |fs| ==> NoBase(fs[i])
    case Union(fs) => forall i :: 0 <= i < |fs| ==> NoBase(fs[i])
    case Difference(fs) => forall i :: 0 <= i < |fs| ==> NoBase(fs[i])
    case _ => true
  }

  /** No part of the filter is an intersection. */
  predicate NoIntersection(f: Filter)
    decreases f
  {
    match f
    case Intersection(_) => false
    case Complement(g) => NoIntersection(g)
    case Combined(fs, _) => forall i :: 0 <= i < |fs| ==> NoIntersection(fs[i])
    case Union(fs) => forall i :: 0 <= i < |fs| ==> NoIntersection(fs[i])
    case Difference(fs) => forall i :: 0 <= i < |fs| ==> NoIntersection(fs[i])
    case _ => true
  }

  /**
   * With the correction, every filter built without a bare `ItemFilter`
   * has a readable text in both forms; as written, a single intersection
   * anywhere inside it spoils the text.
   */
  lemma {:induction false} ShownReadable(f: Filter, form: Form)
    ensures Shown(f, form, true).Some? <==> NoBase(f)
    ensures Shown(f, form, false).Some? <==> NoBase(f) && NoIntersection(f)
    decreases f
  {
    match f
    case Complement(g) => ShownReadable(g, form);
    case Combined(fs, op) => ShownReadableAll(fs, form); ShownJoins(fs, op, form, true); ShownJoins(fs, op, form, false);
    case Intersection(fs) => ShownReadableAll(fs, form); ShownJoins(fs, "&", form, true);
    case Union(fs) => ShownReadableAll(fs, form); ShownJoins(fs, "|", form, true); ShownJoins(fs, "|", form, false);
    case Difference(fs) => ShownReadableAll(fs, form); ShownJoins(fs, "^", form, true); ShownJoins(fs, "^", form, false);
    case _ =>
  }

  lemma {:induction false} ShownReadableAll(fs: seq<Filter>, form: Form)
    ensures forall i :: 0 <= i < |fs| ==>
      (Shown(fs[i], form, true).Some? <==> NoBase(fs[i])) &&
      (Shown(fs[i], form, false).Some? <==> NoBase(fs[i]) && NoIntersection(fs[i]))
    decreases fs, 0
  {
    forall i | 0 <= i < |fs|
      ensures (Shown(fs[i], form, true).Some? <==> NoBase(fs[i])) &&
              (Shown(fs[i], form, false).Some? <==> NoBase(fs[i]) && NoIntersection(fs[i]))
    {
      ShownReadable(fs[i], form);
    }
  }

  /** The smallest case: an intersection of one accept-all filter. */
  lemma IntersectionNameLost()
    ensures NameAsWritten(Intersection([Null])) == None
    ensures FilterName(Intersection([Null])) == Some("all")
    ensures StrAsWritten(Intersection([Null])) == None
    ensures FilterStr(Intersection([Null])) == Some("all")
  {
    ShownJoins([Null], "&", Name, true);
    ShownJoins([Null], "&", Str, true);
    assert Parts([Null], Name, true) == [Some("all")];
    assert Parts([Null], Str, true) == [Some("all")];
  }
}
