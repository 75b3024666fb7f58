/**
 * `metrics.py` (middle generation): the metrics reporter. Each selector
 * is parsed into a filter of the file's own filter family (one test per
 * kind of record), combined with the date range of the reporting period,
 * and counted against the repository's issues, pull requests, events,
 * comments, commits and releases.
 */
module Metrics {
  import opened Common
  import opened Items
  import opened Dates

  /**
   * What the reporter reads from the repository: each item list and the
   * label names as the provider answers them (a list, or the exception
   * reading it raises), and the members of each team by slug (`get_team`
   * raises KeyError for any other slug).
   */
  datatype RepoView = RepoView(
    allIssues: Result<seq<Record>>,
    allPullRequests: Result<seq<Record>>,
    events: Result<seq<Record>>,
    comments: Result<seq<Record>>,
    commits: Result<seq<Record>>,
    releases: Result<seq<Record>>,
    labels: Result<seq<string>>,
    teams: map<string, seq<string>>
  )

  /** `repository.get_team(slug)`, as member logins. */
  function TeamMembers(v: RepoView, slug: string): (r: Result<seq<string>>)
    ensures r.Ok? <==> slug in v.teams
    ensures r.Ok? ==> r.value == v.teams[slug]
    ensures r.Err? ==> r.error == KeyError
  {
    if slug in v.teams then Ok(v.teams[slug]) else Err(KeyError)
  }

  /** `repository.contributors`: the members of `__collaborators`. */
  function Contributors(v: RepoView): Result<seq<string>> {
    TeamMembers(v, "__collaborators")
  }

  // ---------------------------------------------------------------------
  // Filters
  // ---------------------------------------------------------------------

  /** The five kinds of record a filter tests, one `filterX` method each. */
  datatype Channel = IssueChannel | EventChannel | CommentChannel | CommitChannel | ReleaseChannel

  datatype MetricFilter =
    | All                                        // `NullFilter`
    | DateRange(start: int, end: int)            // `DateRangeFilter`
    | Team(slug: string, members: seq<string>)   // `TeamFilter`
    | User(user: string)                         // `UserFilter`: a `TeamFilter` of one member
    | Label(text: string)                        // `LabelFilter`
    | Complement(inner: MetricFilter)            // `ComplementFilter`
    | Combined(name: string, filters: seq<MetricFilter>) // `CombinedFilter`

  /** Membership of a login that may be missing; `missing` is what a missing one gives. */
  function MemberTest(login: Option<string>, members: seq<string>, missing: Result<bool>): Result<bool> {
    if login.None? then missing else Ok(login.value in members)
  }

  /**
   * `TeamFilter.filterX`: issues and comments by `user.login`, events by
   * `actor.login` and releases by `author.login` (AttributeError when
   * missing), commits by `author.login` (false when missing).
   */
  function TeamTest(members: seq<string>, ch: Channel, r: Record): Result<bool> {
    match ch
    case IssueChannel | CommentChannel => Ok(r.user in members)
    case EventChannel => MemberTest(r.actor, members, Err(AttributeError))
    case CommitChannel => MemberTest(r.author, members, Ok(false))
    case ReleaseChannel => MemberTest(r.author, members, Err(AttributeError))
  }

  /** `f.filterX(r)` for the channel `ch`. */
  function Passes(f: MetricFilter, ch: Channel, r: Record): Result<bool>
    decreases f, 1
  {
    match f
    case All => Ok(true)
    case DateRange(start, end) => Ok(Created(r, Some(start), Some(end)))
    case Team(_, members) => TeamTest(members, ch, r)
    case User(user) => TeamTest([user], ch, r)
    case Label(text) =>
      if ch == IssueChannel then Ok(text in r.labels)
      else if ch == EventChannel then Ok(text in r.issueLabels)
      else Ok(false)
    case Complement(g) =>
      var b :- Passes(g, ch, r);
      Ok(!b)
    case Combined(_, fs) => PassesAll(fs, ch, r)
  }

  /** `not False in [f.filterX(r) for f in fs]`: every test runs in order, the first exception escapes. */
  function PassesAll(fs: seq<MetricFilter>, ch: Channel, r: Record): (res: Result<bool>)
    decreases fs, 0
  {
    if fs == [] then Ok(true)
    else
      var b :- Passes(fs[0], ch, r);
      var c :- PassesAll(fs[1..], ch, r);
      Ok(b && c)
  }

  lemma {:induction false} PassesAllExact(fs: seq<MetricFilter>, ch: Channel, r: Record)
    ensures PassesAll(fs, ch, r).Ok? <==> forall i :: 0 <= i < |fs| ==> Passes(fs[i], ch, r).Ok?
    ensures PassesAll(fs, ch, r).Ok? ==>
      (PassesAll(fs, ch, r).value <==> forall i :: 0 <= i < |fs| ==> Passes(fs[i], ch, r).value)
    decreases fs
  {
    if fs != [] {
      PassesAllExact(fs[1..], ch, r);
      assert forall i :: 1 <= i < |fs| ==> fs[i] == fs[1..][i - 1];
    }
  }

  /**
   * The quirks of this filter family: a team or user filter rejects a
   * commit without author while its complement accepts it; a label filter
   * matches only issues and events; a missing event actor or release
   * author makes a team or user filter raise.
   */
  lemma ChannelQuirks(members: seq<string>, user: string, text: string, r: Record)
    ensures r.author.None? ==>
      Passes(Team("", members), CommitChannel, r) == Ok(false) &&
      Passes(Complement(Team("", members)), CommitChannel, r) == Ok(true) &&
      Passes(User(user), CommitChannel, r) == Ok(false) &&
      Passes(Complement(User(user)), CommitChannel, r) == Ok(true)
    ensures forall ch :: ch in {CommentChannel, CommitChannel, ReleaseChannel} ==> Passes(Label(text), ch, r) == Ok(false)
    ensures Passes(Label(text), IssueChannel, r) == Ok(text in r.labels)
    ensures Passes(Label(text), EventChannel, r) == Ok(text in r.issueLabels)
    ensures r.actor.None? ==> Passes(User(user), EventChannel, r) == Err(AttributeError)
    ensures r.author.None? ==> Passes(User(user), ReleaseChannel, r) == Err(AttributeError)
    ensures forall ch :: Passes(User(user), ch, r) == Passes(Team(user, [user]), ch, r)
  {
  }

  /** A signed decimal number. */
  function IntText(n: int): string {
    if n < 0 then "-" + Decimal(-n) else Decimal(n)
  }

  /** `str(f)`; `CombinedFilter` leaves out its components that read `date:...`. */
  function Text(f: MetricFilter): string
    decreases f, 1
  {
    match f
    case All => "all"
    case DateRange(start, end) => "date:" + IntText(start) + ".." + IntText(end)
    case Team(slug, _) => "team:" + slug
    case User(user) => "user:" + user
    case Label(text) => "label:" + text
    case Complement(g) => "!" + Text(g)
    case Combined(_, fs) => Join(" & ", UndatedTexts(fs))
  }

  /** `[str(f) for f in fs if not str(f).startswith('date:')]`. */
  function UndatedTexts(fs: seq<MetricFilter>): (ts: seq<string>)
    ensures forall t :: t in ts ==> !StartsWith(t, "date:")
    decreases fs, 0
  {
    if fs == [] then []
    else (if StartsWith(Text(fs[0]), "date:") then [] else [Text(fs[0])]) + UndatedTexts(fs[1..])
  }

  /** `f.name`: the given name of a combined filter, the text of any other. */
  function FilterName(f: MetricFilter): string {
    if f.Combined? then f.name else Text(f)
  }

  // ---------------------------------------------------------------------
  // Selectors
  // ---------------------------------------------------------------------

  /** The top-level filter of a selector parsed to `f` under the name `name`, for a period. */
  function Dated(date: MetricFilter, name: string, f: MetricFilter): MetricFilter {
    Combined(name, [date, f])
  }

  /**
   * `_get_filter_from_selector(selector, level)`; `top` is `level == 0`.
   * `selector AS name` names the filter (more than one ` AS ` fails to
   * unpack); `!` complements the rest; `all`, `team:`, `user:` and
   * `label:` build their filters and anything else accepts everything.
   * An unnamed user filter is named `@user`, an unnamed label filter by
   * its label.
   */
  function ParseSelector(v: RepoView, date: MetricFilter, selector: string, top: bool): (r: Result<MetricFilter>)
    decreases |selector|
  {
    var parts := SplitOn(selector, " AS ");
    if |parts| > 2 then Err(ValueError)
    else
      var sel := parts[0];
      var name := if |parts| == 2 then parts[1] else selector;
      if sel == [] then Err(IndexError)
      else
        var named: Result<(MetricFilter, string)> :=
          if sel[0] == '!' then
            var g :- ParseSelector(v, date, sel[1..], false);
            Ok((Complement(g), name))
          else if sel == "all" then Ok((All, name))
          else if StartsWith(sel, "team:") then
            var members :- TeamMembers(v, sel[5..]);
            Ok((Team(sel[5..], members), name))
          else if StartsWith(sel, "user:") then
            Ok((User(sel[5..]), if sel == name then "@" + sel[5..] else name))
          else if StartsWith(sel, "label:") then
            Ok((Label(sel[6..]), if sel == name then sel[6..] else name))
          else Ok((All, name));
        var (f, n) :- named;
        if top then Ok(Dated(date, n, f)) else Ok(f)
  }

  /** The selector forms without ` AS ` and the filters and names they give. */
  lemma {:induction false} SelectorForms(v: RepoView, date: MetricFilter, rest: string)
    requires !Contains("user:" + rest, " AS ") && !Contains("label:" + rest, " AS ") && !Contains("team:" + rest, " AS ")
    ensures ParseSelector(v, date, "user:" + rest, true) == Ok(Dated(date, "@" + rest, User(rest)))
    ensures ParseSelector(v, date, "label:" + rest, true) == Ok(Dated(date, rest, Label(rest)))
    ensures rest in v.teams ==> ParseSelector(v, date, "team:" + rest, true) == Ok(Dated(date, "team:" + rest, Team(rest, v.teams[rest])))
    ensures rest !in v.teams ==> ParseSelector(v, date, "team:" + rest, true) == Err(KeyError)
    ensures ParseSelector(v, date, "all", true) == Ok(Dated(date, "all", All))
  {
    assert ("user:" + rest)[5..] == rest;
    assert ("team:" + rest)[5..] == rest;
    assert ("label:" + rest)[6..] == rest;
    assert ("team:" + rest)[0] == 't';
    assert StartsWith("team:" + rest, "team:");
    assert !StartsWith("user:" + rest, "team:") by { assert ("user:" + rest)[0] == 'u'; }
    assert StartsWith("user:" + rest, "user:");
    assert !StartsWith("label:" + rest, "team:") by { assert ("label:" + rest)[0] == 'l'; }
    assert !StartsWith("label:" + rest, "user:") by { assert ("label:" + rest)[0] == 'l'; }
    assert StartsWith("label:" + rest, "label:");
    assert !Contains("all", " AS ") by { assert FindFrom("all", " AS ", 0) == None; }
  }

  /**
   * A selector split by ` AS ` into two parts reads as `parts[0] AS parts[1]`,
   * and the second part names the filter unless the first is a user or
   * label selector identical to it.
   */
  lemma NamedSelector(v: RepoView, date: MetricFilter, selector: string)
    requires |SplitOn(selector, " AS ")| == 2
    ensures var parts := SplitOn(selector, " AS ");
      selector == parts[0] + " AS " + parts[1] &&
      (ParseSelector(v, date, selector, true).Ok? && parts[0] != parts[1] ==>
        ParseSelector(v, date, selector, true).value.name == parts[1])
  {
    var parts := SplitOn(selector, " AS ");
    SplitJoin(selector, " AS ");
    assert parts[1..] == [parts[1]];
  }

  /** A sub-selector never reads `date:...`, so the top-level text is the selector's own. */
  lemma {:induction false} ParsedTextUndated(v: RepoView, date: MetricFilter, selector: string)
    requires ParseSelector(v, date, selector, false).Ok?
    ensures !StartsWith(Text(ParseSelector(v, date, selector, false).value), "date:")
    decreases |selector|
  {
    var f := ParseSelector(v, date, selector, false).value;
    var t := Text(f);
    match f
    case All => assert |t| < 5;
    case Team(slug, _) => assert t[0] == 't';
    case User(user) => assert t[0] == 'u';
    case Label(text) => assert t[0] == 'l';
    case Complement(g) => assert t[0] == '!';
    case _ =>
  }

  /**
   * The top-level filter of a period: it accepts a record when it was
   * created strictly inside the period and the selector's filter accepts
   * it (the selector's exception escapes even outside the period); its
   * text leaves out the date range.
   */
  lemma DatedFilter(start: int, end: int, name: string, g: MetricFilter, ch: Channel, r: Record)
    ensures Passes(Dated(DateRange(start, end), name, g), ch, r) ==
      (match Passes(g, ch, r)
       case Err(e) => Err(e)
       case Ok(b) => Ok(start < CreationTime(r) < end && b))
    ensures !StartsWith(Text(g), "date:") ==> Text(Dated(DateRange(start, end), name, g)) == Text(g)
    ensures FilterName(Dated(DateRange(start, end), name, g)) == name
  {
    var d := DateRange(start, end);
    assert [d, g][1..] == [g];
    assert [g][1..] == [];
    assert PassesAll([], ch, r) == Ok(true);
    assert PassesAll([g], ch, r) == (match Passes(g, ch, r) case Err(e) => Err(e) case Ok(b) => Ok(b && true));
    assert PassesAll([d, g], ch, r) == (match PassesAll([g], ch, r) case Err(e) => Err(e) case Ok(c) => Ok(Created(r, Some(start), Some(end)) && c));
    assert StartsWith(Text(d), "date:") by { assert Text(d)[..5] == "date:"; }
    assert UndatedTexts([d, g]) == UndatedTexts([g]);
  }

  // ---------------------------------------------------------------------
  // Wildcards
  // ---------------------------------------------------------------------

  /** One selector as the expansion reads it: `user:*` and `label:*` stand for a selector per contributor or label. */
  function ExpandOne(v: RepoView, selector: string): Result<seq<string>> {
    if selector == "user:*" then
      var users :- Contributors(v);
      Ok(seq(|users|, i requires 0 <= i < |users| => "user:" + users[i]))
    else if selector == "label:*" then
      var labels :- v.labels;
      Ok(seq(|labels|, i requires 0 <= i < |labels| => "label:" + labels[i]))
    else Ok([selector])
  }

  /** Every selector expanded in order; the first exception escapes. */
  function ExpandEach(v: RepoView, selectors: seq<string>): Result<seq<string>> {
    if selectors == [] then Ok([])
    else
      var first :- ExpandOne(v, selectors[0]);
      var rest :- ExpandEach(v, selectors[1..]);
      Ok(first + rest)
  }

  predicate HasWildcard(selectors: seq<string>) {
    exists i :: 0 <= i < |selectors| && '*' in selectors[i]
  }

  /** `_expand_wildcard_selectors`: unchanged when no selector holds `*`. */
  function ExpandWildcards(v: RepoView, selectors: seq<string>): (r: Result<seq<string>>)
    ensures !HasWildcard(selectors) ==> r == Ok(selectors)
  {
    if !HasWildcard(selectors) then Ok(selectors) else ExpandEach(v, selectors)
  }

  /** Without `*`, expanding each selector changes nothing: the early return only avoids reading the repository. */
  lemma {:induction false} ExpandEachIdentity(v: RepoView, selectors: seq<string>)
    requires !HasWildcard(selectors)
    ensures ExpandEach(v, selectors) == Ok(selectors)
  {
    if selectors != [] {
      assert '*' !in selectors[0] by { assert !('*' in selectors[0]); }
      assert "user:*"[5] == '*' && "label:*"[6] == '*';
      assert ExpandOne(v, selectors[0]) == Ok([selectors[0]]);
      assert !HasWildcard(selectors[1..]) by {
        forall i | 0 <= i < |selectors[1..]| ensures '*' !in selectors[1..][i] {
          assert selectors[1..][i] == selectors[i + 1];
        }
      }
      ExpandEachIdentity(v, selectors[1..]);
      assert [selectors[0]] + selectors[1..] == selectors;
    }
  }

  /** Expansion works selector by selector: the expansion of a concatenation is the concatenation of the expansions. */
  lemma {:induction false} ExpandEachAppend(v: RepoView, a: seq<string>, b: seq<string>)
    ensures ExpandEach(v, a + b) ==
      (match ExpandEach(v, a)
       case Err(e) => Err(e)
       case Ok(x) => match ExpandEach(v, b) case Err(e) => Err(e) case Ok(y) => Ok(x + y))
  {
    if a == [] {
      assert a + b == b;
      assert ExpandEach(v, a) == Ok([]);
      match ExpandEach(v, b)
      case Err(_) =>
      case Ok(y) => assert [] + y == y;
    } else {
      assert (a + b)[0] == a[0] && (a + b)[1..] == a[1..] + b;
      ExpandEachAppend(v, a[1..], b);
      match ExpandOne(v, a[0])
      case Err(_) =>
      case Ok(first) =>
        match ExpandEach(v, a[1..])
        case Err(_) =>
        case Ok(x) =>
          assert ExpandEach(v, a) == Ok(first + x);
          match ExpandEach(v, b)
          case Err(_) =>
          case Ok(y) =>
            assert ExpandEach(v, a + b) == Ok(first + (x + y));
            assert first + (x + y) == (first + x) + y;
    }
  }

  /** What one selector expands to: a selector per contributor, per label, or itself. */
  lemma ExpandOneCases(v: RepoView, selector: string)
    ensures selector == "user:*" ==>
      (Contributors(v).Err? ==> ExpandOne(v, selector) == Err(KeyError)) &&
      (Contributors(v).Ok? ==> (ExpandOne(v, selector).Ok? &&
        |ExpandOne(v, selector).value| == |Contributors(v).value| &&
        forall i :: 0 <= i < |Contributors(v).value| ==>
          ExpandOne(v, selector).value[i] == "user:" + Contributors(v).value[i]))
    ensures selector == "label:*" ==>
      (v.labels.Err? ==> ExpandOne(v, selector) == Err(v.labels.error)) &&
      (v.labels.Ok? ==> (ExpandOne(v, selector).Ok? &&
        |ExpandOne(v, selector).value| == |v.labels.value| &&
        forall i :: 0 <= i < |v.labels.value| ==> ExpandOne(v, selector).value[i] == "label:" + v.labels.value[i]))
    ensures selector != "user:*" && selector != "label:*" ==> ExpandOne(v, selector) == Ok([selector])
  {
  }

  // ---------------------------------------------------------------------
  // Reports
  // ---------------------------------------------------------------------

  /** Which records of a list a count looks at before the filter is asked. */
  datatype Pick = Every | ClosedIssues | ClosedPullRequests | AnyClosed | Merges

  predicate Picks(p: Pick, r: Record) {
    match p
    case Every => true
    case ClosedIssues => r.event == "closed" && !r.issueIsPR
    case ClosedPullRequests => r.event == "closed" && r.issueIsPR
    case AnyClosed => r.event == "closed"
    case Merges => r.event == "merged"
  }

  /**
   * `[x for x in xs if <pick> and f.filterX(x)]`: the filter is asked only
   * about picked records, in order, and its first exception escapes.
   */
  function Select(f: MetricFilter, ch: Channel, p: Pick, xs: seq<Record>): (r: Result<seq<Record>>)
    ensures r.Ok? <==> forall i :: 0 <= i < |xs| && Picks(p, xs[i]) ==> Passes(f, ch, xs[i]).Ok?
    ensures r.Ok? ==> |r.value| <= |xs|
  {
    if xs == [] then Ok([])
    else
      var rest := Select(f, ch, p, xs[1..]);
      assert forall i :: 1 <= i < |xs| ==> xs[i] == xs[1..][i - 1];
      if !Picks(p, xs[0]) then rest
      else
        var b :- Passes(f, ch, xs[0]);
        var ys :- rest;
        Ok(if b then [xs[0]] + ys else ys)
  }

  /** A record is selected when it is in the list, picked, and accepted by the filter. */
  lemma {:induction false} SelectMeaning(f: MetricFilter, ch: Channel, p: Pick, xs: seq<Record>)
    requires Select(f, ch, p, xs).Ok?
    ensures forall x :: x in Select(f, ch, p, xs).value <==> x in xs && Picks(p, x) && Passes(f, ch, x) == Ok(true)
  {
    if xs != [] {
      SelectMeaning(f, ch, p, xs[1..]);
      assert forall x :: x in xs <==> x == xs[0] || x in xs[1..];
    }
  }

  /** The closes of issues and those of pull requests together are all the closes the filter accepts. */
  lemma {:induction false} ClosesSplit(f: MetricFilter, xs: seq<Record>)
    requires Select(f, EventChannel, AnyClosed, xs).Ok?
    ensures Select(f, EventChannel, ClosedIssues, xs).Ok? && Select(f, EventChannel, ClosedPullRequests, xs).Ok?
    ensures |Select(f, EventChannel, ClosedIssues, xs).value| + |Select(f, EventChannel, ClosedPullRequests, xs).value|
            == |Select(f, EventChannel, AnyClosed, xs).value|
  {
    if xs != [] {
      assert forall i :: 1 <= i < |xs| ==> xs[i] == xs[1..][i - 1];
      ClosesSplit(f, xs[1..]);
    }
  }

  /** `_Report(selector, name, values)`. */
  datatype Report = Report(selector: string, name: string, values: seq<nat>) {
    function IssuesOpened(): nat requires |values| == 9 { values[0] }
    function IssuesClosed(): nat requires |values| == 9 { values[1] }
    function PullRequestsOpened(): nat requires |values| == 9 { values[2] }
    function PullRequestsClosed(): nat requires |values| == 9 { values[3] }
    function PullRequestsMerged(): nat requires |values| == 9 { values[4] }
    function Comments(): nat requires |values| == 9 { values[5] }
    function Commits(): nat requires |values| == 9 { values[6] }
    function Releases(): nat requires |values| == 9 { values[7] }
    function ContributorCount(): nat requires |values| == 9 { values[8] }
  }

  /** The lists `get_single_report` counts, each filtered by `f`. */
  datatype Matches = Matches(
    issuesOpened: seq<Record>, issuesClosed: seq<Record>, pullsOpened: seq<Record>, pullsClosed: seq<Record>,
    pullsMerged: seq<Record>, comments: seq<Record>, commits: seq<Record>, releases: seq<Record>)

  /**
   * The eight filtered lists, computed in the source's order: each list is
   * read from the repository, then filtered; the first exception escapes.
   * The events are read three times, but the memory provider keeps the
   * first successful answer, so the later reads return the same list.
   */
  function MatchesOf(v: RepoView, f: MetricFilter): Result<Matches> {
    var issues :- v.allIssues;
    var io :- Select(f, IssueChannel, Every, issues);
    var events :- v.events;
    var ic :- Select(f, EventChannel, ClosedIssues, events);
    var pulls :- v.allPullRequests;
    var po :- Select(f, IssueChannel, Every, pulls);
    var pc :- Select(f, EventChannel, ClosedPullRequests, events);
    var pm :- Select(f, EventChannel, Merges, events);
    var comments :- v.comments;
    var cm :- Select(f, CommentChannel, Every, comments);
    var commits :- v.commits;
    var co :- Select(f, CommitChannel, Every, commits);
    var releases :- v.releases;
    var rl :- Select(f, ReleaseChannel, Every, releases);
    Ok(Matches(io, ic, po, pc, pm, cm, co, rl))
  }

  /** The logins `contributors` is the set of: openers, commenters, closers. */
  function ContributorLogins(m: Matches): Result<seq<string>> {
    var issueClosers :- Actors(m.issuesClosed);
    var pullClosers :- Actors(m.pullsClosed);
    Ok(Users(m.issuesOpened) + Users(m.pullsOpened) + Users(m.comments) + issueClosers + pullClosers)
  }

  /** `get_single_report(f)`. */
  function SingleReport(v: RepoView, f: MetricFilter): Result<Report> {
    var m :- MatchesOf(v, f);
    var logins :- ContributorLogins(m);
    Ok(Report(Text(f), FilterName(f), [
      |m.issuesOpened|, |m.issuesClosed|, |m.pullsOpened|, |m.pullsClosed|, |m.pullsMerged|,
      |m.comments|, |m.commits|, |m.releases|, |Elements(logins)|]))
  }

  /**
   * The report's accessors read the counts of the matching lists, in the
   * order of `_Report`; the contributors are at most as many as the
   * openings, comments and closes together (merges, commits and releases
   * bring none).
   */
  lemma ReportFields(v: RepoView, f: MetricFilter)
    requires SingleReport(v, f).Ok?
    ensures var rep := SingleReport(v, f).value;
      var m := MatchesOf(v, f).value;
      MatchesOf(v, f).Ok? && |rep.values| == 9 &&
      rep.selector == Text(f) && rep.name == FilterName(f) &&
      rep.IssuesOpened() == |m.issuesOpened| && rep.IssuesClosed() == |m.issuesClosed| &&
      rep.PullRequestsOpened() == |m.pullsOpened| && rep.PullRequestsClosed() == |m.pullsClosed| &&
      rep.PullRequestsMerged() == |m.pullsMerged| && rep.Comments() == |m.comments| &&
      rep.Commits() == |m.commits| && rep.Releases() == |m.releases| &&
      rep.ContributorCount() <= rep.IssuesOpened() + rep.PullRequestsOpened() + rep.Comments() +
                                rep.IssuesClosed() + rep.PullRequestsClosed()
  {
    var m := MatchesOf(v, f).value;
    var logins := ContributorLogins(m).value;
    assert |logins| == |m.issuesOpened| + |m.pullsOpened| + |m.comments| + |m.issuesClosed| + |m.pullsClosed| by {
      assert Actors(m.issuesClosed).Ok? && Actors(m.pullsClosed).Ok?;
    }
    assert SingleReport(v, f).value == Report(Text(f), FilterName(f), [
      |m.issuesOpened|, |m.issuesClosed|, |m.pullsOpened|, |m.pullsClosed|, |m.pullsMerged|,
      |m.comments|, |m.commits|, |m.releases|, |Elements(logins)|]);
    ElementsBound(logins);
  }

  /**
   * Every issue counted as opened is in the repository and accepted by
   * the filter, and every accepted issue is counted; likewise closes are
   * closed events, and the closes of issues and of pull requests together
   * are every accepted close.
   */
  lemma MatchesMeaning(v: RepoView, f: MetricFilter)
    requires MatchesOf(v, f).Ok?
    ensures v.allIssues.Ok? && v.events.Ok? && v.allPullRequests.Ok? && v.comments.Ok? && v.commits.Ok? && v.releases.Ok?
    ensures var m := MatchesOf(v, f).value;
      (forall x :: x in m.issuesOpened <==> x in v.allIssues.value && Passes(f, IssueChannel, x) == Ok(true)) &&
      (forall x :: x in m.issuesClosed <==> x in v.events.value && x.event == "closed" && !x.issueIsPR && Passes(f, EventChannel, x) == Ok(true)) &&
      (forall x :: x in m.pullsMerged <==> x in v.events.value && x.event == "merged" && Passes(f, EventChannel, x) == Ok(true)) &&
      (forall x :: x in m.commits <==> x in v.commits.value && Passes(f, CommitChannel, x) == Ok(true))
    ensures var m := MatchesOf(v, f).value;
      Select(f, EventChannel, AnyClosed, v.events.value).Ok? &&
      |m.issuesClosed| + |m.pullsClosed| == |Select(f, EventChannel, AnyClosed, v.events.value).value|
  {
    var m := MatchesOf(v, f).value;
    var issues, events, commits := v.allIssues.value, v.events.value, v.commits.value;
    assert m.issuesOpened == Select(f, IssueChannel, Every, issues).value;
    assert m.issuesClosed == Select(f, EventChannel, ClosedIssues, events).value;
    assert m.pullsClosed == Select(f, EventChannel, ClosedPullRequests, events).value;
    assert m.pullsMerged == Select(f, EventChannel, Merges, events).value;
    assert m.commits == Select(f, CommitChannel, Every, commits).value;
    SelectMeaning(f, IssueChannel, Every, issues);
    SelectMeaning(f, EventChannel, ClosedIssues, events);
    SelectMeaning(f, EventChannel, Merges, events);
    SelectMeaning(f, CommitChannel, Every, commits);
    assert Select(f, EventChannel, AnyClosed, events).Ok? by {
      forall i | 0 <= i < |events| && Picks(AnyClosed, events[i]) ensures Passes(f, EventChannel, events[i]).Ok? {
        assert Picks(ClosedIssues, events[i]) || Picks(ClosedPullRequests, events[i]);
      }
    }
    ClosesSplit(f, events);
  }

  /**
   * A failed read of the repository escapes from the report: the first
   * list whose read fails, in the source's order, gives the exception,
   * unless a filter call on a list read before it raised first.
   */
  lemma ReadFailuresEscape(v: RepoView, f: MetricFilter)
    ensures v.allIssues.Err? ==> MatchesOf(v, f) == Err(v.allIssues.error)
    ensures v.allIssues.Ok? && Select(f, IssueChannel, Every, v.allIssues.value).Ok? && v.events.Err? ==>
      MatchesOf(v, f) == Err(v.events.error)
    ensures MatchesOf(v, f).Err? ==> SingleReport(v, f) == Err(MatchesOf(v, f).error)
    ensures v.allIssues.Err? ==> SingleReport(v, f) == Err(v.allIssues.error)
  {
  }

  // ---------------------------------------------------------------------
  // Periods
  // ---------------------------------------------------------------------

  /** `_MetricsReportSet(start, end)` with its contributions. */
  datatype ReportSet = ReportSet(start: int, end: int, contributions: seq<Report>)

  /** The report of one selector, its filter dated by `date`. */
  function SelectorReport(v: RepoView, date: MetricFilter, selector: string): Result<Report> {
    var f :- ParseSelector(v, date, selector, true);
    SingleReport(v, f)
  }

  /** One report per selector, in order; the first exception escapes. */
  function Contributions(v: RepoView, date: MetricFilter, selectors: seq<string>): (r: Result<seq<Report>>)
    ensures r.Err? ==> exists i :: 0 <= i < |selectors| && SelectorReport(v, date, selectors[i]) == Err(r.error)
    ensures r.Ok? ==> |r.value| == |selectors|
    ensures r.Ok? ==> forall i :: 0 <= i < |selectors| ==> SelectorReport(v, date, selectors[i]) == Ok(r.value[i])
  {
    if selectors == [] then Ok([])
    else
      var rep :- SelectorReport(v, date, selectors[0]);
      var rest :- Contributions(v, date, selectors[1..]);
      Ok([rep] + rest)
  }

  /**
   * `_get_report_for_period(selectors, start, end)`: one report per
   * selector, in order, each the selector's report with its filter
   * restricted to the period.
   */
  function ReportFor(v: RepoView, selectors: seq<string>, start: int, end: int): (r: Result<ReportSet>)
    ensures r.Ok? ==> r.value.start == start && r.value.end == end
    ensures r.Ok? ==> |r.value.contributions| == |selectors|
    ensures r.Ok? ==> forall i :: 0 <= i < |selectors| ==>
      SelectorReport(v, DateRange(start, end), selectors[i]) == Ok(r.value.contributions[i])
    ensures r.Err? ==> exists i :: 0 <= i < |selectors| && SelectorReport(v, DateRange(start, end), selectors[i]) == Err(r.error)
  {
    var reports :- Contributions(v, DateRange(start, end), selectors);
    Ok(ReportSet(start, end, reports))
  }

  /**
   * The periods of `get_report` with a period `p` (in seconds): each runs
   * from its start to one day before the next start, and the last is the
   * first that ends after `end`.
   */
  function Windows(start: int, end: int, p: int): (ws: seq<(int, int)>)
    requires p > 0
    ensures |ws| >= 1
    decreases if end + Day - start < 0 then 0 else end + Day - start
  {
    var periodEnd := start + p - Day;
    if periodEnd > end then [(start, periodEnd)]
    else [(start, periodEnd)] + Windows(start + p, end, p)
  }

  lemma {:induction false} WindowsShape(start: int, end: int, p: int)
    requires p > 0
    ensures var ws := Windows(start, end, p);
      (forall k :: 0 <= k < |ws| ==> ws[k] == (start + k * p, start + (k + 1) * p - Day)) &&
      (forall k :: 0 <= k < |ws| - 1 ==> ws[k].1 <= end) &&
      ws[|ws| - 1].1 > end
    decreases if end + Day - start < 0 then 0 else end + Day - start
  {
    var ws := Windows(start, end, p);
    if start + p - Day <= end {
      WindowsShape(start + p, end, p);
      var rest := Windows(start + p, end, p);
      assert ws == [(start, start + p - Day)] + rest;
      forall k | 1 <= k < |ws| ensures ws[k] == (start + k * p, start + (k + 1) * p - Day) {
        assert ws[k] == rest[k - 1];
        assert (start + p) + (k - 1) * p == start + k * p;
        assert (start + p) + k * p == start + (k + 1) * p;
      }
    }
  }

  lemma WindowsStep(start: int, end: int, p: int)
    requires p > 0
    ensures Windows(start, end, p)[0] == (start, start + p - Day)
    ensures start + p - Day > end ==> |Windows(start, end, p)| == 1
    ensures start + p - Day <= end ==> Windows(start, end, p)[1..] == Windows(start + p, end, p)
  {
  }

  /**
   * One pass of the body of `get_report`'s `while not done` loop, as
   * written: the next `start` and whether the loop is done.
   */
  function PeriodStep(start: int, end: int, p: int): (next: (int, bool))
    ensures next.1 <==> start + p - Day > end
    ensures !next.1 ==> next.0 == start + p
  {
    var periodEnd := start + p - Day;
    if periodEnd > end then (start, true) else (start + p, false)
  }

  /** The loop state after `n` passes, or as soon as it is done. */
  function PeriodSteps(start: int, end: int, p: int, n: nat): (int, bool)
    decreases n
  {
    if n == 0 then (start, false)
    else
      var (next, done) := PeriodStep(start, end, p);
      if done then (next, true) else PeriodSteps(next, end, p, n - 1)
  }

  /**
   * With a zero period (`relativedelta(days=0)`, which the interval type
   * accepts for `0`) and a start no more than a day past `end`, no number
   * of passes ends the loop: `start` never moves and `done` stays false.
   */
  lemma {:induction false} ZeroPeriodNeverEnds(start: int, end: int, n: nat)
    requires start - Day <= end
    ensures PeriodSteps(start, end, 0, n) == (start, false)
  {
    if n > 0 {
      assert PeriodStep(start, end, 0) == (start, false);
      ZeroPeriodNeverEnds(start, end, n - 1);
    }
  }

  /**
   * With a positive period the loop is done after exactly as many passes
   * as there are windows, each pass moving `start` to the next window.
   */
  lemma {:induction false} PositivePeriodEnds(start: int, end: int, p: int)
    requires p > 0
    ensures PeriodSteps(start, end, p, |Windows(start, end, p)|).1
    ensures forall n :: 0 <= n < |Windows(start, end, p)| ==> !PeriodSteps(start, end, p, n).1
    decreases if end + Day - start < 0 then 0 else end + Day - start
  {
    if start + p - Day <= end {
      PositivePeriodEnds(start + p, end, p);
      forall n | 1 <= n < |Windows(start, end, p)|
        ensures PeriodSteps(start, end, p, n) == PeriodSteps(start + p, end, p, n - 1)
      {
      }
    }
  }

  /** The report sets of the windows in order; the first exception escapes. */
  function ReportsOver(report: (int, int) -> Result<ReportSet>, ws: seq<(int, int)>): Result<seq<ReportSet>> {
    if ws == [] then Ok([])
    else
      var first :- report(ws[0].0, ws[0].1);
      var rest :- ReportsOver(report, ws[1..]);
      Ok([first] + rest)
  }

  lemma {:induction false} ReportsOverAppend(report: (int, int) -> Result<ReportSet>, ws: seq<(int, int)>, w: (int, int))
    requires ReportsOver(report, ws).Ok?
    ensures ReportsOver(report, ws + [w]) ==
      (match report(w.0, w.1)
       case Err(e) => Err(e)
       case Ok(s) => Ok(ReportsOver(report, ws).value + [s]))
  {
    if ws == [] {
      assert ws + [w] == [w];
      assert [w][1..] == [];
      assert ReportsOver(report, []) == Ok([]);
      match report(w.0, w.1)
      case Err(_) =>
      case Ok(x) => assert [x] + [] == [] + [x];
    } else {
      assert (ws + [w])[0] == ws[0] && (ws + [w])[1..] == ws[1..] + [w];
      var first := report(ws[0].0, ws[0].1).value;
      var rest := ReportsOver(report, ws[1..]).value;
      assert ReportsOver(report, ws).value == [first] + rest;
      ReportsOverAppend(report, ws[1..], w);
      match report(w.0, w.1)
      case Err(_) =>
      case Ok(x) =>
        assert ReportsOver(report, ws + [w]) == Ok([first] + (rest + [x]));
        assert [first] + (rest + [x]) == ([first] + rest) + [x];
    }
  }

  /** `_get_report_for_period` for the given selectors, as a function of the period. */
  function Reporter(v: RepoView, selectors: seq<string>): (report: (int, int) -> Result<ReportSet>)
    ensures forall start, end :: report(start, end) == ReportFor(v, selectors, start, end)
  {
    (start, end) => ReportFor(v, selectors, start, end)
  }

  /** What `get_report` returns: one report set, or a list of them when a period is given. */
  datatype Output = Single(set_: ReportSet) | Series(sets: seq<ReportSet>)

  /**
   * `get_report(selectors, start, end, period)`: the selectors are
   * expanded once, then each period's reports are computed in turn.
   * The source accepts a zero period, for which the loop never ends
   * (`ZeroPeriodNeverEnds`); the method is stated for the positive
   * periods, for which it does (`PositivePeriodEnds`).
   */
  method GetReport(v: RepoView, selectors: seq<string>, start: int, end: int, period: Option<int>) returns (r: Result<Output>)
    requires period.Some? ==> period.value > 0
    ensures ExpandWildcards(v, selectors).Err? ==> r == Err(ExpandWildcards(v, selectors).error)
    ensures ExpandWildcards(v, selectors).Ok? && period.None? ==>
      var one := ReportFor(v, ExpandWildcards(v, selectors).value, start, end);
      r == if one.Ok? then Ok(Single(one.value)) else Err(one.error)
    ensures ExpandWildcards(v, selectors).Ok? && period.Some? ==>
      var all := ReportsOver(Reporter(v, ExpandWildcards(v, selectors).value), Windows(start, end, period.value));
      r == if all.Ok? then Ok(Series(all.value)) else Err(all.error)
  {
    var expanded := ExpandWildcards(v, selectors);
    if expanded.Err? {
      return Err(expanded.error);
    }
    if period.None? {
      var one := ReportFor(v, expanded.value, start, end);
      if one.Err? {
        return Err(one.error);
      }
      return Ok(Single(one.value));
    }
    var all := ReportSeries(Reporter(v, expanded.value), start, end, period.value);
    if all.Err? {
      return Err(all.error);
    }
    return Ok(Series(all.value));
  }

  /** The loop of `get_report`: one report set per period until a period ends after `end`. */
  method ReportSeries(report: (int, int) -> Result<ReportSet>, start: int, end: int, p: int) returns (r: Result<seq<ReportSet>>)
    requires p > 0
    ensures r == ReportsOver(report, Windows(start, end, p))
  {
    ghost var ws := Windows(start, end, p);
    ghost var k := 0;
    var s := start;
    var done := false;
    var reports: seq<ReportSet> := [];
    while !done
      invariant 0 <= k <= |ws|
      invariant ReportsOver(report, ws[..k]) == Ok(reports)
      invariant !done ==> k < |ws| && Windows(s, end, p) == ws[k..]
      invariant done ==> k == |ws|
      decreases if done then 0 else 1 + |ws| - k
    {
      var periodEnd := s + p - Day;
      WindowsStep(s, end, p);
      assert ws[k] == (s, periodEnd);
      var one := report(s, periodEnd);
      ReportsOverStep(report, ws, k, reports);
      if one.Err? {
        return Err(one.error);
      }
      reports := reports + [one.value];
      if periodEnd > end {
        done := true;
      } else {
        assert ws[k + 1..] == ws[k..][1..];
        s := s + p;
      }
      k := k + 1;
    }
    assert ws[..k] == ws;
    return Ok(reports);
  }

  /** One more window: its report set is appended, or its exception is the result for all windows. */
  lemma ReportsOverStep(report: (int, int) -> Result<ReportSet>, ws: seq<(int, int)>, k: nat, reports: seq<ReportSet>)
    requires k < |ws| && ReportsOver(report, ws[..k]) == Ok(reports)
    ensures report(ws[k].0, ws[k].1).Err? ==>
      ReportsOver(report, ws) == Err(report(ws[k].0, ws[k].1).error)
    ensures report(ws[k].0, ws[k].1).Ok? ==>
      ReportsOver(report, ws[..k + 1]) == Ok(reports + [report(ws[k].0, ws[k].1).value])
  {
    ReportsOverAppend(report, ws[..k], ws[k]);
    assert ws[..k + 1] == ws[..k] + [ws[k]];
    if report(ws[k].0, ws[k].1).Err? {
      ReportsOverError(report, ws, k + 1);
    }
  }

  /** Once a prefix of the windows fails, all of them do, with the same exception. */
  lemma {:induction false} ReportsOverError(report: (int, int) -> Result<ReportSet>, ws: seq<(int, int)>, k: nat)
    requires 0 < k <= |ws| && ReportsOver(report, ws[..k]).Err?
    ensures ReportsOver(report, ws) == Err(ReportsOver(report, ws[..k]).error)
  {
    assert ws[..k][0] == ws[0] && ws[..k][1..] == ws[1..][..k - 1];
    if report(ws[0].0, ws[0].1).Ok? {
      ReportsOverError(report, ws[1..], k - 1);
    }
  }
}
