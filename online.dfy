/**
 * `OnlineRepositoryProvider`: fetching records from the forge's paginated
 * REST API. The HTTP layer is an oracle `Api`: for an operation and the
 * `since=` argument it is given, it yields the answer to the first call
 * (made without `page=`) and the answers to the numbered pages
 * `1 .. last_page`, where `last_page` is what the `Link` header of the
 * first answer announces (0 when there is a single page).
 */
module Online {
  import opened Common
  import opened Items

  /** The API endpoints the provider calls. */
  datatype Operation =
    | ListIssues          // issues.list_for_repo(state='all')
    | ListComments        // issues.list_comments_for_repo
    | ListLabels          // issues.list_labels_for_repo
    | ListEvents          // issues.list_events_for_repo
    | ListCommits         // repos.list_commits
    | ListReleases        // repos.list_releases
    | ListContributors    // repos.list_contributors
    | ListTeams           // teams.list
    | ListCollaborators   // repos.list_collaborators
    | ListTeamMembers(slug: string)  // teams.list_members_in_org(team_slug=slug)

  /** The answer to one call: a page of records, or the exception the call raised. */
  datatype Response = Page(records: seq<Record>) | Failure(error: Error)

  /** The answer to the unnumbered first call, then pages 1 .. last_page. */
  datatype Endpoint = Endpoint(first: Response, pages: seq<Response>)

  type Api = (Operation, Option<int>) -> Endpoint

  /** The pseudo-team standing for the repository collaborators. */
  const Collaborators: string := "__collaborators"

  /** The calls that take no `since=` argument (`_calls_without_since`). */
  predicate SupportsSince(op: Operation) {
    op != ListEvents && op != ListReleases
  }

  /** The operation `get_data` uses for an item type (`_calls` and the special cases). */
  function OperationFor(t: ItemType): Operation {
    match t
    case ISSUES => ListIssues
    case COMMENTS => ListComments
    case LABELS => ListLabels
    case EVENTS => ListEvents
    case COMMITS => ListCommits
    case RELEASES => ListReleases
    case TEAMS => ListTeams
    case COMMITTERS => ListContributors
  }

  // ---------------------------------------------------------------------
  // Specification of the pagination loops
  // ---------------------------------------------------------------------

  function RecordsOf(p: Response): seq<Record> {
    if p.Page? then p.records else []
  }

  /** The records of the given pages, concatenated in page order. */
  function Flatten(pages: seq<Response>): seq<Record> {
    if pages == [] then [] else RecordsOf(pages[0]) + Flatten(pages[1..])
  }

  lemma {:induction false} FlattenSnoc(pages: seq<Response>, p: Response)
    ensures Flatten(pages + [p]) == Flatten(pages) + RecordsOf(p)
  {
    if pages != [] {
      assert (pages + [p])[1..] == pages[1..] + [p];
      FlattenSnoc(pages[1..], p);
    }
  }

  /** Index of the first failing page, if any. */
  function FirstFailure(pages: seq<Response>): (r: Option<nat>)
    ensures r.Some? ==> r.value < |pages| && pages[r.value].Failure?
    ensures r.Some? ==> forall j :: 0 <= j < r.value ==> pages[j].Page?
    ensures r.None? ==> forall j :: 0 <= j < |pages| ==> pages[j].Page?
  {
    if pages == [] then None
    else if pages[0].Failure? then Some(0)
    else match FirstFailure(pages[1..])
      case None => None
      case Some(i) => Some(i + 1)
  }

  /**
   * What the page-concatenation loop produces: the first answer followed by
   * pages 1 .. last_page in order, or the exception of the first call that
   * failed.
   */
  function Paged(e: Endpoint): Result<seq<Record>> {
    if e.first.Failure? then Err(e.first.error)
    else match FirstFailure(e.pages)
      case Some(i) => Err(e.pages[i].error)
      case None => Ok(e.first.records + Flatten(e.pages))
  }

  function Last(s: seq<Record>): Record
    requires s != []
  {
    s[|s| - 1]
  }

  /** `_fetch_since`'s loop, from the records accumulated so far and the pages not yet asked for. */
  function SinceGather(acc: seq<Record>, rest: seq<Response>, since: int): Result<seq<Record>>
    decreases |rest|
  {
    if rest == [] then Ok(acc)
    else if acc == [] then Err(IndexError)
    else if Last(acc).createdAt <= since then Ok(acc)
    else if rest[0].Failure? then Err(rest[0].error)
    else SinceGather(acc + rest[0].records, rest[1..], since)
  }

  /** How many numbered pages that loop asks for. */
  function SinceAsked(acc: seq<Record>, rest: seq<Response>, since: int): (n: nat)
    ensures n <= |rest|
    decreases |rest|
  {
    if rest == [] || acc == [] || Last(acc).createdAt <= since || rest[0].Failure? then
      (if rest != [] && acc != [] && Last(acc).createdAt > since then 1 else 0)
    else 1 + SinceAsked(acc + rest[0].records, rest[1..], since)
  }

  /** `[i for i in things if gh2date(i.created_at) >= since]`. */
  function NotBefore(since: int, things: seq<Record>): seq<Record> {
    Filter((r: Record) => r.createdAt >= since, things)
  }

  /** `_fetch_since` on an endpoint that was called without `since=`. */
  function PagedSince(e: Endpoint, since: int): Result<seq<Record>> {
    if e.first.Failure? then Err(e.first.error)
    else match SinceGather(e.first.records, e.pages, since)
      case Err(x) => Err(x)
      case Ok(things) => Ok(NotBefore(since, things))
  }

  /** `_fetch(apicall, since=since)`. */
  function Fetched(api: Api, op: Operation, since: Option<int>): Result<seq<Record>> {
    if since.Some? && !SupportsSince(op) then PagedSince(api(op, None), since.value)
    else Paged(api(op, since))
  }


  // ---------------------------------------------------------------------
  // The shared default `apiargs` of `_fetch`, as written
  // ---------------------------------------------------------------------

  /**
   * The calls that reach `_fetch` with its default `apiargs` dictionary:
   * all but the issue listing and a team's member listing, which pass a
   * dictionary of their own. The contributor listing does not go through
   * `_fetch` at all.
   */
  predicate UsesDefaultArgs(op: Operation) {
    op != ListIssues && !op.ListTeamMembers? && op != ListContributors
  }

  /**
   * The `since=` the default dictionary holds after `_fetch(op, since=since)`
   * when it held `held` before. The dictionary is created once, when the
   * method is defined, and shared by every call that does not pass its own;
   * `apiargs['since'] = ...` writes into it and nothing removes the entry.
   */
  function HeldAfter(op: Operation, since: Option<int>, held: Option<int>): Option<int> {
    if UsesDefaultArgs(op) && since.Some? && SupportsSince(op) then since else held
  }

  /** `_fetch(op, since=since)` as written, while the default dictionary holds `held`. */
  function FetchedAsWritten(api: Api, op: Operation, since: Option<int>, held: Option<int>): Result<seq<Record>> {
    var args := if UsesDefaultArgs(op) then held else None;
    if since.Some? && !SupportsSince(op) then PagedSince(api(op, args), since.value)
    else Paged(api(op, if since.Some? then since else args))
  }

  /** Until some call has written a `since=` into the shared dictionary, the code as written is `Fetched`. */
  lemma FetchedAsWrittenBeforeLeak(api: Api, op: Operation, since: Option<int>)
    ensures FetchedAsWritten(api, op, since, None) == Fetched(api, op, since)
    ensures since.None? || !UsesDefaultArgs(op) || !SupportsSince(op) ==> HeldAfter(op, since, None) == None
  {
  }

  /**
   * `get_data(COMMENTS, since=x)`, then `get_data(COMMITS)`: the second call
   * is meant to list every commit, but as written it asks for the commits
   * since `x`; so are the label, team and collaborator listings, and the
   * events and releases are asked with `since=x` as well. Once written,
   * the entry stays for the rest of the process.
   */
  lemma SinceLeaksIntoLaterFetches(api: Api, x: int, op: Operation, since: Option<int>)
    ensures HeldAfter(ListComments, Some(x), None) == Some(x)
    ensures FetchedAsWritten(api, ListCommits, None, Some(x)) == Paged(api(ListCommits, Some(x)))
    ensures Fetched(api, ListCommits, None) == Paged(api(ListCommits, None))
    ensures FetchedAsWritten(api, ListTeams, None, Some(x)) == Paged(api(ListTeams, Some(x)))
    ensures FetchedAsWritten(api, ListCollaborators, None, Some(x)) == Paged(api(ListCollaborators, Some(x)))
    ensures FetchedAsWritten(api, ListReleases, Some(x), Some(x)) == PagedSince(api(ListReleases, Some(x)), x)
    ensures HeldAfter(op, since, Some(x)).Some?
  {
  }

  /** `_fetch_team_members`: a client error (4xx) yields no members instead of an exception. */
  function Members(api: Api, slug: string): (r: Result<seq<string>>)
    ensures r.Err? ==> r.error != HttpClientError
  {
    var fetched :=
      if slug == Collaborators then Fetched(api, ListCollaborators, None)
      else Fetched(api, ListTeamMembers(slug), None);
    match fetched
    case Ok(users) => Ok(Logins(users))
    case Err(HttpClientError) => Ok([])
    case Err(x) => Err(x)
  }

  /** The team loop of `_fetch_teams`, from the teams done so far and those still to do. */
  function SetMembers(api: Api, done: seq<Record>, todo: seq<Record>): Result<seq<Record>>
    decreases |todo|
  {
    if todo == [] then Ok(done)
    else match Members(api, todo[0].slug)
      case Err(x) => Err(x)
      case Ok(m) => SetMembers(api, done + [todo[0].(members := m)], todo[1..])
  }

  /** `_fetch_teams`. */
  function TeamList(api: Api): Result<seq<Record>> {
    var listed := Fetched(api, ListTeams, None);
    if listed.Err? && listed.error != HttpClientError then Err(listed.error)
    else SetMembers(api, [], [TeamStub(Collaborators)] + (if listed.Ok? then listed.value else []))
  }

  /** `OnlineRepositoryProvider.get_data`. */
  function Provided(api: Api, t: ItemType, since: Option<int>): Result<seq<Record>> {
    match t
    case TEAMS => TeamList(api)
    case COMMITTERS => Paged(api(ListContributors, None))
    case _ => Fetched(api, OperationFor(t), since)
  }

  // ---------------------------------------------------------------------
  // The provider
  // ---------------------------------------------------------------------

  /**
   * The page-concatenation loop shared by `_fetch` and `_fetch_committers`:
   * the first answer, then pages 1 .. last_page appended one by one.
   */
  method Paginate(e: Endpoint) returns (r: Result<seq<Record>>)
    ensures r == Paged(e)
  {
    if e.first.Failure? {
      return Err(e.first.error);
    }
    var things := e.first.records;
    var lastPage := |e.pages|;
    var page := 0;
    while page < lastPage
      invariant 0 <= page <= lastPage
      invariant forall j :: 0 <= j < page ==> e.pages[j].Page?
      invariant things == e.first.records + Flatten(e.pages[..page])
    {
      page := page + 1;
      var answer := e.pages[page - 1];
      if answer.Failure? {
        return Err(answer.error);
      }
      assert e.pages[..page] == e.pages[..page - 1] + [answer];
      FlattenSnoc(e.pages[..page - 1], answer);
      things := things + answer.records;
    }
    assert e.pages[..page] == e.pages;
    return Ok(things);
  }

  class OnlineProvider {
    const api: Api

    constructor(api: Api)
      ensures this.api == api
    {
      this.api := api;
    }

    method GetData(t: ItemType, since: Option<int>) returns (r: Result<seq<Record>>)
      ensures r == Provided(api, t, since)
    {
      if t == ISSUES {
        r := Fetch(ListIssues, since);
      } else if t == TEAMS {
        r := FetchTeams();
      } else if t == COMMITTERS {
        r := FetchCommitters();
      } else {
        r := Fetch(OperationFor(t), since);
      }
    }

    method FetchCommitters() returns (r: Result<seq<Record>>)
      ensures r == Paged(api(ListContributors, None))
    {
      r := Paginate(api(ListContributors, None));
    }

    method Fetch(op: Operation, since: Option<int>) returns (r: Result<seq<Record>>)
      ensures r == Fetched(api, op, since)
    {
      if since.Some? && !SupportsSince(op) {
        r := FetchSince(op, since.value);
        return;
      }
      r := Paginate(api(op, since));
    }

    method FetchSince(op: Operation, since: int) returns (r: Result<seq<Record>>)
      ensures r == PagedSince(api(op, None), since)
    {
      var e := api(op, None);
      if e.first.Failure? {
        return Err(e.first.error);
      }
      var things := e.first.records;
      var lastPage := |e.pages|;
      var page := 0;
      var loop := true;
      while loop && page < lastPage
        invariant 0 <= page <= lastPage
        invariant loop ==> SinceGather(things, e.pages[page..], since) == SinceGather(e.first.records, e.pages, since)
        invariant !loop ==> SinceGather(e.first.records, e.pages, since) == Ok(things)
        decreases lastPage - page, loop
      {
        if things == [] {
          return Err(IndexError);
        }
        if Last(things).createdAt <= since {
          loop := false;
        } else {
          page := page + 1;
          var answer := e.pages[page - 1];
          if answer.Failure? {
            return Err(answer.error);
          }
          assert e.pages[page - 1..][1..] == e.pages[page..];
          things := things + answer.records;
        }
      }
      return Ok(NotBefore(since, things));
    }

    method FetchTeams() returns (r: Result<seq<Record>>)
      ensures r == TeamList(api)
    {
      var teams := [TeamStub(Collaborators)];
      var listed := Fetch(ListTeams, None);
      if listed.Ok? {
        teams := teams + listed.value;
      } else if listed.error != HttpClientError {
        return Err(listed.error);
      }
      var i := 0;
      while i < |teams|
        invariant 0 <= i <= |teams|
        invariant SetMembers(api, teams[..i], teams[i..]) == TeamList(api)
      {
        var members := FetchTeamMembers(teams[i].slug);
        if members.Err? {
          return Err(members.error);
        }
        var team := teams[i].(members := members.value);
        assert teams[i..][1..] == teams[i + 1..];
        teams := teams[i := team];
        assert teams[..i + 1] == teams[..i] + [team];
        i := i + 1;
      }
      assert teams[..i] == teams;
      return Ok(teams);
    }

    method FetchTeamMembers(slug: string) returns (r: Result<seq<string>>)
      ensures r == Members(api, slug)
    {
      var fetched;
      if slug == Collaborators {
        fetched := Fetch(ListCollaborators, None);
      } else {
        fetched := Fetch(ListTeamMembers(slug), None);
      }
      if fetched.Ok? {
        r := Ok(Logins(fetched.value));
      } else if fetched.error == HttpClientError {
        r := Ok([]);
      } else {
        r := Err(fetched.error);
      }
    }
  }

  // ---------------------------------------------------------------------
  // Properties
  // ---------------------------------------------------------------------

  /** Teams and committers are always fetched in full: `since` is not passed on. */
  lemma TeamsAndCommittersIgnoreSince(api: Api, s1: Option<int>, s2: Option<int>)
    ensures Provided(api, TEAMS, s1) == Provided(api, TEAMS, s2)
    ensures Provided(api, COMMITTERS, s1) == Provided(api, COMMITTERS, s2) == Paged(api(ListContributors, None))
  {
  }

  /** Events and releases are fetched without `since=` and filtered afterwards; the other calls pass it on. */
  lemma SinceRouting(api: Api, t: ItemType, since: int)
    requires t !in {TEAMS, COMMITTERS}
    ensures t in {EVENTS, RELEASES} ==> Provided(api, t, Some(since)) == PagedSince(api(OperationFor(t), None), since)
    ensures t !in {EVENTS, RELEASES} ==> Provided(api, t, Some(since)) == Paged(api(OperationFor(t), Some(since)))
    ensures Provided(api, t, None) == Paged(api(OperationFor(t), None))
  {
  }

  /**
   * The first call and page 1 are the same request: whenever the listing
   * spans several pages, the records of the first page come back twice,
   * one copy right after the other.
   */
  lemma FetchRepeatsFirstPage(e: Endpoint)
    requires e.first.Page? && |e.pages| >= 1 && e.pages[0] == e.first
    requires forall j :: 0 <= j < |e.pages| ==> e.pages[j].Page?
    ensures Paged(e).Ok?
    ensures Paged(e).value == e.first.records + e.first.records + Flatten(e.pages[1..])
  {
    assert FirstFailure(e.pages) == None;
  }

  lemma {:induction false} SinceGatherKeepsPrefix(acc: seq<Record>, rest: seq<Response>, since: int)
    requires SinceGather(acc, rest, since).Ok?
    ensures var k := SinceAsked(acc, rest, since);
      k <= |rest| &&
      (forall j :: 0 <= j < k ==> rest[j].Page?) &&
      SinceGather(acc, rest, since).value == acc + Flatten(rest[..k]) &&
      (k < |rest| ==> acc + Flatten(rest[..k]) != [] && Last(acc + Flatten(rest[..k])).createdAt <= since) &&
      (forall j :: 0 <= j < k ==> acc + Flatten(rest[..j]) != [] && Last(acc + Flatten(rest[..j])).createdAt > since)
    decreases |rest|
  {
    if rest == [] || acc == [] || Last(acc).createdAt <= since || rest[0].Failure? {
      assert rest[..0] == [];
    } else {
      var acc' := acc + rest[0].records;
      var k' := SinceAsked(acc', rest[1..], since);
      SinceGatherKeepsPrefix(acc', rest[1..], since);
      var k := k' + 1;
      assert k == SinceAsked(acc, rest, since);
      forall j | 0 <= j <= k
        ensures acc + Flatten(rest[..j]) == (if j == 0 then acc else acc' + Flatten(rest[1..][..j - 1]))
      {
        if j > 0 {
          assert rest[..j][1..] == rest[1..][..j - 1];
          assert acc + Flatten(rest[..j]) == acc + (rest[0].records + Flatten(rest[1..][..j - 1]));
        } else {
          assert rest[..0] == [];
        }
      }
      forall j | 0 <= j < k
        ensures acc + Flatten(rest[..j]) != [] && Last(acc + Flatten(rest[..j])).createdAt > since
      {
        if j > 0 {
          assert acc + Flatten(rest[..j]) == acc' + Flatten(rest[1..][..j - 1]);
        }
      }
    }
  }

  /**
   * `_fetch_since` keeps, in their original order, the records created at or
   * after `since` among the first answer and the first k numbered pages, where
   * k is where it stopped: the pages it asked for all ended after `since`, and
   * unless it ran out of pages, the last record it had was at or before `since`.
   */
  lemma FetchSinceStops(e: Endpoint, since: int)
    requires PagedSince(e, since).Ok?
    ensures var k := SinceAsked(e.first.records, e.pages, since);
      var seen := e.first.records + Flatten(e.pages[..k]);
      k <= |e.pages| &&
      PagedSince(e, since).value == NotBefore(since, seen) &&
      (k < |e.pages| ==> seen != [] && Last(seen).createdAt <= since) &&
      (forall j :: 0 <= j < k ==>
         e.first.records + Flatten(e.pages[..j]) != [] &&
         Last(e.first.records + Flatten(e.pages[..j])).createdAt > since)
  {
    SinceGatherKeepsPrefix(e.first.records, e.pages, since);
  }

  /** The records `_fetch_since` returns are exactly those it saw that were created at or after `since`. */
  lemma NotBeforeExact(since: int, things: seq<Record>)
    ensures forall r :: r in NotBefore(since, things) <==> r in things && r.createdAt >= since
    ensures forall a, b :: NotBefore(since, a + b) == NotBefore(since, a) + NotBefore(since, b)
  {
    var p := (r: Record) => r.createdAt >= since;
    forall r | r in things && r.createdAt >= since ensures r in NotBefore(since, things) {
      FilterKeeps(p, things, r);
    }
    forall a, b ensures NotBefore(since, a + b) == NotBefore(since, a) + NotBefore(since, b) {
      FilterAppend(p, a, b);
    }
  }

  /** When the first answer already reaches back to `since`, no numbered page is requested. */
  lemma FetchSinceFirstPageSuffices(e: Endpoint, since: int)
    requires e.first.Page? && e.first.records != [] && Last(e.first.records).createdAt <= since
    ensures SinceAsked(e.first.records, e.pages, since) == 0
    ensures PagedSince(e, since) == Ok(NotBefore(since, e.first.records))
  {
  }

  lemma {:induction false} SetMembersShape(api: Api, done: seq<Record>, todo: seq<Record>)
    ensures SetMembers(api, done, todo).Err? ==> SetMembers(api, done, todo).error != HttpClientError
    ensures SetMembers(api, done, todo).Ok? ==>
      var v := SetMembers(api, done, todo).value;
      |v| == |done| + |todo| && v[..|done|] == done &&
      forall j :: 0 <= j < |todo| ==>
        Members(api, todo[j].slug).Ok? && v[|done| + j] == todo[j].(members := Members(api, todo[j].slug).value)
    decreases |todo|
  {
    if todo != [] && Members(api, todo[0].slug).Ok? {
      var done' := done + [todo[0].(members := Members(api, todo[0].slug).value)];
      SetMembersShape(api, done', todo[1..]);
      if SetMembers(api, done, todo).Ok? {
        var v := SetMembers(api, done, todo).value;
        assert v[..|done'|][..|done|] == v[..|done|];
        forall j | 0 <= j < |todo|
          ensures Members(api, todo[j].slug).Ok? && v[|done| + j] == todo[j].(members := Members(api, todo[j].slug).value)
        {
          if j > 0 {
            assert todo[j] == todo[1..][j - 1];
          } else {
            assert v[|done|] == v[..|done'|][|done|];
          }
        }
      }
    }
  }

  /**
   * The team list: `__collaborators` first, then the listed teams in order,
   * each with the logins its member fetch returned (none after a 4xx). A 4xx
   * on the team list leaves `__collaborators` alone, and a 4xx never escapes.
   */
  lemma TeamListShape(api: Api)
    ensures TeamList(api).Err? ==> TeamList(api).error != HttpClientError
    ensures TeamList(api).Ok? ==>
      var teams := TeamList(api).value;
      var listed := Fetched(api, ListTeams, None);
      var expected := [TeamStub(Collaborators)] + (if listed.Ok? then listed.value else []);
      |teams| == |expected| && teams[0].slug == Collaborators &&
      (listed.Err? ==> listed.error == HttpClientError && |teams| == 1) &&
      forall j :: 0 <= j < |teams| ==>
        teams[j].slug == expected[j].slug &&
        Members(api, expected[j].slug).Ok? && teams[j].members == Members(api, expected[j].slug).value
  {
    var listed := Fetched(api, ListTeams, None);
    var expected := [TeamStub(Collaborators)] + (if listed.Ok? then listed.value else []);
    SetMembersShape(api, [], expected);
  }

  /** A member list the forge refuses (4xx) reads as an empty roster. */
  lemma MembersClientErrorIsEmpty(api: Api, slug: string)
    requires slug == Collaborators ==> Fetched(api, ListCollaborators, None) == Err(HttpClientError)
    requires slug != Collaborators ==> Fetched(api, ListTeamMembers(slug), None) == Err(HttpClientError)
    ensures Members(api, slug) == Ok([])
  {
  }
}
