/**
 * The records the forge returns and the accessors that the typed wrappers
 * (`RepositoryItem`, `IssueItem`, `EventItem`, `CommitItem`, `ReleaseItem`)
 * put on top of them. The three provider generations share this code
 * unchanged; a record carries the wrapper it was tagged with as `kind`.
 */
module Items {
  import opened Common

  /** `RepositoryItemType`: one cache file, one fetch path and one wrapper per value. */
  datatype ItemType = ISSUES | COMMENTS | TEAMS | LABELS | EVENTS | COMMITS | RELEASES | COMMITTERS

  /** The wrapper class a record answers to; `Untyped` is a bare record as fetched. */
  datatype Kind = Untyped | Plain | Issue | Event | Commit | Release

  /**
   * One record. Timestamps are integer seconds. Only the fields the core
   * interprets are kept; a field a record type does not have holds a
   * default the accessors of that type never read.
   */
  datatype Record = Record(
    kind: Kind,
    id: int,                    // `id` (issues, comments, events, releases, labels)
    number: int,                // `number` (issues and pull requests)
    sha: string,                // `sha` (commits)
    slug: string,               // `slug` (teams)
    login: string,              // `login` (committers, team members)
    name: string,               // `name` (labels)
    createdAt: int,             // `created_at`
    updatedAt: int,             // `updated_at`
    commitDate: int,            // `commit.author.date` (commits)
    commitAuthorName: string,   // `commit.author.name` (commits)
    closedAt: Option<int>,      // `closed_at` (issues)
    user: string,               // `user.login` (issues, comments)
    actor: Option<string>,      // `actor.login`, None when `actor` is null (events)
    author: Option<string>,     // `author.login`, None when `author` is null (commits, releases)
    labels: seq<string>,        // names of `labels` (issues)
    isPR: bool,                 // `hasattr(item, 'pull_request')` (issues)
    event: string,              // `event` (events: "closed", "merged", ...)
    issueLabels: seq<string>,   // names of `issue.labels` (events)
    issueIsPR: bool,            // `hasattr(item.issue, 'pull_request')` (events)
    members: seq<string>        // logins of `members` (teams, filled by the team fetch)
  )

  /**
   * `get_data(item_type, since)` of the provider a cache sits in front of:
   * the records it returns, or the exception it raises.
   */
  type Backend = (ItemType, Option<int>) -> Result<seq<Record>>

  /** A record holding only a team slug, as `AttrDict({'slug': ...})` builds it. */
  function TeamStub(slug: string): (r: Record)
    ensures r.slug == slug && r.members == [] && r.kind == Untyped
  {
    Record(Untyped, 0, 0, "", slug, "", "", 0, 0, 0, "", None, "", None, None, [], false, "", [], false, [])
  }

  // ---------------------------------------------------------------------
  // Accessors
  // ---------------------------------------------------------------------

  /** `creation_time`: commits date from their git author, everything else from `created_at`. */
  function CreationTime(r: Record): int {
    if r.kind == Commit then r.commitDate else r.createdAt
  }

  /** `_filter_time`: strictly after `after` and strictly before `before`; an absent bound does not constrain. */
  predicate FilterTime(time: int, after: Option<int>, before: Option<int>) {
    (after.None? || time > after.value) && (before.None? || time < before.value)
  }

  /** `created(after, before)`. */
  predicate Created(r: Record, after: Option<int>, before: Option<int>) {
    FilterTime(CreationTime(r), after, before)
  }

  /** `updated(after, before)`. */
  predicate Updated(r: Record, after: Option<int>, before: Option<int>) {
    FilterTime(r.updatedAt, after, before)
  }

  /** `IssueItem.closed(after, before)`: never for an issue without `closed_at`. */
  predicate Closed(r: Record, after: Option<int>, before: Option<int>) {
    r.closedAt.Some? && FilterTime(r.closedAt.value, after, before)
  }

  /** `user_name` as each wrapper defines it. */
  function UserName(r: Record): Option<string> {
    match r.kind
    case Event => r.actor
    case Commit => if r.author.Some? then r.author else Some(r.commitAuthorName)
    case Release => r.author
    case _ => Some(r.user)
  }

  /** `label_strings` as each wrapper defines it. */
  function LabelStrings(r: Record): seq<string> {
    match r.kind
    case Issue => r.labels
    case Event => r.issueLabels
    case _ => []
  }

  lemma FilterTimeExact(time: int, after: Option<int>, before: Option<int>)
    ensures FilterTime(time, after, before) <==>
      (after.Some? ==> after.value < time) && (before.Some? ==> time < before.value)
    ensures FilterTime(time, None, None)
    ensures after.Some? && time == after.value ==> !FilterTime(time, after, before)
    ensures before.Some? && time == before.value ==> !FilterTime(time, after, before)
  {
  }

  lemma ClosedNeedsCloseTime(r: Record, after: Option<int>, before: Option<int>)
    ensures r.closedAt.None? ==> !Closed(r, after, before)
    ensures r.closedAt.Some? ==> (Closed(r, after, before) <==> FilterTime(r.closedAt.value, after, before))
  {
  }

  /** The fallbacks of `user_name` and `label_strings` for each wrapper. */
  lemma UserNameFallbacks(r: Record)
    ensures r.kind == Event ==> (UserName(r).None? <==> r.actor.None?)
    ensures r.kind == Release ==> (UserName(r).None? <==> r.author.None?)
    ensures r.kind == Commit ==> UserName(r).Some?
    ensures r.kind == Commit && r.author.None? ==> UserName(r) == Some(r.commitAuthorName)
    ensures r.kind in {Plain, Issue, Untyped} ==> UserName(r) == Some(r.user)
    ensures r.kind == Issue ==> LabelStrings(r) == r.labels
    ensures r.kind == Event ==> LabelStrings(r) == r.issueLabels
    ensures r.kind in {Plain, Commit, Release, Untyped} ==> LabelStrings(r) == []
    ensures r.kind == Commit ==> CreationTime(r) == r.commitDate
    ensures r.kind != Commit ==> CreationTime(r) == r.createdAt
  {
  }

  // ---------------------------------------------------------------------
  // Issues versus pull requests
  // ---------------------------------------------------------------------

  predicate IsPullRequest(r: Record) { r.isPR }

  predicate IsPlainIssue(r: Record) { !r.isPR }

  /** `RepositoryProvider.issues`: the ISSUES records without `pull_request`. */
  function IssuesOf(all: seq<Record>): seq<Record> {
    Filter(IsPlainIssue, all)
  }

  /** `RepositoryProvider.pull_requests`: the ISSUES records with `pull_request`. */
  function PullRequestsOf(all: seq<Record>): seq<Record> {
    Filter(IsPullRequest, all)
  }

  /**
   * The two views split the ISSUES list: every record lands in exactly one
   * of them, and each view keeps the records in their original order
   * (it commutes with concatenation).
   */
  lemma IssuesAndPullRequestsPartition(all: seq<Record>)
    ensures |IssuesOf(all)| + |PullRequestsOf(all)| == |all|
    ensures multiset(IssuesOf(all)) + multiset(PullRequestsOf(all)) == multiset(all)
    ensures forall r :: r in IssuesOf(all) <==> r in all && !r.isPR
    ensures forall r :: r in PullRequestsOf(all) <==> r in all && r.isPR
  {
    FilterPartition(IsPlainIssue, IsPullRequest, all);
    forall r | r in all && !r.isPR ensures r in IssuesOf(all) {
      FilterKeeps(IsPlainIssue, all, r);
    }
    forall r | r in all && r.isPR ensures r in PullRequestsOf(all) {
      FilterKeeps(IsPullRequest, all, r);
    }
  }

  lemma IssueViewsKeepOrder(a: seq<Record>, b: seq<Record>)
    ensures IssuesOf(a + b) == IssuesOf(a) + IssuesOf(b)
    ensures PullRequestsOf(a + b) == PullRequestsOf(a) + PullRequestsOf(b)
  {
    FilterAppend(IsPlainIssue, a, b);
    FilterAppend(IsPullRequest, a, b);
  }

  // ---------------------------------------------------------------------
  // Open items (the `Repository.issues` / `pull_requests` views)
  // ---------------------------------------------------------------------

  predicate IsOpen(r: Record) { r.closedAt.None? }

  /** `[i for i in items if i.closed_at is None]`. */
  function OpenOnly(items: seq<Record>): seq<Record> {
    Filter(IsOpen, items)
  }

  lemma OpenOnlyExact(items: seq<Record>)
    ensures forall r :: r in OpenOnly(items) <==> r in items && r.closedAt.None?
    ensures forall a, b :: OpenOnly(a + b) == OpenOnly(a) + OpenOnly(b)
  {
    forall r | r in items && r.closedAt.None? ensures r in OpenOnly(items) {
      FilterKeeps(IsOpen, items, r);
    }
    forall a, b ensures OpenOnly(a + b) == OpenOnly(a) + OpenOnly(b) {
      FilterAppend(IsOpen, a, b);
    }
  }

  // ---------------------------------------------------------------------
  // Logins
  // ---------------------------------------------------------------------

  /** `[u.login for u in users]`. */
  function Logins(users: seq<Record>): (r: seq<string>)
    ensures |r| == |users| && forall i :: 0 <= i < |users| ==> r[i] == users[i].login
  {
    seq(|users|, i requires 0 <= i < |users| => users[i].login)
  }

  /** `[x.user.login for x in xs]`. */
  function Users(xs: seq<Record>): (us: seq<string>)
    ensures |us| == |xs|
  {
    seq(|xs|, i requires 0 <= i < |xs| => xs[i].user)
  }

  /** `[e.actor.login for e in es]`: AttributeError on an event without actor. */
  function Actors(es: seq<Record>): (r: Result<seq<string>>)
    ensures r.Ok? <==> forall i :: 0 <= i < |es| ==> es[i].actor.Some?
    ensures r.Ok? ==> |r.value| == |es| && forall i :: 0 <= i < |es| ==> r.value[i] == es[i].actor.value
    ensures r.Err? ==> r.error == AttributeError
  {
    if forall i :: 0 <= i < |es| ==> es[i].actor.Some? then
      Ok(seq(|es|, i requires 0 <= i < |es| => es[i].actor.value))
    else Err(AttributeError)
  }

  /** A login created by a bot account. */
  predicate IsBot(login: string) {
    EndsWith(login, "[bot]")
  }
}
