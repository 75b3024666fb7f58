/**
 * `Repository.get_metrics` of the oldest generation: what a team's
 * members and everyone else did on a repository strictly between two
 * times, split into internal (a member of the team) and external
 * contributions, with one entry per contributor. The other members of
 * that class are the same code as the newest generation's and are
 * modelled by `Repositories.Repository`.
 */
module OriginalRepositories {
  import opened Common
  import opened Items
  import Repositories

  /** One count, over everyone, over the team's members and over the others. */
  datatype Split = Split(all: nat, internal: nat, external: nat)

  /** One entry of `individuals`. */
  datatype Contribution = Contribution(
    handle: string,
    issuesOpened: nat, issuesClosed: nat,
    pullsOpened: nat, pullsClosed: nat, pullsMerged: nat,
    comments: nat, commits: nat)

  /**
   * Everything `get_metrics` returns but `individuals`. `periodTo` holds
   * the start of the window and `periodFrom` its end, as the source files
   * them.
   */
  datatype Summary = Summary(
    periodTo: int, periodFrom: int,
    issuesOpened: Split, issuesClosed: Split,
    pullsOpened: Split, pullsClosed: Split, pullsMerged: Split,
    comments: Split, commits: Split, releases: nat,
    contributors: Split)

  datatype Metrics = Metrics(summary: Summary, individuals: seq<Contribution>)

  /**
   * Who did what in the window, in the order the lists are read: the
   * logins of issue openers, issue closers, pull request openers, pull
   * request closers, mergers and commenters; the number of commits and the
   * logins of the commits that have an author; the number of releases.
   */
  datatype Activity = Activity(
    issueOpeners: seq<string>, issueClosers: seq<string>,
    pullOpeners: seq<string>, pullClosers: seq<string>, mergers: seq<string>,
    commenters: seq<string>,
    commits: nat, commitAuthors: seq<string>,
    releases: nat)

  /** `x.created(after=start, before=end)`. */
  function InWindow(start: int, end: int): Record -> bool {
    (r: Record) => Created(r, Some(start), Some(end))
  }

  /** A `closed` event in the window whose issue is not a pull request. */
  function IssueClose(start: int, end: int): Record -> bool {
    (e: Record) => e.event == "closed" && Created(e, Some(start), Some(end)) && !e.issueIsPR
  }

  /** A `closed` event in the window whose issue is a pull request. */
  function PullClose(start: int, end: int): Record -> bool {
    (e: Record) => e.event == "closed" && Created(e, Some(start), Some(end)) && e.issueIsPR
  }

  /** A `merged` event in the window. */
  function Merge(start: int, end: int): Record -> bool {
    (e: Record) => e.event == "merged" && Created(e, Some(start), Some(end))
  }

  function In(members: seq<string>): string -> bool { (x: string) => x in members }

  function Out(members: seq<string>): string -> bool { (x: string) => x !in members }

  /** `[c.author.login for c in commits if c.author]`. */
  function AuthorLogins(commits: seq<Record>): (r: seq<string>)
    ensures |r| <= |commits|
  {
    if commits == [] then []
    else (if commits[0].author.Some? then [commits[0].author.value] else []) + AuthorLogins(commits[1..])
  }

  /** The commit authors are exactly the logins of the commits that have one. */
  lemma {:induction false} AuthorLoginsExact(commits: seq<Record>)
    ensures forall x :: x in AuthorLogins(commits) <==> exists c :: c in commits && c.author == Some(x)
  {
    if commits != [] {
      AuthorLoginsExact(commits[1..]);
      forall x | exists c :: c in commits && c.author == Some(x)
        ensures x in AuthorLogins(commits)
      {
        var c :| c in commits && c.author == Some(x);
        if c != commits[0] {
          assert c in commits[1..];
        }
      }
    }
  }

  /**
   * The lists `get_metrics` reads, from the provider's answers for
   * ISSUES, EVENTS, COMMENTS, COMMITS and RELEASES, with the first
   * exception in source order: the issues, the events, an event in the
   * window without actor, then the comments, the commits, the releases.
   */
  function ActivityOf(start: int, end: int, issues: Result<seq<Record>>, events: Result<seq<Record>>,
                      comments: Result<seq<Record>>, commits: Result<seq<Record>>, releases: Result<seq<Record>>): Result<Activity>
  {
    var all :- issues;
    var evs :- events;
    var issueClosers :- Actors(Filter(IssueClose(start, end), evs));
    var pullClosers :- Actors(Filter(PullClose(start, end), evs));
    var mergers :- Actors(Filter(Merge(start, end), evs));
    var cs :- comments;
    var cms :- commits;
    var rs :- releases;
    Ok(Windowed(start, end, all, issueClosers, pullClosers, mergers, cs, cms, rs))
  }

  /** The activity once every list is read and every actor is known. */
  function Windowed(start: int, end: int, all: seq<Record>, issueClosers: seq<string>, pullClosers: seq<string>,
                    mergers: seq<string>, cs: seq<Record>, cms: seq<Record>, rs: seq<Record>): Activity
  {
    var windowCommits := Filter(InWindow(start, end), cms);
    Activity(
      Users(Filter(InWindow(start, end), IssuesOf(all))), issueClosers,
      Users(Filter(InWindow(start, end), PullRequestsOf(all))), pullClosers, mergers,
      Users(Filter(InWindow(start, end), cs)),
      |windowCommits|, AuthorLogins(windowCommits),
      |Filter(InWindow(start, end), rs)|)
  }

  /** A count over `logins`, split by membership of the team. */
  function SplitOf(logins: seq<string>, members: seq<string>): Split {
    Split(|logins|, |Filter(In(members), logins)|, |Filter(Out(members), logins)|)
  }

  /** The distinct logins that opened, commented or closed; merges and commits do not make a contributor. */
  function Contributors(act: Activity): set<string> {
    Elements(act.issueOpeners + act.pullOpeners + act.commenters + act.issueClosers + act.pullClosers)
  }

  /** The contributors counted, and split by membership of the team. */
  function ContributorSplit(contributors: set<string>, members: seq<string>): Split {
    Split(|contributors|, |set c | c in contributors && c in members|, |set c | c in contributors && c !in members|)
  }

  /** The dictionary `get_metrics` builds, but for `individuals`. */
  function Summarize(start: int, end: int, members: seq<string>, act: Activity): Summary {
    Summary(
      start, end,
      SplitOf(act.issueOpeners, members), SplitOf(act.issueClosers, members),
      SplitOf(act.pullOpeners, members), SplitOf(act.pullClosers, members), SplitOf(act.mergers, members),
      SplitOf(act.commenters, members),
      Split(act.commits, |Filter(In(members), act.commitAuthors)|, |Filter(Out(members), act.commitAuthors)|),
      act.releases,
      ContributorSplit(Contributors(act), members))
  }

  /** The entry of `individuals` for `handle`. */
  function IndividualOf(act: Activity, handle: string): Contribution {
    Contribution(
      handle,
      Count(act.issueOpeners, handle), Count(act.issueClosers, handle),
      Count(act.pullOpeners, handle), Count(act.pullClosers, handle), Count(act.mergers, handle),
      Count(act.commenters, handle), Count(act.commitAuthors, handle))
  }

  /** The handles of a list of entries, in order. */
  function Handles(cs: seq<Contribution>): (r: seq<string>)
    ensures |r| == |cs| && forall i :: 0 <= i < |cs| ==> r[i] == cs[i].handle
  {
    seq(|cs|, i requires 0 <= i < |cs| => cs[i].handle)
  }

  /** One entry per contributor, each holding that contributor's counts, in any order. */
  predicate Individuals(act: Activity, cs: seq<Contribution>) {
    NoDuplicates(Handles(cs)) && Elements(Handles(cs)) == Contributors(act) &&
    forall i :: 0 <= i < |cs| ==> cs[i] == IndividualOf(act, cs[i].handle)
  }

  /**
   * `get_metrics(start, end, team)` on `repo`: the members of `team`
   * first, then the lists read in source order, the dictionary, and one
   * entry per contributor.
   */
  method GetMetrics(repo: Repositories.Repository, start: int, end: int, team: string) returns (r: Result<Metrics>)
    requires repo.Valid()
    modifies repo, repo.provider
    ensures repo.Valid() && forall u :: repo.Stored(u) == old(repo.Stored(u))
    ensures
      var members := old(repo.TeamLookup(team));
      var act := ActivityOf(start, end, repo.Stored(ISSUES), repo.Stored(EVENTS),
                            repo.Stored(COMMENTS), repo.Stored(COMMITS), repo.Stored(RELEASES));
      (r.Ok? <==> members.Ok? && act.Ok?) &&
      (r.Err? ==> r.error == (if members.Err? then members.error else act.error)) &&
      (r.Ok? ==> r.value.summary == Summarize(start, end, members.value, act.value) &&
                 Individuals(act.value, r.value.individuals))
    ensures repo.apiCalls == old(repo.apiCalls) && repo.labels == old(repo.labels)
  {
    var members :- repo.GetTeam(team);
    var act :- ReadActivity(repo, start, end);
    var summary := Summarize(start, end, members, act);
    var individuals := BuildIndividuals(act);
    r := Ok(Metrics(summary, individuals));
  }

  /** The lists `get_metrics` reads from `repo`, each filtered to the window, in source order. */
  method ReadActivity(repo: Repositories.Repository, start: int, end: int) returns (r: Result<Activity>)
    requires repo.Valid()
    modifies repo.provider
    ensures repo.Valid() && forall u :: repo.Stored(u) == old(repo.Stored(u))
    ensures r == ActivityOf(start, end, repo.Stored(ISSUES), repo.Stored(EVENTS),
                            repo.Stored(COMMENTS), repo.Stored(COMMITS), repo.Stored(RELEASES))
  {
    var all :- repo.AllIssues();
    var issuesOpened := Filter(InWindow(start, end), all);

    var events :- repo.View(EVENTS);
    var issueClosers :- Actors(Filter(IssueClose(start, end), events));

    var pulls := repo.AllPullRequests();  // ISSUES is stored by now: this cannot raise
    var allPulls := pulls.value;
    var pullsOpened := Filter(InWindow(start, end), allPulls);

    var pullClosers :- Actors(Filter(PullClose(start, end), events));
    var mergers :- Actors(Filter(Merge(start, end), events));

    var comments :- repo.View(COMMENTS);
    var windowComments := Filter(InWindow(start, end), comments);

    var commits :- repo.View(COMMITS);
    var windowCommits := Filter(InWindow(start, end), commits);

    var releases :- repo.View(RELEASES);
    var windowReleases := Filter(InWindow(start, end), releases);

    r := Ok(Activity(
      Users(issuesOpened), issueClosers, Users(pullsOpened), pullClosers, mergers,
      Users(windowComments), |windowCommits|, AuthorLogins(windowCommits), |windowReleases|));
  }

  /** The loop over the contributors, each taken in the order the set yields it. */
  method BuildIndividuals(act: Activity) returns (individuals: seq<Contribution>)
    ensures Individuals(act, individuals)
  {
    var remaining := Contributors(act);
    individuals := [];
    while remaining != {}
      invariant NoDuplicates(Handles(individuals))
      invariant Elements(Handles(individuals)) !! remaining
      invariant Elements(Handles(individuals)) + remaining == Contributors(act)
      invariant forall i :: 0 <= i < |individuals| ==> individuals[i] == IndividualOf(act, individuals[i].handle)
      decreases remaining
    {
      var contributor :| contributor in remaining;
      var entry := Contribution(
        contributor,
        Count(act.issueOpeners, contributor), Count(act.issueClosers, contributor),
        Count(act.pullOpeners, contributor), Count(act.pullClosers, contributor), Count(act.mergers, contributor),
        Count(act.commenters, contributor), Count(act.commitAuthors, contributor));
      assert Handles(individuals + [entry]) == Handles(individuals) + [contributor];
      individuals := individuals + [entry];
      remaining := remaining - {contributor};
    }
  }

  // ---------------------------------------------------------------------
  // Properties of the report
  // ---------------------------------------------------------------------

  /** Every login is a member or not: the internal and external counts add up to the whole. */
  lemma SplitAddsUp(logins: seq<string>, members: seq<string>)
    ensures SplitOf(logins, members).internal + SplitOf(logins, members).external == SplitOf(logins, members).all
    ensures multiset(Filter(In(members), logins)) + multiset(Filter(Out(members), logins)) == multiset(logins)
  {
    FilterPartition(In(members), Out(members), logins);
  }

  /** Each contributor is counted once, as internal or as external. */
  lemma ContributorsAddUp(contributors: set<string>, members: seq<string>)
    ensures ContributorSplit(contributors, members).internal + ContributorSplit(contributors, members).external ==
            ContributorSplit(contributors, members).all
  {
    var inside := set c | c in contributors && c in members;
    var outside := set c | c in contributors && c !in members;
    assert inside + outside == contributors;
    assert inside !! outside;
  }

  /**
   * The report: the period filed with its ends swapped; internal and
   * external add up for every count but commits, where commits without
   * an author are counted only in the whole; the contributors add up
   * too.
   */
  lemma SummaryCounts(start: int, end: int, members: seq<string>, act: Activity)
    ensures var s := Summarize(start, end, members, act);
      s.periodTo == start && s.periodFrom == end &&
      s.issuesOpened.internal + s.issuesOpened.external == s.issuesOpened.all == |act.issueOpeners| &&
      s.issuesClosed.internal + s.issuesClosed.external == s.issuesClosed.all == |act.issueClosers| &&
      s.pullsOpened.internal + s.pullsOpened.external == s.pullsOpened.all == |act.pullOpeners| &&
      s.pullsClosed.internal + s.pullsClosed.external == s.pullsClosed.all == |act.pullClosers| &&
      s.pullsMerged.internal + s.pullsMerged.external == s.pullsMerged.all == |act.mergers| &&
      s.comments.internal + s.comments.external == s.comments.all == |act.commenters| &&
      s.commits.internal + s.commits.external == |act.commitAuthors| && s.commits.all == act.commits &&
      s.releases == act.releases &&
      s.contributors.internal + s.contributors.external == s.contributors.all == |Contributors(act)|
  {
    SplitAddsUp(act.issueOpeners, members);
    SplitAddsUp(act.issueClosers, members);
    SplitAddsUp(act.pullOpeners, members);
    SplitAddsUp(act.pullClosers, members);
    SplitAddsUp(act.mergers, members);
    SplitAddsUp(act.commenters, members);
    SplitAddsUp(act.commitAuthors, members);
    ContributorsAddUp(Contributors(act), members);
  }

  /** In the window as read, commits with an author never outnumber the commits. */
  lemma CommitAuthorsAtMost(start: int, end: int, issues: Result<seq<Record>>, events: Result<seq<Record>>,
                            comments: Result<seq<Record>>, commits: Result<seq<Record>>, releases: Result<seq<Record>>)
    requires ActivityOf(start, end, issues, events, comments, commits, releases).Ok?
    ensures var act := ActivityOf(start, end, issues, events, comments, commits, releases).value;
      |act.commitAuthors| <= act.commits
  {
  }

  /** A successful `ActivityOf` is `Windowed` over the lists read and the actors found. */
  lemma ActivityIsWindowed(start: int, end: int, all: seq<Record>, evs: seq<Record>, cs: seq<Record>, cms: seq<Record>, rs: seq<Record>)
    requires ActivityOf(start, end, Ok(all), Ok(evs), Ok(cs), Ok(cms), Ok(rs)).Ok?
    ensures ActivityOf(start, end, Ok(all), Ok(evs), Ok(cs), Ok(cms), Ok(rs)).value ==
      Windowed(start, end, all, Actors(Filter(IssueClose(start, end), evs)).value,
               Actors(Filter(PullClose(start, end), evs)).value, Actors(Filter(Merge(start, end), evs)).value, cs, cms, rs)
  {
  }

  /**
   * The windows are strict: a plain issue, a pull request or a comment
   * counts iff it was created strictly after `start` and strictly before
   * `end`.
   */
  lemma WindowIsStrict(start: int, end: int, all: seq<Record>, evs: seq<Record>, cs: seq<Record>, cms: seq<Record>, rs: seq<Record>)
    requires ActivityOf(start, end, Ok(all), Ok(evs), Ok(cs), Ok(cms), Ok(rs)).Ok?
    ensures var act := ActivityOf(start, end, Ok(all), Ok(evs), Ok(cs), Ok(cms), Ok(rs)).value;
      (forall x :: x in act.issueOpeners <==>
        exists i :: i in all && !i.isPR && start < CreationTime(i) < end && i.user == x) &&
      (forall x :: x in act.pullOpeners <==>
        exists i :: i in all && i.isPR && start < CreationTime(i) < end && i.user == x) &&
      (forall x :: x in act.commenters <==>
        exists c :: c in cs && start < CreationTime(c) < end && c.user == x)
  {
    ActivityIsWindowed(start, end, all, evs, cs, cms, rs);
    IssuesAndPullRequestsPartition(all);
    UsersInWindow(start, end, IssuesOf(all));
    UsersInWindow(start, end, PullRequestsOf(all));
    UsersInWindow(start, end, cs);
  }

  /** The commit authors counted are those of the commits created strictly inside the window. */
  lemma CommitWindowIsStrict(start: int, end: int, all: seq<Record>, evs: seq<Record>, cs: seq<Record>, cms: seq<Record>, rs: seq<Record>)
    requires ActivityOf(start, end, Ok(all), Ok(evs), Ok(cs), Ok(cms), Ok(rs)).Ok?
    ensures var act := ActivityOf(start, end, Ok(all), Ok(evs), Ok(cs), Ok(cms), Ok(rs)).value;
      forall x :: x in act.commitAuthors <==> exists c :: c in cms && start < CreationTime(c) < end && c.author == Some(x)
  {
    ActivityIsWindowed(start, end, all, evs, cs, cms, rs);
    var windowCommits := Filter(InWindow(start, end), cms);
    AuthorLoginsExact(windowCommits);
    forall x | exists c :: c in cms && start < CreationTime(c) < end && c.author == Some(x)
      ensures exists c :: c in windowCommits && c.author == Some(x)
    {
      var c :| c in cms && start < CreationTime(c) < end && c.author == Some(x);
      FilterKeeps(InWindow(start, end), cms, c);
    }
  }

  /** The users of the records of `xs` in the window, as a membership statement. */
  lemma UsersInWindow(start: int, end: int, xs: seq<Record>)
    ensures forall x :: x in Users(Filter(InWindow(start, end), xs)) <==>
      exists r :: r in xs && start < CreationTime(r) < end && r.user == x
  {
    var w := Filter(InWindow(start, end), xs);
    forall x | x in Users(w) ensures exists r :: r in xs && start < CreationTime(r) < end && r.user == x {
      var i :| 0 <= i < |w| && Users(w)[i] == x;
      assert w[i] in w;
    }
    forall x | exists r :: r in xs && start < CreationTime(r) < end && r.user == x ensures x in Users(w) {
      var r :| r in xs && start < CreationTime(r) < end && r.user == x;
      FilterKeeps(InWindow(start, end), xs, r);
      var i :| 0 <= i < |w| && w[i] == r;
      assert Users(w)[i] == x;
    }
  }

  /**
   * A closing or merging event in the window without an actor makes
   * `get_metrics` raise AttributeError once the issues and events are
   * read, whatever the later lists hold.
   */
  lemma ActorlessEventRaises(start: int, end: int, all: seq<Record>, evs: seq<Record>,
                             comments: Result<seq<Record>>, commits: Result<seq<Record>>, releases: Result<seq<Record>>, e: Record)
    requires e in evs && e.actor.None?
    requires e.event == "closed" || e.event == "merged"
    requires start < CreationTime(e) < end
    ensures ActivityOf(start, end, Ok(all), Ok(evs), comments, commits, releases) == Err(AttributeError)
  {
    var p := if e.event == "merged" then Merge(start, end) else if e.issueIsPR then PullClose(start, end) else IssueClose(start, end);
    FilterKeeps(p, evs, e);
    var w := Filter(p, evs);
    var i :| 0 <= i < |w| && w[i] == e;
    assert Actors(w).Err?;
  }

  // ---------------------------------------------------------------------
  // Individual entries
  // ---------------------------------------------------------------------

  /** The seven counts of an entry. */
  datatype Tally = IssuesOpened | IssuesClosed | PullsOpened | PullsClosed | PullsMerged | Comments | Commits

  function Get(c: Contribution, k: Tally): nat {
    match k
    case IssuesOpened => c.issuesOpened
    case IssuesClosed => c.issuesClosed
    case PullsOpened => c.pullsOpened
    case PullsClosed => c.pullsClosed
    case PullsMerged => c.pullsMerged
    case Comments => c.comments
    case Commits => c.commits
  }

  /** The logins that count `k`. */
  function Tallied(act: Activity, k: Tally): seq<string> {
    match k
    case IssuesOpened => act.issueOpeners
    case IssuesClosed => act.issueClosers
    case PullsOpened => act.pullOpeners
    case PullsClosed => act.pullClosers
    case PullsMerged => act.mergers
    case Comments => act.commenters
    case Commits => act.commitAuthors
  }

  /** The sum of count `k` over the entries. */
  function Total(cs: seq<Contribution>, k: Tally): nat {
    if cs == [] then 0 else Get(cs[0], k) + Total(cs[1..], k)
  }

  /** Summing entries built by `IndividualOf` counts the logins against the entries' handles. */
  lemma {:induction false} TotalIsCountAll(act: Activity, cs: seq<Contribution>, k: Tally)
    requires forall i :: 0 <= i < |cs| ==> cs[i] == IndividualOf(act, cs[i].handle)
    ensures Total(cs, k) == CountAll(Tallied(act, k), Handles(cs))
  {
    if cs != [] {
      assert Handles(cs)[1..] == Handles(cs[1..]);
      TotalIsCountAll(act, cs[1..], k);
    }
  }

  /**
   * Every opener, closer and commenter has an entry, so the entries' counts
   * of those add up to the whole; a merger or a commit author need not be
   * a contributor, so those sums are at most the whole.
   */
  lemma IndividualTotals(act: Activity, cs: seq<Contribution>)
    requires Individuals(act, cs)
    ensures Total(cs, IssuesOpened) == |act.issueOpeners|
    ensures Total(cs, IssuesClosed) == |act.issueClosers|
    ensures Total(cs, PullsOpened) == |act.pullOpeners|
    ensures Total(cs, PullsClosed) == |act.pullClosers|
    ensures Total(cs, Comments) == |act.commenters|
    ensures Total(cs, PullsMerged) <= |act.mergers|
    ensures Total(cs, Commits) <= |act.commitAuthors|
  {
    var hs := Handles(cs);
    var everyone := act.issueOpeners + act.pullOpeners + act.commenters + act.issueClosers + act.pullClosers;
    forall k | k != PullsMerged && k != Commits
      ensures Total(cs, k) == |Tallied(act, k)|
    {
      TotalIsCountAll(act, cs, k);
      forall x | x in Tallied(act, k) ensures x in hs {
        assert x in everyone;
        assert x in Elements(hs);
      }
      CountAllCovers(Tallied(act, k), hs);
    }
    TotalIsCountAll(act, cs, PullsMerged);
    CountAllAtMost(act.mergers, hs);
    TotalIsCountAll(act, cs, Commits);
    CountAllAtMost(act.commitAuthors, hs);
  }

  /** A contributor's entry counts at least one of the actions that made them a contributor. */
  lemma ContributorHasAction(act: Activity, handle: string)
    requires handle in Contributors(act)
    ensures var c := IndividualOf(act, handle);
      c.issuesOpened + c.issuesClosed + c.pullsOpened + c.pullsClosed + c.comments > 0
  {
  }
}
