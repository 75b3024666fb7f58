/**
 * `Repository`: the views a command works with, on top of a
 * `MemoryRepositoryProvider`. The newest generation is modelled in full;
 * the views, `labels`, `get_team`, `create_label` and `close_issue` of the
 * middle and oldest generations are the same code, and the middle
 * generation's `contributors` is the newest one's `collaborators`.
 */
module Repositories {
  import opened Common
  import opened Items
  import opened Memory
  import Online

  /** The calls made on the forge's API, in order. */
  datatype ApiCall =
    | CreateLabel(name: string, color: string, description: string)   // issues.create_label
    | AddLabels(number: int, labels: seq<string>)                      // issues.add_labels
    | CreateComment(number: int, body: string)                         // issues.create_comment
    | Update(number: int, state: string)                               // issues.update

  /** What `get_usernames` returns: a list, or the set `contributors` builds. */
  datatype Names = NameList(list: seq<string>) | NameSet(elements: set<string>)

  /** `[l.name for l in labels]`. */
  function LabelNames(labels: seq<Record>): (r: seq<string>)
    ensures |r| == |labels| && forall i :: 0 <= i < |labels| ==> r[i] == labels[i].name
  {
    seq(|labels|, i requires 0 <= i < |labels| => labels[i].name)
  }

  predicate NotBot(login: string) { !IsBot(login) }

  /** The committers' logins that do not end in `[bot]`, in order. */
  function CommitterLogins(committers: seq<Record>): seq<string> {
    Filter(NotBot, Logins(committers))
  }

  /** The non-bot logins of the authors of plain issues and of comments. */
  function CommenterSet(all: seq<Record>, comments: seq<Record>): set<string> {
    Elements(Filter(NotBot, Users(IssuesOf(all))) + Filter(NotBot, Users(comments)))
  }

  /** The committers are exactly the non-bot logins of the COMMITTERS list. */
  lemma CommittersExact(committers: seq<Record>)
    ensures forall x :: x in CommitterLogins(committers) <==> !IsBot(x) && exists r :: r in committers && r.login == x
  {
    var logins := Logins(committers);
    forall x | !IsBot(x) && (exists r :: r in committers && r.login == x)
      ensures x in CommitterLogins(committers)
    {
      var r :| r in committers && r.login == x;
      var i :| 0 <= i < |committers| && committers[i] == r;
      assert logins[i] == x;
      FilterKeeps(NotBot, logins, x);
    }
    forall x | x in CommitterLogins(committers) ensures exists r :: r in committers && r.login == x {
      var i :| 0 <= i < |logins| && logins[i] == x;
      assert committers[i] in committers;
    }
  }

  /** A commenter is a non-bot login that opened a plain issue or wrote a comment. */
  lemma CommentersExact(all: seq<Record>, comments: seq<Record>)
    ensures forall x :: x in CommenterSet(all, comments) <==>
      !IsBot(x) && ((exists r :: r in all && !r.isPR && r.user == x) || (exists c :: c in comments && c.user == x))
  {
    IssuesAndPullRequestsPartition(all);
    var issues := IssuesOf(all);
    var fromIssues, fromComments := Filter(NotBot, Users(issues)), Filter(NotBot, Users(comments));
    forall x | !IsBot(x) && ((exists r :: r in all && !r.isPR && r.user == x) || (exists c :: c in comments && c.user == x))
      ensures x in CommenterSet(all, comments)
    {
      if exists r :: r in all && !r.isPR && r.user == x {
        var r :| r in all && !r.isPR && r.user == x;
        var i :| 0 <= i < |issues| && issues[i] == r;
        assert Users(issues)[i] == x;
        FilterKeeps(NotBot, Users(issues), x);
        assert x in fromIssues + fromComments;
      } else {
        var c :| c in comments && c.user == x;
        var i :| 0 <= i < |comments| && comments[i] == c;
        assert Users(comments)[i] == x;
        FilterKeeps(NotBot, Users(comments), x);
        assert x in fromIssues + fromComments;
      }
    }
    forall x | x in CommenterSet(all, comments)
      ensures !IsBot(x) && ((exists r :: r in all && !r.isPR && r.user == x) || (exists c :: c in comments && c.user == x))
    {
      if x in fromIssues {
        var i :| 0 <= i < |issues| && Users(issues)[i] == x;
        assert issues[i] in all && !issues[i].isPR;
      } else {
        var i :| 0 <= i < |comments| && Users(comments)[i] == x;
        assert comments[i] in comments;
      }
    }
  }

  /** The slug-to-team map `get_team` builds: a later team replaces an earlier one with the same slug. */
  function TeamMap(teams: seq<Record>): map<string, Record> {
    if teams == [] then map[]
    else TeamMap(teams[..|teams| - 1])[teams[|teams| - 1].slug := teams[|teams| - 1]]
  }

  /**
   * A slug is in the map iff some team has it, and it maps to the last
   * team that has it.
   */
  lemma {:induction false} TeamMapLast(teams: seq<Record>, slug: string)
    ensures slug in TeamMap(teams) <==> exists i :: 0 <= i < |teams| && teams[i].slug == slug
    ensures slug in TeamMap(teams) ==>
      exists i :: 0 <= i < |teams| && teams[i] == TeamMap(teams)[slug] && teams[i].slug == slug &&
        forall j :: i < j < |teams| ==> teams[j].slug != slug
  {
    if teams != [] {
      var init, last := teams[..|teams| - 1], teams[|teams| - 1];
      TeamMapLast(init, slug);
      if last.slug == slug {
        assert teams[|teams| - 1].slug == slug;
      } else if slug in TeamMap(teams) {
        var i :| 0 <= i < |init| && init[i] == TeamMap(init)[slug] && init[i].slug == slug &&
          forall j :: i < j < |init| ==> init[j].slug != slug;
        assert teams[i] == init[i];
      } else {
        forall i | 0 <= i < |teams| ensures teams[i].slug != slug {
          if i < |init| { assert teams[i] == init[i]; }
        }
      }
    }
  }

  /** `self._teams[name].members`: KeyError for a slug no team has. */
  function Lookup(teams: map<string, Record>, name: string): Result<seq<string>> {
    if name in teams then Ok(teams[name].members) else Err(KeyError)
  }

  /** `if label:` / `if comment:`: None and the empty string are false. */
  predicate Given(s: Option<string>) { s.Some? && s.value != "" }

  /** `list(set(s))`: the elements of `s` once each, in an order the source leaves to the set. */
  method ListOf(s: set<string>) returns (r: seq<string>)
    ensures NoDuplicates(r) && Elements(r) == s
  {
    r := [];
    var rest := s;
    while rest != {}
      invariant NoDuplicates(r)
      invariant Elements(r) !! rest && Elements(r) + rest == s
      decreases rest
    {
      var x :| x in rest;
      r := r + [x];
      rest := rest - {x};
    }
  }

  /** The loop of `get_team` that fills `self._teams`. */
  method BuildTeamMap(teams: seq<Record>) returns (m: map<string, Record>)
    ensures m == TeamMap(teams)
  {
    m := map[];
    var i := 0;
    while i < |teams|
      invariant 0 <= i <= |teams|
      invariant m == TeamMap(teams[..i])
    {
      m := m[teams[i].slug := teams[i]];
      i := i + 1;
      assert teams[..i][..i - 1] == teams[..i - 1];
    }
    assert teams[..i] == teams;
  }

  class Repository {
    const provider: MemoryProvider
    /** Every call made on `self._api`, in order. */
    var apiCalls: seq<ApiCall>
    /** `_labels`, `_teams`, `_committers`, `_commenters`: None until first computed. */
    var labels: Option<seq<string>>
    var teams: Option<map<string, Record>>
    var committers: Option<seq<string>>
    var commenters: Option<seq<string>>

    /**
     * What the provider answers for `t`: the list it stores, or what its
     * backend returns, retagged, when it stores none.
     */
    function Stored(t: ItemType): Result<seq<Record>>
      reads provider
    {
      if t in provider.data then Ok(provider.data[t])
      else match provider.backend(t, None)
        case Ok(items) => Ok(Wrapped(t, items))
        case Err(e) => Err(e)
    }

    /** What `labels` returns now. */
    function CurrentLabels(): Result<seq<string>>
      reads this, provider
    {
      if labels.Some? then Ok(labels.value) else Stored(LABELS).Map(LabelNames)
    }

    /** What `get_team(name)` returns now; a failed team fetch leaves an empty map behind. */
    function TeamLookup(name: string): Result<seq<string>>
      reads this, provider
    {
      if teams.Some? then Lookup(teams.value, name)
      else match Stored(TEAMS)
        case Ok(ts) => Lookup(TeamMap(ts), name)
        case Err(e) => Err(e)
    }

    /** What `committers` returns now. */
    function CurrentCommitters(): Result<seq<string>>
      reads this, provider
    {
      if committers.Some? then Ok(committers.value) else Stored(COMMITTERS).Map(CommitterLogins)
    }

    /** The commenters `commenters` returns now: its elements, whatever their order. */
    function CurrentCommenters(): Result<set<string>>
      reads this, provider
    {
      if commenters.Some? then Ok(Elements(commenters.value))
      else match Stored(ISSUES)
        case Err(e) => Err(e)
        case Ok(all) => Stored(COMMENTS).Map((comments: seq<Record>) => CommenterSet(all, comments))
    }

    /** Each cache holds what it was computed from, and `labels` only grows. */
    ghost predicate Valid()
      reads this, provider
    {
      provider.Valid() &&
      (labels.Some? ==> Stored(LABELS).Ok? && LabelNames(Stored(LABELS).value) <= labels.value) &&
      (teams.Some? ==> teams.value == (if Stored(TEAMS).Ok? then TeamMap(Stored(TEAMS).value) else map[])) &&
      (committers.Some? ==> Stored(COMMITTERS).Ok? && committers.value == CommitterLogins(Stored(COMMITTERS).value)) &&
      (commenters.Some? ==>
        Stored(ISSUES).Ok? && Stored(COMMENTS).Ok? && NoDuplicates(commenters.value) &&
        Elements(commenters.value) == CommenterSet(Stored(ISSUES).value, Stored(COMMENTS).value))
    }

    constructor(backend: Backend)
      ensures Valid() && fresh(provider) && provider.backend == backend && provider.data == map[]
      ensures apiCalls == [] && labels == None && teams == None && committers == None && commenters == None
    {
      provider := new MemoryProvider(backend);
      apiCalls := [];
      labels := None;
      teams := None;
      committers := None;
      commenters := None;
    }

    /** `self._provider.get_data(t)`: the provider's answer, which asking does not change. */
    method Fetch(t: ItemType) returns (r: Result<seq<Record>>)
      requires Valid()
      modifies provider
      ensures Valid()
      ensures r == old(Stored(t))
      ensures forall u :: Stored(u) == old(Stored(u))
    {
      r := provider.GetData(t, None);
      forall u ensures Stored(u) == old(Stored(u)) {
        if u != t {
          assert (u in provider.data) == (u in old(provider.data));
        }
      }
      assert Stored(LABELS) == old(Stored(LABELS)) && Stored(TEAMS) == old(Stored(TEAMS));
      assert Stored(COMMITTERS) == old(Stored(COMMITTERS));
      assert Stored(ISSUES) == old(Stored(ISSUES)) && Stored(COMMENTS) == old(Stored(COMMENTS));
    }

    /** `issues`: the plain issues still open. */
    method Issues() returns (r: Result<seq<Record>>)
      requires Valid()
      modifies provider
      ensures Valid() && forall u :: Stored(u) == old(Stored(u))
      ensures r == Stored(ISSUES).Map((all: seq<Record>) => OpenOnly(IssuesOf(all)))
    {
      var all :- Fetch(ISSUES);
      r := Ok(OpenOnly(IssuesOf(all)));
    }

    /** `all_issues`: every plain issue. */
    method AllIssues() returns (r: Result<seq<Record>>)
      requires Valid()
      modifies provider
      ensures Valid() && forall u :: Stored(u) == old(Stored(u))
      ensures r == Stored(ISSUES).Map(IssuesOf)
    {
      var all :- Fetch(ISSUES);
      r := Ok(IssuesOf(all));
    }

    /** `pull_requests`: the pull requests still open. */
    method PullRequests() returns (r: Result<seq<Record>>)
      requires Valid()
      modifies provider
      ensures Valid() && forall u :: Stored(u) == old(Stored(u))
      ensures r == Stored(ISSUES).Map((all: seq<Record>) => OpenOnly(PullRequestsOf(all)))
    {
      var all :- Fetch(ISSUES);
      r := Ok(OpenOnly(PullRequestsOf(all)));
    }

    /** `all_pull_requests`: every pull request. */
    method AllPullRequests() returns (r: Result<seq<Record>>)
      requires Valid()
      modifies provider
      ensures Valid() && forall u :: Stored(u) == old(Stored(u))
      ensures r == Stored(ISSUES).Map(PullRequestsOf)
    {
      var all :- Fetch(ISSUES);
      r := Ok(PullRequestsOf(all));
    }

    /** `comments`, `events`, `commits`, `releases`: the provider's list of that type as it is. */
    method View(t: ItemType) returns (r: Result<seq<Record>>)
      requires t == COMMENTS || t == EVENTS || t == COMMITS || t == RELEASES
      requires Valid()
      modifies provider
      ensures Valid() && forall u :: Stored(u) == old(Stored(u))
      ensures r == Stored(t)
    {
      r := Fetch(t);
    }

    /** `labels`: the label names, computed once and then kept. */
    method Labels() returns (r: Result<seq<string>>)
      requires Valid()
      modifies this, provider
      ensures Valid() && forall u :: Stored(u) == old(Stored(u))
      ensures r == old(CurrentLabels()) && CurrentLabels() == old(CurrentLabels())
      ensures r.Ok? ==> labels == Some(r.value)
      ensures r.Err? ==> labels == old(labels)
      ensures apiCalls == old(apiCalls) && teams == old(teams) && committers == old(committers) && commenters == old(commenters)
    {
      if labels.None? {
        var fetched :- Fetch(LABELS);
        labels := Some(LabelNames(fetched));
      }
      r := Ok(labels.value);
    }

    /**
     * `create_label(name, color, description)`: when the name is not yet a
     * label, the API creates it and it is appended; the labels already
     * there are left as they are.
     */
    method CreateLabelNamed(name: string, color: string, description: string) returns (r: Result<()>)
      requires Valid()
      modifies this, provider
      ensures Valid() && forall u :: Stored(u) == old(Stored(u))
      ensures old(CurrentLabels()).Err? ==> r == Err(old(CurrentLabels()).error) && apiCalls == old(apiCalls)
      ensures old(CurrentLabels()).Ok? ==>
        var before := old(CurrentLabels()).value;
        r == Ok(()) && CurrentLabels() == Ok(if name in before then before else before + [name]) &&
        apiCalls == old(apiCalls) + (if name in before then [] else [CreateLabel(name, color, description)])
      ensures teams == old(teams) && committers == old(committers) && commenters == old(commenters)
    {
      var current :- Labels();
      if name !in current {
        apiCalls := apiCalls + [CreateLabel(name, color, description)];
        labels := Some(current + [name]);
      }
      r := Ok(());
    }

    /**
     * `close_issue(issue, label, comment)`: the label (`tag`) if one is given, then
     * the comment if one is given, then the state set to closed.
     */
    method CloseIssue(issue: Record, tag: Option<string>, comment: Option<string>)
      modifies this
      ensures apiCalls == old(apiCalls) +
        (if Given(tag) then [AddLabels(issue.number, [tag.value])] else []) +
        (if Given(comment) then [CreateComment(issue.number, comment.value)] else []) +
        [Update(issue.number, "closed")]
      ensures labels == old(labels) && teams == old(teams) && committers == old(committers) && commenters == old(commenters)
    {
      if Given(tag) {
        apiCalls := apiCalls + [AddLabels(issue.number, [tag.value])];
      }
      if Given(comment) {
        apiCalls := apiCalls + [CreateComment(issue.number, comment.value)];
      }
      apiCalls := apiCalls + [Update(issue.number, "closed")];
    }

    /**
     * `get_team(name)`: the member logins of the last team with that slug;
     * the map is built on first use and kept, even when the team fetch
     * raised, after which every name raises KeyError.
     */
    method GetTeam(name: string) returns (r: Result<seq<string>>)
      requires Valid()
      modifies this, provider
      ensures Valid() && forall u :: Stored(u) == old(Stored(u))
      ensures r == old(TeamLookup(name))
      ensures teams.Some? && forall n :: TeamLookup(n) == (if old(teams).Some? || Stored(TEAMS).Ok? then old(TeamLookup(n)) else Err(KeyError))
      ensures apiCalls == old(apiCalls) && labels == old(labels) && committers == old(committers) && commenters == old(commenters)
    {
      if teams.None? {
        var fetched := Fetch(TEAMS);
        if fetched.Err? {
          teams := Some(map[]);
          return Err(fetched.error);
        }
        var m := BuildTeamMap(fetched.value);
        teams := Some(m);
      }
      r := Lookup(teams.value, name);
    }

    /** `collaborators`: the member logins of the `__collaborators` team (the middle generation's `contributors`). */
    method Collaborators() returns (r: Result<seq<string>>)
      requires Valid()
      modifies this, provider
      ensures Valid() && forall u :: Stored(u) == old(Stored(u))
      ensures r == old(TeamLookup(Online.Collaborators))
      ensures apiCalls == old(apiCalls) && labels == old(labels) && committers == old(committers) && commenters == old(commenters)
    {
      r := GetTeam(Online.Collaborators);
    }

    /** `committers`: the non-bot committer logins, computed once and then kept. */
    method Committers() returns (r: Result<seq<string>>)
      requires Valid()
      modifies this, provider
      ensures Valid() && forall u :: Stored(u) == old(Stored(u))
      ensures r == old(CurrentCommitters()) && CurrentCommitters() == old(CurrentCommitters())
      ensures r.Ok? ==> committers == Some(r.value)
      ensures apiCalls == old(apiCalls) && labels == old(labels) && teams == old(teams) && commenters == old(commenters)
    {
      if committers.None? {
        var fetched :- Fetch(COMMITTERS);
        committers := Some(CommitterLogins(fetched));
      }
      r := Ok(committers.value);
    }

    /**
     * `commenters`: the distinct non-bot authors of plain issues and of
     * comments, computed once and then kept.
     */
    method Commenters() returns (r: Result<seq<string>>)
      requires Valid()
      modifies this, provider
      ensures Valid() && forall u :: Stored(u) == old(Stored(u))
      ensures r.Ok? <==> old(CurrentCommenters()).Ok?
      ensures r.Err? ==> r.error == old(CurrentCommenters()).error
      ensures r.Ok? ==> NoDuplicates(r.value) && Elements(r.value) == old(CurrentCommenters()).value && commenters == Some(r.value)
      ensures old(commenters).Some? ==> r == Ok(old(commenters).value)
      ensures CurrentCommenters() == old(CurrentCommenters())
      ensures apiCalls == old(apiCalls) && labels == old(labels) && teams == old(teams) && committers == old(committers)
    {
      if commenters.None? {
        var all :- Fetch(ISSUES);
        var comments :- Fetch(COMMENTS);
        var list := ListOf(CommenterSet(all, comments));
        commenters := Some(list);
      }
      r := Ok(commenters.value);
    }

    /** `contributors`: the committers and the commenters together, as a set. */
    method Contributors() returns (r: Result<set<string>>)
      requires Valid()
      modifies this, provider
      ensures Valid() && forall u :: Stored(u) == old(Stored(u))
      ensures r.Ok? <==> old(CurrentCommitters()).Ok? && old(CurrentCommenters()).Ok?
      ensures r.Err? ==> r.error == (if old(CurrentCommitters()).Err? then old(CurrentCommitters()).error else old(CurrentCommenters()).error)
      ensures r.Ok? ==> r.value == Elements(old(CurrentCommitters()).value) + old(CurrentCommenters()).value
      ensures apiCalls == old(apiCalls) && labels == old(labels) && teams == old(teams)
    {
      var byCommit :- Committers();
      var byComment :- Commenters();
      r := Ok(Elements(byCommit + byComment));
    }

    /**
     * `get_usernames(group)`: the contributors, committers or commenters
     * for the three reserved names, the member logins of that team for any
     * other.
     */
    method GetUsernames(group: string) returns (r: Result<Names>)
      requires Valid()
      modifies this, provider
      ensures Valid() && forall u :: Stored(u) == old(Stored(u))
      ensures group == "__contributors" ==>
        (r.Ok? <==> old(CurrentCommitters()).Ok? && old(CurrentCommenters()).Ok?) &&
        (r.Ok? ==> r.value == NameSet(Elements(old(CurrentCommitters()).value) + old(CurrentCommenters()).value))
      ensures group == "__committers" ==> r == old(CurrentCommitters()).Map((l: seq<string>) => NameList(l))
      ensures group == "__commenters" ==>
        (r.Ok? <==> old(CurrentCommenters()).Ok?) &&
        (r.Ok? ==> r.value.NameList? && NoDuplicates(r.value.list) && Elements(r.value.list) == old(CurrentCommenters()).value)
      ensures group != "__contributors" && group != "__committers" && group != "__commenters" ==>
        r == old(TeamLookup(group)).Map((l: seq<string>) => NameList(l))
      ensures apiCalls == old(apiCalls) && labels == old(labels)
    {
      if group == "__contributors" {
        var names :- Contributors();
        r := Ok(NameSet(names));
      } else if group == "__committers" {
        var names :- Committers();
        r := Ok(NameList(names));
      } else if group == "__commenters" {
        var names :- Commenters();
        r := Ok(NameList(names));
      } else {
        var names :- GetTeam(group);
        r := Ok(NameList(names));
      }
    }
  }

  /** Contributors never include a bot login. */
  lemma ContributorsAreHumans(committers: seq<Record>, all: seq<Record>, comments: seq<Record>)
    ensures forall x :: x in Elements(CommitterLogins(committers)) + CommenterSet(all, comments) ==> !IsBot(x)
  {
    CommittersExact(committers);
    CommentersExact(all, comments);
  }
}
