/** Resolving the team's repositories, identical in index.js and github.ts:
    `queryTeamRepos` pages through the team's repository connection keeping the
    non-archived ones with ADMIN permission, and `filterTeamRepos` keeps those
    whose team list grants this team `admin`. */
module TeamRepos {
  import opened Seqs

  /** One edge of `repositories.edges`: `permission node { name isArchived }`. */
  datatype RepoEdge = RepoEdge(permission: string, name: string, isArchived: bool)

  /** One page of the connection: its edges and `pageInfo { endCursor hasNextPage }`. */
  datatype RepoPage = RepoPage(edges: seq<RepoEdge>, hasNextPage: bool, endCursor: Option<string>)

  /** One element of the REST `GET /repos/{owner}/{repo}/teams` answer. */
  datatype TeamGrant = TeamGrant(slug: string, permission: string)

  predicate IsAdminEdge(e: RepoEdge)
  {
    e.permission == "ADMIN" && !e.isArchived
  }

  /** The names one page contributes, in edge order. */
  function AdminNames(edges: seq<RepoEdge>): seq<string>
  {
    if edges == [] then []
    else
      var last := edges[|edges| - 1];
      AdminNames(edges[..|edges| - 1]) + (if IsAdminEdge(last) then [last.name] else [])
  }

  function PagesNames(pages: seq<RepoPage>): seq<string>
  {
    if pages == [] then [] else PagesNames(pages[..|pages| - 1]) + AdminNames(pages[|pages| - 1].edges)
  }

  /** `next ? '"' + next + '"' : 'null'`: an absent or empty cursor asks for the first page. */
  function After(next: Option<string>): Option<string>
  {
    if next.Some? && next.value != "" then next else None
  }

  /** The index of the first page that reports no next page. */
  function LastPage(pages: seq<RepoPage>): (k: nat)
    requires exists k :: 0 <= k < |pages| && !pages[k].hasNextPage
    ensures k < |pages| && !pages[k].hasNextPage
    ensures forall m :: 0 <= m < k ==> pages[m].hasNextPage
  {
    if !pages[0].hasNextPage then 0
    else
      var k :| 0 <= k < |pages| && !pages[k].hasNextPage;
      assert 0 <= k - 1 < |pages[1..]| && !pages[1..][k - 1].hasNextPage;
      1 + LastPage(pages[1..])
  }

  /** `queryTeamRepos`: `pages[k]` is the endpoint's answer to the `k`-th request.
      The loop asks for pages until one reports `hasNextPage == false`, passing
      each page's `endCursor` as the next request's `after`. */
  method QueryTeamRepos(pages: seq<RepoPage>) returns (repoNames: seq<string>, sent: seq<Option<string>>)
    requires exists k :: 0 <= k < |pages| && !pages[k].hasNextPage
    ensures |sent| == LastPage(pages) + 1
    ensures |sent| > 0 && sent[0] == None
    ensures forall k :: 0 < k < |sent| && k <= |pages| ==> sent[k] == After(pages[k - 1].endCursor)
    ensures |sent| <= |pages| && repoNames == PagesNames(pages[..|sent|])
  {
    var hasNextPage := true;
    var next: Option<string> := None;
    repoNames := [];
    sent := [];
    var count := 0;
    while hasNextPage
      invariant 0 <= count <= LastPage(pages) + 1 && count == |sent|
      invariant hasNextPage <==> count <= LastPage(pages)
      invariant count > 0 ==> next == pages[count - 1].endCursor
      invariant count == 0 ==> next == None
      invariant count > 0 ==> sent[0] == None
      invariant forall k :: 0 < k < count ==> sent[k] == After(pages[k - 1].endCursor)
      invariant repoNames == PagesNames(pages[..count])
      decreases LastPage(pages) + 1 - count
    {
      sent := sent + [After(next)];
      var page := pages[count];
      var i := 0;
      while i < |page.edges|
        invariant 0 <= i <= |page.edges|
        invariant repoNames == PagesNames(pages[..count]) + AdminNames(page.edges[..i])
      {
        var edge := page.edges[i];
        assert page.edges[..i + 1][..i] == page.edges[..i];
        if edge.permission == "ADMIN" && edge.isArchived == false {
          repoNames := repoNames + [edge.name];
        }
        i := i + 1;
      }
      assert page.edges[..i] == page.edges;
      assert pages[..count + 1][..count] == pages[..count];
      hasNextPage := page.hasNextPage;
      next := page.endCursor;
      count := count + 1;
    }
  }

  lemma {:induction false} AdminNamesMembership(edges: seq<RepoEdge>, name: string)
    ensures name in AdminNames(edges) <==> exists e :: e in edges && IsAdminEdge(e) && e.name == name
  {
    if edges != [] {
      var p, last := edges[..|edges| - 1], edges[|edges| - 1];
      AdminNamesMembership(p, name);
      assert edges == p + [last];
    }
  }

  /** The names collected are exactly those of the non-archived ADMIN edges on
      the pages fetched. */
  lemma {:induction false} PagesNamesMembership(pages: seq<RepoPage>, name: string)
    ensures name in PagesNames(pages) <==>
      exists k, e :: 0 <= k < |pages| && e in pages[k].edges && IsAdminEdge(e) && e.name == name
  {
    if pages != [] {
      var p, last := pages[..|pages| - 1], pages[|pages| - 1];
      PagesNamesMembership(p, name);
      AdminNamesMembership(last.edges, name);
      if exists k, e :: 0 <= k < |pages| && e in pages[k].edges && IsAdminEdge(e) && e.name == name {
        var k, e :| 0 <= k < |pages| && e in pages[k].edges && IsAdminEdge(e) && e.name == name;
        if k < |p| { assert p[k] == pages[k]; }
      }
      forall k, e | 0 <= k < |p| && e in p[k].edges && IsAdminEdge(e) && e.name == name
        ensures e in pages[k].edges
      {
        assert p[k] == pages[k];
      }
      if name in AdminNames(last.edges) {
        var e :| e in last.edges && IsAdminEdge(e) && e.name == name;
        assert e in pages[|pages| - 1].edges;
      }
    }
  }

  // ---------------------------------------------------------------------------
  // filterTeamRepos

  /** `t.slug === team && t.permission === 'admin'`. */
  predicate AdminFor(t: TeamGrant, team: string)
  {
    t.slug == team && t.permission == "admin"
  }

  /** The team list grants `team` admin on the repository; a failed request
      (`None`) is caught and grants nothing. */
  predicate Grants(lookup: Option<seq<TeamGrant>>, team: string)
  {
    lookup.Some? && exists t :: t in lookup.value && AdminFor(t, team)
  }

  /** `order` lists every repository index exactly once: `n` indices, each below
      `n`, none missing. */
  predicate IsOrdering(order: seq<nat>, n: nat)
  {
    |order| == n
    && (forall m :: 0 <= m < |order| ==> order[m] < n)
    && (forall i :: 0 <= i < n ==> i in order)
  }

  /** `filteredRepos` when the requests complete in `order`. */
  function Granted(repos: seq<string>, lookups: seq<Option<seq<TeamGrant>>>, team: string, order: seq<nat>): seq<string>
    requires |lookups| == |repos|
    requires forall m :: 0 <= m < |order| ==> order[m] < |repos|
  {
    if order == [] then []
    else
      var i := order[|order| - 1];
      Granted(repos, lookups, team, order[..|order| - 1]) + (if Grants(lookups[i], team) then [repos[i]] else [])
  }

  /** `filterTeamRepos`: `lookups[i]` is the answer for `repos[i]` (`None` when
      the request fails), and `order` the order in which the requests complete. */
  method FilterTeamRepos(repos: seq<string>, lookups: seq<Option<seq<TeamGrant>>>, team: string, order: seq<nat>)
    returns (filteredRepos: seq<string>)
    requires |lookups| == |repos| && IsOrdering(order, |repos|)
    ensures filteredRepos == Granted(repos, lookups, team, order)
    ensures forall name :: name in filteredRepos <==>
      exists i :: 0 <= i < |repos| && repos[i] == name && Grants(lookups[i], team)
  {
    filteredRepos := [];
    var m := 0;
    while m < |order|
      invariant 0 <= m <= |order|
      invariant filteredRepos == Granted(repos, lookups, team, order[..m])
    {
      var i := order[m];
      assert order[..m + 1][..m] == order[..m];
      var lookup := lookups[i];
      if lookup.Some? {
        var teams := lookup.value;
        var k := 0;
        ghost var hit := -1;
        while k < |teams|
          invariant 0 <= k <= |teams| && hit == -1
          invariant forall k' :: 0 <= k' < k ==> !AdminFor(teams[k'], team)
          invariant filteredRepos == Granted(repos, lookups, team, order[..m])
        {
          if teams[k].slug == team && teams[k].permission == "admin" {
            filteredRepos := filteredRepos + [repos[i]];
            hit := k;
            break;
          }
          k := k + 1;
        }
        if hit >= 0 {
          assert AdminFor(teams[hit], team);
        } else {
          forall t | t in teams ensures !AdminFor(t, team) {
            var j :| 0 <= j < |teams| && teams[j] == t;
          }
        }
      }
      m := m + 1;
    }
    assert order[..m] == order;
    GrantedMembership(repos, lookups, team, order);
  }

  /** Whatever the completion order, a repository is kept exactly when its team
      list grants the team admin. */
  lemma GrantedMembership(repos: seq<string>, lookups: seq<Option<seq<TeamGrant>>>, team: string, order: seq<nat>)
    requires |lookups| == |repos| && IsOrdering(order, |repos|)
    ensures forall name :: name in Granted(repos, lookups, team, order) <==>
      exists i :: 0 <= i < |repos| && repos[i] == name && Grants(lookups[i], team)
  {
    forall name
      ensures name in Granted(repos, lookups, team, order) <==>
        exists i :: 0 <= i < |repos| && repos[i] == name && Grants(lookups[i], team)
    {
      GrantedPrefixMembership(repos, lookups, team, order, name);
      if exists i :: 0 <= i < |repos| && repos[i] == name && Grants(lookups[i], team) {
        var i :| 0 <= i < |repos| && repos[i] == name && Grants(lookups[i], team);
        assert i in order;
        var m :| 0 <= m < |order| && order[m] == i;
      }
    }
  }

  lemma {:induction false} GrantedPrefixMembership(repos: seq<string>, lookups: seq<Option<seq<TeamGrant>>>,
                                                   team: string, order: seq<nat>, name: string)
    requires |lookups| == |repos|
    requires forall m :: 0 <= m < |order| ==> order[m] < |repos|
    ensures name in Granted(repos, lookups, team, order) <==>
      exists m :: 0 <= m < |order| && repos[order[m]] == name && Grants(lookups[order[m]], team)
  {
    if order != [] {
      var p := order[..|order| - 1];
      GrantedPrefixMembership(repos, lookups, team, p, name);
      if exists m :: 0 <= m < |order| && repos[order[m]] == name && Grants(lookups[order[m]], team) {
        var m :| 0 <= m < |order| && repos[order[m]] == name && Grants(lookups[order[m]], team);
        if m < |p| { assert p[m] == order[m]; }
      }
      forall m | 0 <= m < |p| && repos[p[m]] == name && Grants(lookups[p[m]], team)
        ensures repos[order[m]] == name && Grants(lookups[order[m]], team)
      {
        assert order[m] == p[m];
      }
    }
  }
}
