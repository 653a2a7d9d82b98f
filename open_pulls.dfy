/** The open pull request list.  index.js `fetchOpenPRs` stamps each pull request
    with the name of the repository entry it came from and fails as a whole on a
    `null` entry; github.ts `queryPRs` takes the repository from the query itself,
    skips `null` and archived entries.  Both then sort by `createdAt` and drop
    drafts. */
module OpenPulls {
  import opened Seqs
  import opened Sorting
  import opened Utils
  import opened Records

  /** index.js `{ ...pr, repository: { name: repoName } }` for every pull request. */
  function Stamp(prs: seq<PullRequest>, name: string): seq<PullRequest>
  {
    seq(|prs|, i requires 0 <= i < |prs| => prs[i].(repository := name))
  }

  /** index.js `resultPRs`, or `None` when an entry is `null` and reading its
      `name` throws, so that the fetch leaves the list it had. */
  function OpenCandidates(entries: seq<Option<RepoEntry>>): Option<seq<PullRequest>>
  {
    if entries == [] then Some([])
    else
      var p, e := OpenCandidates(entries[..|entries| - 1]), entries[|entries| - 1];
      if p.None? || e.None? then None
      else Some(p.value + Stamp(e.value.pullRequests, e.value.name))
  }

  /** github.ts `resultPRs`: `?? []` turns a `null` entry into no pull requests,
      and an archived repository contributes none. */
  function GithubCandidates(entries: seq<Option<RepoEntry>>): seq<PullRequest>
  {
    if entries == [] then []
    else
      var p, e := GithubCandidates(entries[..|entries| - 1]), entries[|entries| - 1];
      if e.Some? && |e.value.pullRequests| > 0 && !e.value.isArchived then p + e.value.pullRequests else p
  }

  /** `resultPRs.sort(sortByCreatedAt).filter(pr => !pr.isDraft)`. */
  function OpenList(candidates: seq<PullRequest>): seq<PullRequest>
  {
    Filter(SortBy(candidates, CreatedAt), NotDraft)
  }

  /** `x` is pull request `j` of entry `e`, stamped with the entry's name. */
  predicate StampedFrom(e: RepoEntry, x: PullRequest)
  {
    exists j :: 0 <= j < |e.pullRequests| && x == e.pullRequests[j].(repository := e.name)
  }

  // ---------------------------------------------------------------------------
  // Lemmas

  /** The index.js list fails exactly when some entry is `null`. */
  lemma {:induction false} OpenCandidatesFail(entries: seq<Option<RepoEntry>>)
    ensures OpenCandidates(entries).None? <==> exists k :: 0 <= k < |entries| && entries[k].None?
  {
    if entries != [] {
      var p := entries[..|entries| - 1];
      OpenCandidatesFail(p);
      if exists k :: 0 <= k < |p| && p[k].None? {
        var k :| 0 <= k < |p| && p[k].None?;
        assert entries[k] == p[k];
      }
      if exists k :: 0 <= k < |entries| && entries[k].None? {
        var k :| 0 <= k < |entries| && entries[k].None?;
        if k < |p| { assert p[k] == entries[k]; }
      }
    }
  }

  /** A failure stays a failure whatever entries follow. */
  lemma OpenCandidatesFailPrefix(s: seq<Option<RepoEntry>>, t: seq<Option<RepoEntry>>)
    requires OpenCandidates(s).None?
    ensures OpenCandidates(s + t).None?
  {
    OpenCandidatesFail(s);
    var k :| 0 <= k < |s| && s[k].None?;
    assert (s + t)[k] == s[k];
    OpenCandidatesFail(s + t);
  }

  /** Every pull request of the index.js list is one of an entry's pull requests
      with the entry's name as its repository, and every such one is there. */
  lemma {:induction false} OpenCandidatesMembership(entries: seq<Option<RepoEntry>>, x: PullRequest)
    requires OpenCandidates(entries).Some?
    ensures x in OpenCandidates(entries).value <==>
      exists k :: 0 <= k < |entries| && entries[k].Some? && StampedFrom(entries[k].value, x)
  {
    if entries != [] {
      var p, e := entries[..|entries| - 1], entries[|entries| - 1];
      OpenCandidatesMembership(p, x);
      var st := Stamp(e.value.pullRequests, e.value.name);
      assert x in st <==> StampedFrom(e.value, x) by {
        if x in st {
          var j :| 0 <= j < |st| && st[j] == x;
          assert x == e.value.pullRequests[j].(repository := e.value.name);
        }
        if StampedFrom(e.value, x) {
          var j :| 0 <= j < |e.value.pullRequests| && x == e.value.pullRequests[j].(repository := e.value.name);
          assert st[j] == x;
        }
      }
      if exists k :: 0 <= k < |entries| && entries[k].Some? && StampedFrom(entries[k].value, x) {
        var k :| 0 <= k < |entries| && entries[k].Some? && StampedFrom(entries[k].value, x);
        if k < |p| { assert p[k] == entries[k]; }
      }
      forall k | 0 <= k < |p| && p[k].Some? && StampedFrom(p[k].value, x)
        ensures entries[k].Some? && StampedFrom(entries[k].value, x)
      {
        assert entries[k] == p[k];
      }
    }
  }

  /** The github.ts list holds exactly the pull requests of the entries that are
      present and not archived. */
  lemma {:induction false} GithubCandidatesMembership(entries: seq<Option<RepoEntry>>, x: PullRequest)
    ensures x in GithubCandidates(entries) <==>
      exists k :: 0 <= k < |entries| && entries[k].Some? && !entries[k].value.isArchived
                  && x in entries[k].value.pullRequests
  {
    if entries != [] {
      var p, e := entries[..|entries| - 1], entries[|entries| - 1];
      GithubCandidatesMembership(p, x);
      if exists k :: 0 <= k < |entries| && entries[k].Some? && !entries[k].value.isArchived
                     && x in entries[k].value.pullRequests {
        var k :| 0 <= k < |entries| && entries[k].Some? && !entries[k].value.isArchived
                 && x in entries[k].value.pullRequests;
        if k < |p| { assert p[k] == entries[k]; }
      }
      forall k | 0 <= k < |p| && p[k].Some? && !p[k].value.isArchived && x in p[k].value.pullRequests
        ensures entries[k].Some? && !entries[k].value.isArchived && x in entries[k].value.pullRequests
      {
        assert entries[k] == p[k];
      }
    }
  }

  /** The open list: no drafts, oldest first, exactly the non-draft candidates
      (as a multiset), and equal to filtering first and sorting after. */
  lemma OpenListProperties(c: seq<PullRequest>)
    ensures var r := OpenList(c);
      && (forall x :: x in r <==> x in c && !x.isDraft)
      && (forall i, j :: 0 <= i < j < |r| ==> SortByCreatedAt(r[i].createdAt, r[j].createdAt) <= 0)
      && multiset(r) == multiset(Filter(c, NotDraft))
      && r == SortBy(Filter(c, NotDraft), CreatedAt)
  {
    var r := OpenList(c);
    SortFilterCommute(c, CreatedAt, NotDraft);
    forall x ensures x in r <==> x in c && !x.isDraft {
      FilterMembership(c, NotDraft, x);
      assert x in r <==> x in multiset(Filter(c, NotDraft));
    }
  }
}
