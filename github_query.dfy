/** github.ts `queryPRs`: one pass over the batch responses collects the open
    pull requests of the non-archived repositories and the non-empty histories;
    the histories become the recent list exactly as in index.js. */
module GithubQuery {
  import opened Seqs
  import opened Sorting
  import opened Utils
  import opened Records
  import opened Batching
  import opened Responses
  import opened RecentMerges
  import opened OpenPulls

  /** github.ts:159-173: both lists in one walk over every alias entry. */
  method CollectResults(results: seq<BatchResponse>)
    returns (resultPRs: seq<PullRequest>, refCommits: seq<seq<HistoryCommit>>)
    ensures resultPRs == GithubCandidates(AllEntries(results))
    ensures refCommits == RefHistories(AllEntries(results))
  {
    resultPRs := [];
    refCommits := [];
    var i := 0;
    while i < |results|
      invariant 0 <= i <= |results|
      invariant resultPRs == GithubCandidates(AllEntries(results[..i]))
      invariant refCommits == RefHistories(AllEntries(results[..i]))
    {
      var entries := results[i].entries;
      var j := 0;
      assert AllEntries(results[..i]) + entries[..0] == AllEntries(results[..i]);
      while j < |entries|
        invariant 0 <= j <= |entries|
        invariant resultPRs == GithubCandidates(AllEntries(results[..i]) + entries[..j])
        invariant refCommits == RefHistories(AllEntries(results[..i]) + entries[..j])
      {
        var entry := entries[j];
        EntryStep(AllEntries(results[..i]), entries, j);
        var pullRequests := if entry.Some? then entry.value.pullRequests else [];
        if |pullRequests| > 0 && !entry.value.isArchived {
          resultPRs := resultPRs + pullRequests;
        }
        var keyRefCommits := EntryHistory(entry);
        if |keyRefCommits| > 0 {
          refCommits := refCommits + [keyRefCommits];
        }
        j := j + 1;
      }
      assert results[..i + 1][..i] == results[..i];
      assert entries[..j] == entries;
      i := i + 1;
    }
    assert results[..i] == results;
  }

  /** One more entry extends both lists by what that entry contributes. */
  lemma EntryStep(done: seq<Option<RepoEntry>>, entries: seq<Option<RepoEntry>>, j: nat)
    requires j < |entries|
    ensures var e, h := entries[j], EntryHistory(entries[j]);
      && GithubCandidates(done + entries[..j + 1])
         == GithubCandidates(done + entries[..j])
            + (if e.Some? && |e.value.pullRequests| > 0 && !e.value.isArchived then e.value.pullRequests else [])
      && RefHistories(done + entries[..j + 1])
         == RefHistories(done + entries[..j]) + (if |h| > 0 then [h] else [])
  {
    var s := done + entries[..j + 1];
    assert s[..|s| - 1] == done + entries[..j];
    assert s[|s| - 1] == entries[j];
  }

  /** github.ts names its fields `alias0` to `alias3`, so the endpoint never
      rejects one of its batches. */
  lemma QueryBatchesAccepted(server: Server, owner: string, repos: seq<string>, since: string)
    ensures RespondAll(server, MaxConcurrentBatchQueryPRs(owner, repos, since)).Some?
  {
    var reqs := MaxConcurrentBatchQueryPRs(owner, repos, since);
    assert forall i :: 0 <= i < |reqs| ==> Accepted(reqs[i]);
  }

  function QueryResponses(server: Server, owner: string, repos: seq<string>, since: string): seq<BatchResponse>
  {
    QueryBatchesAccepted(server, owner, repos, since);
    RespondAll(server, MaxConcurrentBatchQueryPRs(owner, repos, since)).value
  }

  /** `queryPRs` against `server`: `refCommits` (the recent list) and `resultPRs`
      (the open list). */
  method QueryPRs(server: Server, owner: string, repos: seq<string>, since: string)
    returns (recent: seq<RecentPR>, open: seq<PullRequest>)
    ensures var entries := AllEntries(QueryResponses(server, owner, repos, since));
      recent == RecentList(RefHistories(entries)) && open == OpenList(GithubCandidates(entries))
  {
    var results := RespondAll(server, MaxConcurrentBatchQueryPRs(owner, repos, since));
    QueryBatchesAccepted(server, owner, repos, since);
    var resultPRs, refCommits := CollectResults(results.value);
    var recentPullRequests := CollectRecentPRs(refCommits);
    var filteredRecentPRs := DedupByUrl(recentPullRequests);
    recent := SortBy(filteredRecentPRs, Negated(CommittedDate));
    open := Filter(SortBy(resultPRs, CreatedAt), NotDraft);
  }

  /** Every open pull request returned belongs to a repository that was asked
      for, resolved and is not archived, and is not a draft; every non-draft
      pull request of such a repository is returned. */
  lemma QueryOpenPRsMembership(server: Server, owner: string, repos: seq<string>, since: string, x: PullRequest)
    ensures x in OpenList(GithubCandidates(AllEntries(QueryResponses(server, owner, repos, since)))) <==>
      !x.isDraft && exists k :: 0 <= k < |repos| && repos[k] in server && !server[repos[k]].isArchived
                               && x in server[repos[k]].pullRequests
  {
    var reqs := MaxConcurrentBatchQueryPRs(owner, repos, since);
    assert NamesOf(reqs) == Chunks(repos, BatchSize);
    EntriesFollowRepos(server, reqs, repos);
    var entries := LookupAll(server, repos);
    var c := GithubCandidates(entries);
    OpenListProperties(c);
    GithubCandidatesMembership(entries, x);
    assert forall k :: 0 <= k < |repos| ==> entries[k] == Lookup(server, repos[k]);
  }
}
