/** index.js `fetchOpenPRs` and `fetchRecentPRs`: drop the ignored repositories,
    send the batched queries, and walk the responses into the open and the
    recently merged lists. */
module IndexFetch {
  import opened Seqs
  import opened Sorting
  import opened Utils
  import opened Records
  import opened Batching
  import opened Responses
  import opened RecentMerges
  import opened OpenPulls

  /** `repos.filter(repo => !ignoreRepos.includes(repo))`. */
  function ReposToQuery(repos: seq<string>, ignoreRepos: seq<string>): (r: seq<string>)
    ensures forall name :: name in r <==> name in repos && name !in ignoreRepos
  {
    var keep := (name: string) => name !in ignoreRepos;
    forall name ensures name in Filter(repos, keep) <==> name in repos && name !in ignoreRepos {
      FilterMembership(repos, keep, name);
    }
    Filter(repos, keep)
  }

  /** What `fetchOpenPRs` sets `PRs` to, or `None` when it fails and leaves it:
      a rejected batch or an unresolved name both fail the walk. */
  function IndexOpenPRs(responses: Option<seq<BatchResponse>>): Option<seq<PullRequest>>
  {
    if responses.None? then None
    else
      var c := OpenCandidates(AllEntries(responses.value));
      if c.None? then None else Some(OpenList(c.value))
  }

  /** What `fetchRecentPRs` sets `recentPRs` to, or `None` when a rejected
      batch fails the walk and leaves it. */
  function IndexRecentPRs(responses: Option<seq<BatchResponse>>): Option<seq<RecentPR>>
  {
    if responses.None? then None else Some(RecentList(RefHistories(AllEntries(responses.value))))
  }

  function OpenResponses(server: Server, owner: string, repos: seq<string>, ignoreRepos: seq<string>): Option<seq<BatchResponse>>
  {
    RespondAll(server, FetchBatchQueries(Open, owner, ReposToQuery(repos, ignoreRepos), ""))
  }

  function RecentResponses(server: Server, owner: string, repos: seq<string>, ignoreRepos: seq<string>, since: string): Option<seq<BatchResponse>>
  {
    RespondAll(server, FetchBatchQueries(Recent, owner, ReposToQuery(repos, ignoreRepos), since))
  }

  lemma AllEntriesSnoc(results: seq<BatchResponse>, i: nat)
    requires i < |results|
    ensures AllEntries(results[..i + 1]) == AllEntries(results[..i]) + results[i].entries
  {
    assert results[..i + 1][..i] == results[..i];
  }

  /** index.js:163-178: every entry's pull requests, stamped with its name; a
      `null` entry throws at `result.data[key].name`. */
  method CollectOpenPRs(results: seq<BatchResponse>) returns (prs: Option<seq<PullRequest>>)
    ensures prs == OpenCandidates(AllEntries(results))
  {
    var acc: seq<PullRequest> := [];
    var i := 0;
    while i < |results|
      invariant 0 <= i <= |results|
      invariant OpenCandidates(AllEntries(results[..i])) == Some(acc)
    {
      var next := CollectEntryPRs(AllEntries(results[..i]), acc, results[i].entries);
      AllEntriesSnoc(results, i);
      if next.None? {
        FailedPrefixAbandonsFetch(results, i + 1);
        return None;
      }
      acc := next.value;
      i := i + 1;
    }
    assert results[..i] == results;
    prs := Some(acc);
  }

  /** The inner `keys.forEach` of one response: appends each entry's stamped
      pull requests to `acc`, the list built from the entries before them. */
  method CollectEntryPRs(ghost before: seq<Option<RepoEntry>>, acc: seq<PullRequest>, entries: seq<Option<RepoEntry>>)
    returns (r: Option<seq<PullRequest>>)
    requires OpenCandidates(before) == Some(acc)
    ensures r == OpenCandidates(before + entries)
  {
    var cur := acc;
    var j := 0;
    assert before + entries[..0] == before;
    while j < |entries|
      invariant 0 <= j <= |entries|
      invariant OpenCandidates(before + entries[..j]) == Some(cur)
    {
      var upTo := before + entries[..j + 1];
      assert upTo[..|upTo| - 1] == before + entries[..j];
      assert upTo[|upTo| - 1] == entries[j];
      if entries[j].None? {
        OpenCandidatesFailPrefix(upTo, entries[j + 1..]);
        assert upTo + entries[j + 1..] == before + entries;
        return None;
      }
      var repo := entries[j].value;
      if |repo.pullRequests| > 0 {
        cur := cur + Stamp(repo.pullRequests, repo.name);
      } else {
        assert cur + Stamp(repo.pullRequests, repo.name) == cur;
      }
      j := j + 1;
    }
    assert entries[..j] == entries;
    r := Some(cur);
  }

  /** A `null` entry met in the walk makes the whole list fail: once the
      entries of the first `k` responses fail, so do those of all of them. */
  lemma FailedPrefixAbandonsFetch(results: seq<BatchResponse>, k: nat)
    requires k <= |results| && OpenCandidates(AllEntries(results[..k])).None?
    ensures OpenCandidates(AllEntries(results)).None?
  {
    assert results == results[..k] + results[k..];
    AllEntriesAppend(results[..k], results[k..]);
    OpenCandidatesFailPrefix(AllEntries(results[..k]), AllEntries(results[k..]));
  }

  /** index.js:126-135: the histories of the entries that have commits. */
  method CollectRefCommits(results: seq<BatchResponse>) returns (refs: seq<seq<HistoryCommit>>)
    ensures refs == RefHistories(AllEntries(results))
  {
    refs := [];
    var i := 0;
    while i < |results|
      invariant 0 <= i <= |results|
      invariant refs == RefHistories(AllEntries(results[..i]))
    {
      refs := CollectEntryHistories(AllEntries(results[..i]), refs, results[i].entries);
      AllEntriesSnoc(results, i);
      i := i + 1;
    }
    assert results[..i] == results;
  }

  /** The inner `keys.forEach` of one response: pushes the history of every
      entry that has commits. */
  method CollectEntryHistories(ghost before: seq<Option<RepoEntry>>, refs: seq<seq<HistoryCommit>>,
                               entries: seq<Option<RepoEntry>>)
    returns (r: seq<seq<HistoryCommit>>)
    requires refs == RefHistories(before)
    ensures r == RefHistories(before + entries)
  {
    r := refs;
    var j := 0;
    assert before + entries[..0] == before;
    while j < |entries|
      invariant 0 <= j <= |entries|
      invariant r == RefHistories(before + entries[..j])
    {
      var upTo := before + entries[..j + 1];
      assert upTo[..|upTo| - 1] == before + entries[..j];
      assert upTo[|upTo| - 1] == entries[j];
      var history := EntryHistory(entries[j]);
      if |history| > 0 {
        r := r + [history];
      }
      j := j + 1;
    }
    assert entries[..j] == entries;
  }

  /** `fetchOpenPRs` against `server`: the new `PRs`, or `None` when the walk
      throws and the list is left as it was. */
  method FetchOpenPRs(server: Server, owner: string, repos: seq<string>, ignoreRepos: seq<string>)
    returns (prs: Option<seq<PullRequest>>)
    ensures prs == IndexOpenPRs(OpenResponses(server, owner, repos, ignoreRepos))
  {
    var filteredRepos := ReposToQuery(repos, ignoreRepos);
    var results := RespondAll(server, FetchBatchQueries(Open, owner, filteredRepos, ""));
    if results.None? {
      return None;
    }
    var collected := CollectOpenPRs(results.value);
    if collected.None? {
      return None;
    }
    prs := Some(Filter(SortBy(collected.value, CreatedAt), NotDraft));
  }

  /** `fetchRecentPRs` against `server`: the new `recentPRs`, or `None` when
      the walk throws and the list is left as it was. */
  method FetchRecentPRs(server: Server, owner: string, repos: seq<string>, ignoreRepos: seq<string>, since: string)
    returns (recent: Option<seq<RecentPR>>)
    ensures recent == IndexRecentPRs(RecentResponses(server, owner, repos, ignoreRepos, since))
  {
    var filteredRepos := ReposToQuery(repos, ignoreRepos);
    var results := RespondAll(server, FetchBatchQueries(Recent, owner, filteredRepos, since));
    if results.None? {
      return None;
    }
    var refs := CollectRefCommits(results.value);
    var recentPullRequests := CollectRecentPRs(refs);
    var filtered := DedupByUrl(recentPullRequests);
    recent := Some(SortBy(filtered, Negated(CommittedDate)));
  }

  /** Two configured names that strip to the same alias, such as `a-b` and
      `ab`, make every open and recent fetch fail, whatever the server holds. */
  lemma CollidingAliasesAbandonFetches(server: Server, owner: string, since: string)
    ensures IndexOpenPRs(OpenResponses(server, owner, ["a-b", "ab"], [])).None?
    ensures IndexRecentPRs(RecentResponses(server, owner, ["a-b", "ab"], [], since)).None?
  {
    assert ReposToQuery(["a-b", "ab"], []) == ["a-b", "ab"] by {
      var keep := (name: string) => name !in [];
      assert Filter(["ab"], keep) == ["ab"] + Filter([], keep);
      assert ["a-b", "ab"][1..] == ["ab"];
    }
    CollidingBatch(server, Open, owner, "");
    CollidingBatch(server, Recent, owner, since);
  }

  lemma CollidingBatch(server: Server, kind: BatchKind, owner: string, since: string)
    ensures RespondAll(server, FetchBatchQueries(kind, owner, ["a-b", "ab"], since)).None?
  {
    SingleChunk(["a-b", "ab"]);
    StripAliasesCollide(kind, owner, since);
    assert !Accepted(FetchBatchQueries(kind, owner, ["a-b", "ab"], since)[0]);
  }

  /** A repository configured twice within one batch is asked for twice under
      one alias; the endpoint merges the two fields, so both fetches give what
      they give for the repository configured once. */
  lemma RepeatedRepositoryFetchedOnce(server: Server, owner: string, since: string)
    ensures IndexOpenPRs(OpenResponses(server, owner, ["a", "a"], [])) == IndexOpenPRs(OpenResponses(server, owner, ["a"], []))
    ensures IndexRecentPRs(RecentResponses(server, owner, ["a", "a"], [], since))
         == IndexRecentPRs(RecentResponses(server, owner, ["a"], [], since))
    ensures IndexRecentPRs(RecentResponses(server, owner, ["a"], [], since)).Some?
  {
    QueryRepeated();
    RepeatedBatch(server, Open, owner, "");
    RepeatedBatch(server, Recent, owner, since);
  }

  lemma QueryRepeated()
    ensures ReposToQuery(["a", "a"], []) == ["a", "a"] && ReposToQuery(["a"], []) == ["a"]
  {
    var keep := (name: string) => name !in [];
    assert Filter(["a"], keep) == ["a"] + Filter([], keep);
    assert ["a", "a"][1..] == ["a"];
  }

  lemma RepeatedBatch(server: Server, kind: BatchKind, owner: string, since: string)
    ensures RespondAll(server, FetchBatchQueries(kind, owner, ["a", "a"], since))
         == RespondAll(server, FetchBatchQueries(kind, owner, ["a"], since))
    ensures RespondAll(server, FetchBatchQueries(kind, owner, ["a"], since)).Some?
  {
    var twice, once := BuildBatchQuery(kind, owner, ["a", "a"], since), BuildBatchQuery(kind, owner, ["a"], since);
    SingleChunk(["a", "a"]);
    SingleChunk(["a"]);
    assert FetchBatchQueries(kind, owner, ["a", "a"], since) == [twice];
    assert FetchBatchQueries(kind, owner, ["a"], since) == [once];
    PlainAlias("a");
    var f := AliasedRepo("a", "a");
    assert twice == BatchRequest(owner, twice.since, [f, f]);
    assert once == BatchRequest(owner, twice.since, [f]);
    RepeatedFieldAnsweredOnce(server, owner, twice.since);
    assert Accepted(twice) && Accepted(once);
    assert Answers(server, [twice]) == [Answer(server, twice)] == [Answer(server, once)] == Answers(server, [once]);
  }

  lemma SingleChunk(q: seq<string>)
    requires 0 < |q| <= BatchSize
    ensures Chunks(q, BatchSize) == [q]
  {
    assert CeilDiv(|q|, BatchSize) == 1;
    assert Chunks(q, BatchSize)[0] == Slice(q, 0, 4) == q;
  }

  /** The open list fails exactly when some batch is rejected or some queried
      name does not resolve; when it succeeds, each pull request in it is a
      non-draft pull request of a repository that was asked for and is not
      ignored, and carries that repository's name.  (The endpoint matches names without regard to case
      and answers with the stored name; the lemma assumes the configured names
      are the stored ones.) */
  lemma OpenPRsComeFromQueriedRepos(server: Server, owner: string, repos: seq<string>, ignoreRepos: seq<string>)
    requires NamesAreCanonical(server)
    ensures var q := ReposToQuery(repos, ignoreRepos);
      var reqs := FetchBatchQueries(Open, owner, q, "");
      var r := IndexOpenPRs(OpenResponses(server, owner, repos, ignoreRepos));
      && (r.None? <==> (exists i :: 0 <= i < |reqs| && !Accepted(reqs[i])) || exists k :: 0 <= k < |q| && q[k] !in server)
      && (r.Some? ==> forall x :: x in r.value ==>
            !x.isDraft && x.repository in repos && x.repository !in ignoreRepos)
      && (r.Some? ==> forall k, p ::
            (0 <= k < |repos| && repos[k] !in ignoreRepos && repos[k] in server &&
             p in server[repos[k]].pullRequests && !p.isDraft) ==>
            p.(repository := server[repos[k]].name) in r.value)
  {
    var q := ReposToQuery(repos, ignoreRepos);
    var reqs := FetchBatchQueries(Open, owner, q, "");
    assert NamesOf(reqs) == Chunks(q, BatchSize);
    EntriesFollowRepos(server, reqs, q);
    if AllAccepted(reqs) {
      var keys := Flatten(KeysOf(reqs));
      OpenFromKeys(server, keys, q, repos, ignoreRepos);
      OpenFromKeysComplete(server, keys, q);
      assert forall k :: 0 <= k < |repos| && repos[k] !in ignoreRepos ==> repos[k] in q;
    }
  }

  /** Every non-draft pull request of a queried repository that the endpoint
      knows is in the open list, stamped with the entry's name. */
  lemma OpenFromKeysComplete(server: Server, keys: seq<string>, q: seq<string>)
    requires forall n :: n in keys <==> n in q
    ensures var c := OpenCandidates(LookupAll(server, keys));
      c.Some? ==> forall n, p :: n in q && n in server && p in server[n].pullRequests && !p.isDraft ==>
        p.(repository := server[n].name) in OpenList(c.value)
  {
    var entries := LookupAll(server, keys);
    var c := OpenCandidates(entries);
    if c.Some? {
      OpenListProperties(c.value);
      forall n, p | n in q && n in server && p in server[n].pullRequests && !p.isDraft
        ensures p.(repository := server[n].name) in OpenList(c.value)
      {
        var x := p.(repository := server[n].name);
        var j :| 0 <= j < |keys| && keys[j] == n;
        assert entries[j] == Some(server[n]);
        var i :| 0 <= i < |server[n].pullRequests| && server[n].pullRequests[i] == p;
        assert StampedFrom(entries[j].value, x);
        OpenCandidatesMembership(entries, x);
      }
    }
  }

  /** The open walk over the lookups of `keys`, a list holding exactly the
      queried names. */
  lemma OpenFromKeys(server: Server, keys: seq<string>, q: seq<string>, repos: seq<string>, ignoreRepos: seq<string>)
    requires NamesAreCanonical(server)
    requires forall n :: n in keys <==> n in q
    requires forall n :: n in q <==> n in repos && n !in ignoreRepos
    ensures var c := OpenCandidates(LookupAll(server, keys));
      && (c.None? <==> exists k :: 0 <= k < |q| && q[k] !in server)
      && (c.Some? ==> forall x :: x in OpenList(c.value) ==>
            !x.isDraft && x.repository in repos && x.repository !in ignoreRepos)
  {
    var entries := LookupAll(server, keys);
    OpenCandidatesFail(entries);
    assert forall k :: 0 <= k < |keys| ==> (entries[k].None? <==> keys[k] !in server);
    if exists k :: 0 <= k < |q| && q[k] !in server {
      var k :| 0 <= k < |q| && q[k] !in server;
      assert q[k] in q;
      var j :| 0 <= j < |keys| && keys[j] == q[k];
      assert entries[j].None?;
    }
    if exists j :: 0 <= j < |keys| && keys[j] !in server {
      var j :| 0 <= j < |keys| && keys[j] !in server;
      assert keys[j] in keys;
    }
    var c := OpenCandidates(entries);
    if c.Some? {
      OpenListProperties(c.value);
      forall x | x in OpenList(c.value)
        ensures !x.isDraft && x.repository in repos && x.repository !in ignoreRepos
      {
        OpenCandidatesMembership(entries, x);
        var k :| 0 <= k < |entries| && entries[k].Some? && StampedFrom(entries[k].value, x);
        assert keys[k] in keys;
      }
    }
  }

  /** Two repositories: `A` with a draft and a ready pull request, `B` with one
      older pull request. The open list is `B`'s pull request and then `A`'s
      ready one, each carrying its repository's name. */
  lemma TwoRepositoryScenario(a1: PullRequest, a2: PullRequest, b: PullRequest)
    requires a1.isDraft && !a2.isDraft && !b.isDraft && b.createdAt < a2.createdAt
    ensures var server := map["A" := RepoEntry("A", false, [a1, a2], []), "B" := RepoEntry("B", false, [b], [])];
      IndexOpenPRs(OpenResponses(server, "acme", ["A", "B"], [])) == Some([b.(repository := "B"), a2.(repository := "A")])
  {
    var server := map["A" := RepoEntry("A", false, [a1, a2], []), "B" := RepoEntry("B", false, [b], [])];
    ScenarioCandidates(server, a1, a2, b);
    ScenarioOrder(a1.(repository := "A"), a2.(repository := "A"), b.(repository := "B"));
    IndexOpenFromCandidates(OpenResponses(server, "acme", ["A", "B"], []),
                            [a1.(repository := "A"), a2.(repository := "A"), b.(repository := "B")]);
  }

  lemma IndexOpenFromCandidates(responses: Option<seq<BatchResponse>>, c: seq<PullRequest>)
    requires responses.Some? && OpenCandidates(AllEntries(responses.value)) == Some(c)
    ensures IndexOpenPRs(responses) == Some(OpenList(c))
  {
  }

  lemma ScenarioCandidates(server: Server, a1: PullRequest, a2: PullRequest, b: PullRequest)
    requires server == map["A" := RepoEntry("A", false, [a1, a2], []), "B" := RepoEntry("B", false, [b], [])]
    ensures OpenResponses(server, "acme", ["A", "B"], []).Some?
    ensures OpenCandidates(AllEntries(OpenResponses(server, "acme", ["A", "B"], []).value))
         == Some([a1.(repository := "A"), a2.(repository := "A"), b.(repository := "B")])
  {
    var q := ReposToQuery(["A", "B"], []);
    assert q == ["A", "B"] by {
      var keep := (name: string) => name !in [];
      assert Filter(["B"], keep) == ["B"] + Filter([], keep);
      assert ["A", "B"][1..] == ["B"];
    }
    ScenarioEntries(server, q);
    ScenarioWalk(server, LookupAll(server, q), a1, a2, b);
  }

  lemma ScenarioEntries(server: Server, q: seq<string>)
    requires q == ReposToQuery(["A", "B"], []) && q == ["A", "B"]
    ensures OpenResponses(server, "acme", ["A", "B"], []).Some?
    ensures AllEntries(OpenResponses(server, "acme", ["A", "B"], []).value) == LookupAll(server, q)
  {
    var reqs := FetchBatchQueries(Open, "acme", q, "");
    assert NamesOf(reqs) == Chunks(q, BatchSize);
    ScenarioAccepted(q);
    EntriesFollowRepos(server, reqs, q);
  }

  lemma ScenarioWalk(server: Server, entries: seq<Option<RepoEntry>>, a1: PullRequest, a2: PullRequest, b: PullRequest)
    requires server == map["A" := RepoEntry("A", false, [a1, a2], []), "B" := RepoEntry("B", false, [b], [])]
    requires entries == LookupAll(server, ["A", "B"])
    ensures OpenCandidates(entries) == Some([a1.(repository := "A"), a2.(repository := "A"), b.(repository := "B")])
  {
    assert entries == [Some(server["A"]), Some(server["B"])];
    var sa, sb := Stamp([a1, a2], "A"), Stamp([b], "B");
    assert OpenCandidates(entries[..1]) == Some(sa) by {
      assert entries[..1][..0] == [] && entries[..1][0] == Some(server["A"]);
      assert server["A"].pullRequests == [a1, a2] && server["A"].name == "A";
      assert [] + sa == sa;
    }
    assert OpenCandidates(entries) == Some(sa + sb) by {
      assert entries[..|entries| - 1] == entries[..1];
    }
    assert sa + sb == [a1.(repository := "A"), a2.(repository := "A"), b.(repository := "B")];
  }

  /** The scenario's one batch has the aliases `A` and `B`. */
  lemma ScenarioAccepted(q: seq<string>)
    requires q == ["A", "B"]
    ensures AllAccepted(FetchBatchQueries(Open, "acme", q, ""))
    ensures forall i :: 0 <= i < |FetchBatchQueries(Open, "acme", q, "")| ==>
      AliasesDistinct(FetchBatchQueries(Open, "acme", q, "")[i].fields)
  {
    var reqs := FetchBatchQueries(Open, "acme", q, "");
    assert CeilDiv(|q|, BatchSize) == 1 && Chunks(q, BatchSize)[0] == Slice(q, 0, 4) == q;
    var req := BuildBatchQuery(Open, "acme", q, "");
    assert reqs == [req];
    PlainAlias("A");
    PlainAlias("B");
    assert req.fields == [AliasedRepo("A", "A"), AliasedRepo("B", "B")];
    PlainFieldsAccepted(req);
  }

  lemma PlainFieldsAccepted(req: BatchRequest)
    requires req.fields == [AliasedRepo("A", "A"), AliasedRepo("B", "B")]
    ensures Accepted(req) && AliasesDistinct(req.fields)
  {
    PlainAlias("A");
    PlainAlias("B");
  }

  /** A one-letter name is its own alias, and a GraphQL Name. */
  lemma PlainAlias(name: string)
    requires |name| == 1 && IsLetter(name[0])
    ensures StripAlias(name) == name && IsGraphQLName(name)
  {
    assert name[1..] == [];
  }

  lemma ScenarioOrder(x1: PullRequest, x2: PullRequest, y: PullRequest)
    requires x1.isDraft && !x2.isDraft && !y.isDraft && y.createdAt < x2.createdAt
    ensures OpenList([x1, x2, y]) == [y, x2]
  {
    SortFilterCommute([x1, x2, y], CreatedAt, NotDraft);
    DropDraft(x1, x2, y);
    SortPair(x2, y);
  }

  lemma DropDraft(x1: PullRequest, x2: PullRequest, y: PullRequest)
    requires x1.isDraft && !x2.isDraft && !y.isDraft
    ensures Filter([x1, x2, y], NotDraft) == [x2, y]
  {
    assert [y][1..] == [];
    assert Filter([y], NotDraft) == [y] + Filter([], NotDraft);
    assert [x2, y][1..] == [y];
    assert Filter([x2, y], NotDraft) == [x2] + Filter([y], NotDraft);
    assert [x1, x2, y][1..] == [x2, y];
    assert Filter([x1, x2, y], NotDraft) == [] + Filter([x2, y], NotDraft);
  }

  lemma SortPair(x: PullRequest, y: PullRequest)
    requires y.createdAt < x.createdAt
    ensures SortBy([x, y], CreatedAt) == [y, x]
  {
    assert [x, y][1..] == [y] && [y][1..] == [];
    assert SortBy([y], CreatedAt) == [y];
    assert InsertFirst(x, [y], CreatedAt) == [y] + InsertFirst(x, [], CreatedAt);
  }
}
