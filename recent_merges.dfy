/** The recently-merged path, shared verbatim by index.js `fetchRecentPRs` and
    github.ts `queryPRs`: every commit of a default-branch history that has more
    than one parent contributes each of its associated pull requests, stamped
    with the commit's `committedDate`; the list is then reduced to the first
    record per URL and sorted newest merge first. */
module RecentMerges {
  import opened Seqs
  import opened Sorting
  import opened Utils
  import opened Records

  // ---------------------------------------------------------------------------
  // Specification functions

  /** `pr['committedDate'] = commit.committedDate` for every associated PR. */
  function StampAll(prs: seq<AssociatedPR>, date: Timestamp): seq<RecentPR>
  {
    seq(|prs|, i requires 0 <= i < |prs| => RecentPR(prs[i], date))
  }

  /** What one history commit contributes: nothing unless it is a merge commit. */
  function FromCommit(c: HistoryCommit): seq<RecentPR>
  {
    if c.parentCount > 1 then StampAll(c.associated, c.committedDate) else []
  }

  /** A commit with a single parent contributes nothing; a merge commit
      contributes each of its associated pull requests, in order, stamped with
      its own date. */
  lemma MergeCommitHeuristic(c: HistoryCommit)
    ensures c.parentCount <= 1 ==> FromCommit(c) == []
    ensures c.parentCount > 1 ==> |FromCommit(c)| == |c.associated|
    ensures c.parentCount > 1 ==>
      forall i :: 0 <= i < |c.associated| ==> FromCommit(c)[i] == RecentPR(c.associated[i], c.committedDate)
  {
  }

  function FromHistory(h: seq<HistoryCommit>): seq<RecentPR>
  {
    if h == [] then [] else FromHistory(h[..|h| - 1]) + FromCommit(h[|h| - 1])
  }

  function FromRefs(refs: seq<seq<HistoryCommit>>): seq<RecentPR>
  {
    if refs == [] then [] else FromRefs(refs[..|refs| - 1]) + FromHistory(refs[|refs| - 1])
  }

  /** `result.data[key]?.ref?.target?.history?.nodes ?? []`. */
  function EntryHistory(e: Option<RepoEntry>): seq<HistoryCommit>
  {
    if e.Some? then e.value.history else []
  }

  /** `refCommits`: the histories of the alias entries that have at least one commit. */
  function RefHistories(entries: seq<Option<RepoEntry>>): seq<seq<HistoryCommit>>
  {
    if entries == [] then []
    else
      var h := EntryHistory(entries[|entries| - 1]);
      RefHistories(entries[..|entries| - 1]) + (if |h| > 0 then [h] else [])
  }

  /** Commit `c` contributes `x`: a merge commit, one of its associated pull
      requests, stamped with its date. */
  predicate ContributedBy(c: HistoryCommit, x: RecentPR)
  {
    c.parentCount > 1 && x.pr in c.associated && x.committedDate == c.committedDate
  }

  function UrlSet(s: seq<RecentPR>): set<string>
  {
    set x | x in s :: x.pr.url
  }

  /** The reduction to one record per URL, keeping the first. */
  function Deduped(s: seq<RecentPR>): seq<RecentPR>
  {
    if s == [] then []
    else
      var p, last := s[..|s| - 1], s[|s| - 1];
      if last.pr.url in UrlSet(p) then Deduped(p) else Deduped(p) + [last]
  }

  /** `recentPullRequests.map(pr => pr.url)`. */
  function UrlList(s: seq<RecentPR>): seq<string>
  {
    seq(|s|, i requires 0 <= i < |s| => s[i].pr.url)
  }

  /** `[...new Set(urls)]`: each URL once, in order of first insertion. */
  function SetOrder(u: seq<string>): seq<string>
  {
    if u == [] then []
    else
      var p := SetOrder(u[..|u| - 1]);
      if u[|u| - 1] in p then p else p + [u[|u| - 1]]
  }

  /** `recentPullRequests.find(pr => pr.url === url)`: the earliest record with
      that URL, or `undefined`. */
  function FindByUrl(s: seq<RecentPR>, url: string): Option<RecentPR>
  {
    if s == [] then None
    else
      var f := FindByUrl(s[..|s| - 1], url);
      if f.Some? then f else if s[|s| - 1].pr.url == url then Some(s[|s| - 1]) else None
  }

  /** The source's own formulation: `[...new Set(urls)].map(url => find(url))`. */
  function SetThenFind(s: seq<RecentPR>): seq<Option<RecentPR>>
  {
    var u := SetOrder(UrlList(s));
    seq(|u|, j requires 0 <= j < |u| => FindByUrl(s, u[j]))
  }

  /** The recent list as both builds return it: deduplicated, newest merge first. */
  function RecentList(refs: seq<seq<HistoryCommit>>): seq<RecentPR>
  {
    SortBy(Deduped(FromRefs(refs)), Negated(CommittedDate))
  }

  // ---------------------------------------------------------------------------
  // The loops of the source

  /** index.js:138-142 / github.ts:176-180: walk refs, commits and associated PRs,
      pushing a stamped copy for every merge commit. */
  method CollectRecentPRs(refs: seq<seq<HistoryCommit>>) returns (recent: seq<RecentPR>)
    ensures recent == FromRefs(refs)
  {
    recent := [];
    var i := 0;
    while i < |refs|
      invariant 0 <= i <= |refs|
      invariant recent == FromRefs(refs[..i])
    {
      recent := CollectFromHistory(recent, refs[i]);
      assert refs[..i + 1][..i] == refs[..i];
      i := i + 1;
    }
    assert refs[..i] == refs;
  }

  /** The two inner `forEach` loops over one ref's history: pushes onto `recent`
      the stamped pull requests of every merge commit. */
  method CollectFromHistory(recent: seq<RecentPR>, nodes: seq<HistoryCommit>) returns (r: seq<RecentPR>)
    ensures r == recent + FromHistory(nodes)
  {
    r := recent;
    var j := 0;
    while j < |nodes|
      invariant 0 <= j <= |nodes|
      invariant r == recent + FromHistory(nodes[..j])
    {
      r := PushMerged(r, nodes[j]);
      assert nodes[..j + 1][..j] == nodes[..j];
      j := j + 1;
    }
    assert nodes[..j] == nodes;
  }

  /** The innermost `forEach`: a merge commit pushes each associated pull
      request stamped with its date; any other commit pushes nothing. */
  method PushMerged(recent: seq<RecentPR>, commit: HistoryCommit) returns (r: seq<RecentPR>)
    ensures r == recent + FromCommit(commit)
  {
    r := recent;
    if commit.parentCount > 1 {
      var k := 0;
      while k < |commit.associated|
        invariant 0 <= k <= |commit.associated|
        invariant r == recent + StampAll(commit.associated[..k], commit.committedDate)
      {
        assert StampAll(commit.associated[..k + 1], commit.committedDate)
            == StampAll(commit.associated[..k], commit.committedDate)
               + [RecentPR(commit.associated[k], commit.committedDate)];
        r := r + [RecentPR(commit.associated[k], commit.committedDate)];
        k := k + 1;
      }
      assert commit.associated[..k] == commit.associated;
    }
  }

  /** index.js:143 / github.ts:181, as one pass with the set of URLs seen so far. */
  method DedupByUrl(recent: seq<RecentPR>) returns (r: seq<RecentPR>)
    ensures r == Deduped(recent)
    ensures DistinctBy(r, Url) && UrlSet(r) == UrlSet(recent)
    ensures forall j :: 0 <= j < |r| ==> FindByUrl(recent, r[j].pr.url) == Some(r[j])
  {
    r := [];
    var seen: set<string> := {};
    var i := 0;
    while i < |recent|
      invariant 0 <= i <= |recent|
      invariant seen == UrlSet(recent[..i])
      invariant r == Deduped(recent[..i])
    {
      var pr := recent[i];
      assert recent[..i + 1][..i] == recent[..i];
      UrlSetSnoc(recent[..i], pr);
      assert recent[..i + 1] == recent[..i] + [pr];
      if pr.pr.url !in seen {
        r := r + [pr];
        seen := seen + {pr.pr.url};
      }
      i := i + 1;
    }
    assert recent[..i] == recent;
    DedupedProperties(recent);
  }

  // ---------------------------------------------------------------------------
  // Lemmas

  lemma UrlSetSnoc(p: seq<RecentPR>, e: RecentPR)
    ensures UrlSet(p + [e]) == UrlSet(p) + {e.pr.url}
  {
    forall u | u in UrlSet(p + [e]) ensures u in UrlSet(p) + {e.pr.url} {
      var x :| x in p + [e] && x.pr.url == u;
      if x != e { assert x in p; }
    }
    forall u | u in UrlSet(p) ensures u in UrlSet(p + [e]) {
      var x :| x in p && x.pr.url == u;
      assert x in p + [e];
    }
    assert e in p + [e];
  }

  /** A record for `url` is found exactly when some record carries that URL,
      and the one found is the earliest. */
  lemma {:induction false} FindByUrlIsFirst(s: seq<RecentPR>, url: string)
    ensures FindByUrl(s, url).Some? <==> url in UrlSet(s)
    ensures FindByUrl(s, url).Some? ==>
      exists i :: 0 <= i < |s| && s[i] == FindByUrl(s, url).value && s[i].pr.url == url
        && forall j :: 0 <= j < i ==> s[j].pr.url != url
  {
    if s != [] {
      var p, e := s[..|s| - 1], s[|s| - 1];
      assert s == p + [e];
      FindByUrlIsFirst(p, url);
      UrlSetSnoc(p, e);
      if FindByUrl(p, url).Some? {
        var i :| 0 <= i < |p| && p[i] == FindByUrl(p, url).value && p[i].pr.url == url
          && forall j :: 0 <= j < i ==> p[j].pr.url != url;
        assert s[i] == p[i];
      } else if e.pr.url == url {
        forall j | 0 <= j < |p| ensures p[j].pr.url != url {
          assert p[j] in p;
        }
        assert s[|s| - 1] == e;
      }
    }
  }

  /** The deduplicated list has pairwise-distinct URLs, the same URLs as its
      input, and each record in it is the first record of its URL. */
  lemma {:induction false} DedupedProperties(s: seq<RecentPR>)
    ensures DistinctBy(Deduped(s), Url)
    ensures UrlSet(Deduped(s)) == UrlSet(s)
    ensures forall j :: 0 <= j < |Deduped(s)| ==> FindByUrl(s, Deduped(s)[j].pr.url) == Some(Deduped(s)[j])
    ensures forall x :: x in Deduped(s) ==> x in s
  {
    if s != [] {
      var p, e := s[..|s| - 1], s[|s| - 1];
      assert s == p + [e];
      DedupedProperties(p);
      UrlSetSnoc(p, e);
      var dp := Deduped(p);
      forall j | 0 <= j < |dp| ensures FindByUrl(s, dp[j].pr.url) == Some(dp[j]) {
        assert FindByUrl(p, dp[j].pr.url) == Some(dp[j]);
      }
      if e.pr.url !in UrlSet(p) {
        UrlSetSnoc(dp, e);
        FindByUrlIsFirst(p, e.pr.url);
        var d := dp + [e];
        forall i, j | 0 <= i < j < |d| ensures Url(d[i]) != Url(d[j]) {
          if j == |d| - 1 {
            assert d[i] in dp;
          }
        }
      }
    }
  }

  lemma {:induction false} SetOrderMembership(u: seq<string>, x: string)
    ensures x in SetOrder(u) <==> x in u
  {
    if u != [] {
      SetOrderMembership(u[..|u| - 1], x);
      assert u == u[..|u| - 1] + [u[|u| - 1]];
    }
  }

  lemma UrlListMembership(s: seq<RecentPR>, url: string)
    ensures url in UrlList(s) <==> url in UrlSet(s)
  {
    if url in UrlList(s) {
      var i :| 0 <= i < |s| && UrlList(s)[i] == url;
      assert s[i] in s;
    }
    if url in UrlSet(s) {
      var x :| x in s && x.pr.url == url;
      var i :| 0 <= i < |s| && s[i] == x;
      assert UrlList(s)[i] == url;
    }
  }

  /** The one-pass deduplication is the source's `Set` + `find` formulation:
      the same records, in the same order. */
  lemma {:induction false} DedupMatchesSetThenFind(s: seq<RecentPR>)
    ensures |SetThenFind(s)| == |Deduped(s)|
    ensures forall j :: 0 <= j < |Deduped(s)| ==> SetThenFind(s)[j] == Some(Deduped(s)[j])
  {
    if s != [] {
      var p, e := s[..|s| - 1], s[|s| - 1];
      assert s == p + [e];
      DedupMatchesSetThenFind(p);
      assert UrlList(s) == UrlList(p) + [e.pr.url];
      assert UrlList(s)[..|UrlList(s)| - 1] == UrlList(p);
      SetOrderMembership(UrlList(p), e.pr.url);
      UrlListMembership(p, e.pr.url);
      FindByUrlIsFirst(p, e.pr.url);
      var up := SetOrder(UrlList(p));
      var dp := Deduped(p);
      forall j | 0 <= j < |up| ensures FindByUrl(s, up[j]) == FindByUrl(p, up[j]) {
        assert SetThenFind(p)[j] == FindByUrl(p, up[j]);
      }
    }
  }

  lemma {:induction false} FromHistoryMembership(h: seq<HistoryCommit>, x: RecentPR)
    ensures x in FromHistory(h) <==> exists j :: 0 <= j < |h| && ContributedBy(h[j], x)
  {
    if h != [] {
      var p, c := h[..|h| - 1], h[|h| - 1];
      assert h == p + [c];
      FromHistoryMembership(p, x);
      if x in FromCommit(c) {
        var k :| 0 <= k < |FromCommit(c)| && FromCommit(c)[k] == x;
        assert c.associated[k] == x.pr;
        assert ContributedBy(h[|h| - 1], x);
      }
      if ContributedBy(c, x) {
        var k :| 0 <= k < |c.associated| && c.associated[k] == x.pr;
        assert FromCommit(c)[k] == x;
      }
      if exists j :: 0 <= j < |h| && ContributedBy(h[j], x) {
        var j :| 0 <= j < |h| && ContributedBy(h[j], x);
        if j < |p| { assert p[j] == h[j]; }
      }
      forall j | 0 <= j < |p| && ContributedBy(p[j], x) ensures ContributedBy(h[j], x) {
        assert h[j] == p[j];
      }
    }
  }

  /** The merge-commit heuristic over all refs: a record is a candidate exactly
      when some commit with more than one parent lists its pull request, and it
      carries that commit's date.  Commits with one parent contribute nothing. */
  lemma {:induction false} FromRefsMembership(refs: seq<seq<HistoryCommit>>, x: RecentPR)
    ensures x in FromRefs(refs) <==>
      exists i, j :: 0 <= i < |refs| && 0 <= j < |refs[i]| && ContributedBy(refs[i][j], x)
  {
    if refs != [] {
      var p, h := refs[..|refs| - 1], refs[|refs| - 1];
      assert refs == p + [h];
      FromRefsMembership(p, x);
      FromHistoryMembership(h, x);
      if exists i, j :: 0 <= i < |refs| && 0 <= j < |refs[i]| && ContributedBy(refs[i][j], x) {
        var i, j :| 0 <= i < |refs| && 0 <= j < |refs[i]| && ContributedBy(refs[i][j], x);
        if i < |p| { assert p[i] == refs[i]; }
      }
      forall i, j | 0 <= i < |p| && 0 <= j < |p[i]| && ContributedBy(p[i][j], x)
        ensures ContributedBy(refs[i][j], x)
      {
        assert refs[i] == p[i];
      }
      if x in FromHistory(h) {
        var j :| 0 <= j < |h| && ContributedBy(h[j], x);
        assert ContributedBy(refs[|refs| - 1][j], x);
      }
    }
  }

  /** Skipping refs with an empty history loses nothing: their commits are the
      commits of the alias entries, in order. */
  lemma RefHistoriesCommits(entries: seq<Option<RepoEntry>>, c: HistoryCommit)
    ensures (exists i, j :: 0 <= i < |RefHistories(entries)| && 0 <= j < |RefHistories(entries)[i]|
               && RefHistories(entries)[i][j] == c)
        <==> (exists k :: 0 <= k < |entries| && c in EntryHistory(entries[k]))
  {
    RefHistoriesCommitsSound(entries, c);
    RefHistoriesCommitsComplete(entries, c);
  }

  lemma {:induction false} RefHistoriesCommitsSound(entries: seq<Option<RepoEntry>>, c: HistoryCommit)
    ensures (exists i, j :: 0 <= i < |RefHistories(entries)| && 0 <= j < |RefHistories(entries)[i]|
               && RefHistories(entries)[i][j] == c)
        ==> (exists k :: 0 <= k < |entries| && c in EntryHistory(entries[k]))
  {
    if entries != [] {
      var p, e := entries[..|entries| - 1], entries[|entries| - 1];
      RefHistoriesCommitsSound(p, c);
      var rp := RefHistories(p);
      var h := EntryHistory(e);
      var r := RefHistories(entries);
      assert r == rp + (if |h| > 0 then [h] else []);
      if exists i, j :: 0 <= i < |r| && 0 <= j < |r[i]| && r[i][j] == c {
        var i, j :| 0 <= i < |r| && 0 <= j < |r[i]| && r[i][j] == c;
        if i < |rp| {
          assert rp[i][j] == c;
          var k :| 0 <= k < |p| && c in EntryHistory(p[k]);
          assert entries[k] == p[k];
        } else {
          assert c in EntryHistory(entries[|entries| - 1]);
        }
      }
    }
  }

  lemma {:induction false} RefHistoriesCommitsComplete(entries: seq<Option<RepoEntry>>, c: HistoryCommit)
    ensures (exists k :: 0 <= k < |entries| && c in EntryHistory(entries[k]))
        ==> (exists i, j :: 0 <= i < |RefHistories(entries)| && 0 <= j < |RefHistories(entries)[i]|
               && RefHistories(entries)[i][j] == c)
  {
    if entries != [] {
      var p, e := entries[..|entries| - 1], entries[|entries| - 1];
      RefHistoriesCommitsComplete(p, c);
      var rp := RefHistories(p);
      var h := EntryHistory(e);
      var r := RefHistories(entries);
      assert r == rp + (if |h| > 0 then [h] else []);
      if exists k :: 0 <= k < |entries| && c in EntryHistory(entries[k]) {
        var k :| 0 <= k < |entries| && c in EntryHistory(entries[k]);
        if k < |p| {
          assert p[k] == entries[k];
          var i, j :| 0 <= i < |rp| && 0 <= j < |rp[i]| && rp[i][j] == c;
          assert r[i] == rp[i];
        } else {
          var j :| 0 <= j < |h| && h[j] == c;
          assert r[|rp|] == h;
          assert r[|rp|][j] == c;
        }
      }
    }
  }

  /** What both builds return as the recent list: pairwise-distinct URLs, the
      URL set of the candidates, each record the first candidate of its URL,
      and `committedDate` non-increasing. */
  lemma RecentListProperties(refs: seq<seq<HistoryCommit>>)
    ensures var r := RecentList(refs);
      && DistinctBy(r, Url)
      && UrlSet(r) == UrlSet(FromRefs(refs))
      && (forall x :: x in r ==> FindByUrl(FromRefs(refs), x.pr.url) == Some(x))
      && (forall i, j :: 0 <= i < j < |r| ==>
            ByCommittedDateDesc(r[i].committedDate, r[j].committedDate) <= 0)
  {
    var cands := FromRefs(refs);
    var d := Deduped(cands);
    var r := RecentList(refs);
    DedupedProperties(cands);
    SortPreservesDistinct(d, Negated(CommittedDate), Url);
    SortedDescending(d, CommittedDate);
    PermutationKeepsFirsts(cands, d, r);
  }

  /** A permutation of records that are each the first of their URL in `cands`
      holds the same URLs, and its records are still those firsts. */
  lemma PermutationKeepsFirsts(cands: seq<RecentPR>, d: seq<RecentPR>, r: seq<RecentPR>)
    requires multiset(r) == multiset(d)
    requires forall j :: 0 <= j < |d| ==> FindByUrl(cands, d[j].pr.url) == Some(d[j])
    ensures UrlSet(r) == UrlSet(d)
    ensures forall x :: x in r ==> FindByUrl(cands, x.pr.url) == Some(x)
  {
    forall x | x in r ensures FindByUrl(cands, x.pr.url) == Some(x) && x.pr.url in UrlSet(d) {
      assert x in multiset(d);
      var j :| 0 <= j < |d| && d[j] == x;
    }
    forall u | u in UrlSet(d) ensures u in UrlSet(r) {
      var x :| x in d && x.pr.url == u;
      assert x in multiset(r);
    }
  }
}
