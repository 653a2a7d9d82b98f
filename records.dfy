/** The records the dashboard reads from the GitHub GraphQL API, after JSON
    decoding.  Timestamps are integer milliseconds; the ISO 8601 strings of the
    API order the same way.  A `null` or missing object is `None`; a missing node
    list that the code defaults with `?? []` is the empty sequence. */
module Records {
  import opened Seqs

  type Timestamp = int

  /** `reviews.nodes[i]`: `state createdAt author { login }`. */
  datatype Review = Review(state: string, createdAt: Timestamp, author: string)

  /** `comments.nodes[i]`: `createdAt author { login }`. */
  datatype Comment = Comment(createdAt: Timestamp, author: string)

  /** `commits(last: 1).nodes[i].commit`: `oid statusCheckRollup { state }`. */
  datatype HeadCommit = HeadCommit(oid: string, rollupState: Option<string>)

  /** One open pull request.  `repository` is the owning repository's name: the
      github.ts query asks for it, index.js stamps it from the alias entry. */
  datatype PullRequest = PullRequest(
    url: string,
    number: int,
    title: string,
    createdAt: Timestamp,
    baseRefName: string,
    headRefOid: string,
    isDraft: bool,
    author: string,
    repository: string,
    reviews: seq<Review>,
    comments: seq<Comment>,
    commits: seq<HeadCommit>,
    reviewDecision: Option<string>)

  /** `associatedPullRequests.nodes[i]` of a commit on the default branch. */
  datatype AssociatedPR = AssociatedPR(
    url: string, number: int, title: string, createdAt: Timestamp, author: string, repository: string)

  /** An associated pull request after the code assigned `pr['committedDate']`. */
  datatype RecentPR = RecentPR(pr: AssociatedPR, committedDate: Timestamp)

  /** `history.nodes[i]`: `committedDate parents { totalCount } associatedPullRequests`. */
  datatype HistoryCommit = HistoryCommit(committedDate: Timestamp, parentCount: int, associated: seq<AssociatedPR>)

  /** The value under one alias of a batch response: a repository with its
      `name`, `isArchived`, open pull requests and `ref(...).target.history.nodes`
      (empty when the ref, its target or its history is missing). */
  datatype RepoEntry = RepoEntry(
    name: string, isArchived: bool, pullRequests: seq<PullRequest>, history: seq<HistoryCommit>)

  /** The `data` object of one batch response: its alias entries in key order;
      an alias whose repository could not be resolved holds `null`. */
  datatype BatchResponse = BatchResponse(entries: seq<Option<RepoEntry>>)

  /** A review or comment on the timeline of a pull request. */
  datatype Event = Event(createdAt: Timestamp, author: string, state: string)

  function CreatedAt(pr: PullRequest): Timestamp { pr.createdAt }
  function CommittedDate(r: RecentPR): Timestamp { r.committedDate }
  function EventTime(e: Event): Timestamp { e.createdAt }
  function Url(r: RecentPR): string { r.pr.url }
  function NotDraft(pr: PullRequest): bool { !pr.isDraft }

  /** The alias entries of all batch responses, in response order then key order. */
  function AllEntries(results: seq<BatchResponse>): seq<Option<RepoEntry>>
  {
    if results == [] then [] else AllEntries(results[..|results| - 1]) + results[|results| - 1].entries
  }

  lemma {:induction false} AllEntriesAppend(a: seq<BatchResponse>, b: seq<BatchResponse>)
    ensures AllEntries(a + b) == AllEntries(a) + AllEntries(b)
  {
    if b == [] {
      assert a + b == a;
    } else {
      var b', last := b[..|b| - 1], b[|b| - 1];
      AllEntriesAppend(a, b');
      var ab := a + b;
      assert ab[..|ab| - 1] == a + b';
      assert ab[|ab| - 1] == last;
      assert AllEntries(ab) == AllEntries(a + b') + last.entries;
      assert AllEntries(b) == AllEntries(b') + last.entries;
    }
  }
}
