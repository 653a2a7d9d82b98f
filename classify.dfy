/** index.js's derived values for rendering a pull request: the age bucket of
    its `createdAt`, the check state of its head commit, and the three display
    filters. */
module Classify {
  import opened Seqs
  import opened Records

  const HourMs: int := 3600000
  const TwoHoursMs: int := 7200000
  const DayMs: int := 86400000
  const WeekMs: int := 604800000

  datatype AgeBucket = LastHour | LastTwoHours | LastDay | LastWeek | OverWeekOld

  /** The CSS class of a bucket. */
  function BucketClass(b: AgeBucket): string
  {
    match b
    case LastHour => "last-hour"
    case LastTwoHours => "last-two-hours"
    case LastDay => "last-day"
    case LastWeek => "last-week"
    case OverWeekOld => "over-week-old"
  }

  /** Buckets from freshest (0) to oldest (4). */
  function Rank(b: AgeBucket): nat
  {
    match b
    case LastHour => 0
    case LastTwoHours => 1
    case LastDay => 2
    case LastWeek => 3
    case OverWeekOld => 4
  }

  /** index.js `getAgeString`, with `Date.now()` as the parameter `now`: the
      first threshold the age is strictly below picks the bucket. */
  function GetAgeString(now: Timestamp, createdAt: Timestamp): (b: AgeBucket)
    ensures b == LastHour <==> now - createdAt < HourMs
    ensures b == LastTwoHours <==> HourMs <= now - createdAt < TwoHoursMs
    ensures b == LastDay <==> TwoHoursMs <= now - createdAt < DayMs
    ensures b == LastWeek <==> DayMs <= now - createdAt < WeekMs
    ensures b == OverWeekOld <==> WeekMs <= now - createdAt
  {
    var diffMs := now - createdAt;
    if diffMs < 3600000 then LastHour
    else if diffMs < 7200000 then LastTwoHours
    else if diffMs < 86400000 then LastDay
    else if diffMs < 604800000 then LastWeek
    else OverWeekOld
  }

  /** An older pull request never lands in a fresher bucket. */
  lemma AgeMonotone(now: Timestamp, older: Timestamp, newer: Timestamp)
    requires older <= newer
    ensures Rank(GetAgeString(now, older)) >= Rank(GetAgeString(now, newer))
  {
  }

  /** The buckets at 59 and 61 minutes, at 8 days, at exactly one hour, and
      for a creation time in the future. */
  lemma AgeBoundaryExamples(now: Timestamp)
    ensures BucketClass(GetAgeString(now, now - 59 * 60000)) == "last-hour"
    ensures BucketClass(GetAgeString(now, now - 61 * 60000)) == "last-two-hours"
    ensures BucketClass(GetAgeString(now, now - 8 * DayMs)) == "over-week-old"
    ensures BucketClass(GetAgeString(now, now - HourMs)) == "last-two-hours"
    ensures BucketClass(GetAgeString(now, now + 60000)) == "last-hour"
  {
  }

  // ---------------------------------------------------------------------------
  // getCommitState

  datatype Icon = Check | HourglassHalf | Times | ExclamationTriangle | Minus

  /** `commits.nodes.find(node => node.commit.oid === headRefOid)`. */
  function FindCommit(commits: seq<HeadCommit>, oid: string): Option<HeadCommit>
  {
    Find(commits, (node: HeadCommit) => node.oid == oid)
  }

  /** `node?.commit?.statusCheckRollup?.state || 'ERROR'`: the first commit
      with the head `oid` gives its rollup state when it has a non-empty one,
      and every other case (no such commit, no rollup, an empty state) reads
      as `ERROR`. */
  function Conclusion(headRefOid: string, commits: seq<HeadCommit>): (c: string)
    ensures c != ""
    ensures forall i :: 0 <= i < |commits| && commits[i].oid == headRefOid &&
                        (forall j :: 0 <= j < i ==> commits[j].oid != headRefOid) ==>
      c == (if commits[i].rollupState.Some? && commits[i].rollupState.value != "" then commits[i].rollupState.value
            else "ERROR")
    ensures (forall i :: 0 <= i < |commits| ==> commits[i].oid != headRefOid) ==> c == "ERROR"
  {
    var node := FindCommit(commits, headRefOid);
    assert forall i :: 0 <= i < |commits| && commits[i].oid == headRefOid &&
                       (forall j :: 0 <= j < i ==> commits[j].oid != headRefOid) ==>
      IsFirst(commits, (node: HeadCommit) => node.oid == headRefOid, i);
    if node.Some? && node.value.rollupState.Some? && node.value.rollupState.value != ""
    then node.value.rollupState.value
    else "ERROR"
  }

  /** The `icons` table, with `Minus()` for any other state. */
  function IconFor(conclusion: string): (i: Icon)
    ensures i == Minus <==> conclusion !in {"SUCCESS", "PENDING", "FAILURE", "EXPECTED", "ERROR"}
  {
    if conclusion == "SUCCESS" then Check
    else if conclusion == "PENDING" then HourglassHalf
    else if conclusion == "FAILURE" then Times
    else if conclusion == "EXPECTED" then HourglassHalf
    else if conclusion == "ERROR" then ExclamationTriangle
    else Minus
  }

  function LowerChar(c: char): char
  {
    if 'A' <= c <= 'Z' then (c as int + 32) as char else c
  }

  /** `toLowerCase()` on ASCII letters. */
  function ToLower(s: string): (r: string)
    ensures |r| == |s|
    ensures forall i :: 0 <= i < |s| ==> r[i] == LowerChar(s[i])
  {
    seq(|s|, i requires 0 <= i < |s| => LowerChar(s[i]))
  }

  /** The span `getCommitState` renders: its class and its icon. */
  datatype CommitBadge = CommitBadge(className: string, icon: Icon)

  /** `'ERROR'.toLowerCase()`. */
  lemma LowerError()
    ensures ToLower("ERROR") == "error"
  {
    var lower := ToLower("ERROR");
    assert lower[0] == LowerChar('E') == 'e';
    assert lower[1] == LowerChar('R') == 'r';
    assert lower[2] == LowerChar('R') == 'r';
    assert lower[3] == LowerChar('O') == 'o';
    assert lower[4] == LowerChar('R') == 'r';
  }

  /** The badge of the first commit with the head `oid`: its lower-cased
      rollup state and that state's icon when the state is present and
      non-empty, and otherwise (or when there is no such commit) the error
      triangle with class `error`. */
  function GetCommitState(headRefOid: string, commits: seq<HeadCommit>): (b: CommitBadge)
    ensures b.className == ToLower(Conclusion(headRefOid, commits))
    ensures b.icon == IconFor(Conclusion(headRefOid, commits))
    ensures (forall i :: 0 <= i < |commits| ==> commits[i].oid != headRefOid) ==>
      b == CommitBadge("error", ExclamationTriangle)
    ensures forall i :: 0 <= i < |commits| && commits[i].oid == headRefOid &&
                        (forall j :: 0 <= j < i ==> commits[j].oid != headRefOid) ==>
      b == (if commits[i].rollupState.Some? && commits[i].rollupState.value != ""
            then CommitBadge(ToLower(commits[i].rollupState.value), IconFor(commits[i].rollupState.value))
            else CommitBadge("error", ExclamationTriangle))
  {
    var conclusion := Conclusion(headRefOid, commits);
    LowerError();
    CommitBadge(ToLower(conclusion), IconFor(conclusion))
  }

  /** A successful head commit renders class `success` with the check mark, and
      a rollup state outside the table shows the minus glyph and never fails. */
  lemma CommitStateCases(headRefOid: string, commits: seq<HeadCommit>)
    ensures |commits| > 0 && commits[0] == HeadCommit(headRefOid, Some("SUCCESS")) ==>
      GetCommitState(headRefOid, commits) == CommitBadge("success", Check)
    ensures var c := Conclusion(headRefOid, commits);
      c !in {"SUCCESS", "PENDING", "FAILURE", "EXPECTED", "ERROR"} ==> GetCommitState(headRefOid, commits).icon == Minus
  {
    if |commits| > 0 && commits[0] == HeadCommit(headRefOid, Some("SUCCESS")) {
      var lower := ToLower("SUCCESS");
      assert lower == "success" by {
        assert lower[0] == LowerChar('S') == 's';
        assert lower[1] == LowerChar('U') == 'u';
        assert lower[2] == LowerChar('C') == 'c';
        assert lower[3] == LowerChar('C') == 'c';
        assert lower[4] == LowerChar('E') == 'e';
        assert lower[5] == LowerChar('S') == 's';
        assert lower[6] == LowerChar('S') == 's';
      }
    }
  }

  // ---------------------------------------------------------------------------
  // filters

  /** `filters.dependabot`. */
  predicate DependabotFilter(showDependabotPRs: bool, pr: PullRequest)
  {
    showDependabotPRs || pr.author != "dependabot"
  }

  /** `filters.masterPRs`. */
  predicate MasterFilter(showMasterPRs: bool, pr: PullRequest)
  {
    showMasterPRs || (pr.baseRefName != "master" && pr.baseRefName != "main")
  }

  /** `filters.needsReview`: with the flag on, only pull requests whose review
      decision is `REVIEW_REQUIRED` or `null`. */
  predicate NeedsReviewFilter(showNeedsReviewPRs: bool, pr: PullRequest)
  {
    !showNeedsReviewPRs || pr.reviewDecision == Some("REVIEW_REQUIRED") || pr.reviewDecision.None?
  }

  /** `PRs.filter(dependabot).filter(masterPRs).filter(needsReview)`. */
  function DisplayPRs(showDependabotPRs: bool, showMasterPRs: bool, showNeedsReviewPRs: bool,
                      prs: seq<PullRequest>): seq<PullRequest>
  {
    Filter(Filter(Filter(prs, pr => DependabotFilter(showDependabotPRs, pr)),
                  pr => MasterFilter(showMasterPRs, pr)),
           pr => NeedsReviewFilter(showNeedsReviewPRs, pr))
  }

  /** A pull request is displayed exactly when it is in the list and passes all
      three filters. */
  lemma DisplayPRsMembership(showDependabotPRs: bool, showMasterPRs: bool, showNeedsReviewPRs: bool,
                             prs: seq<PullRequest>, x: PullRequest)
    ensures x in DisplayPRs(showDependabotPRs, showMasterPRs, showNeedsReviewPRs, prs) <==>
      x in prs && DependabotFilter(showDependabotPRs, x) && MasterFilter(showMasterPRs, x)
      && NeedsReviewFilter(showNeedsReviewPRs, x)
  {
    var f1 := Filter(prs, pr => DependabotFilter(showDependabotPRs, pr));
    var f2 := Filter(f1, pr => MasterFilter(showMasterPRs, pr));
    FilterMembership(prs, pr => DependabotFilter(showDependabotPRs, pr), x);
    FilterMembership(f1, pr => MasterFilter(showMasterPRs, pr), x);
    FilterMembership(f2, pr => NeedsReviewFilter(showNeedsReviewPRs, pr), x);
  }

  lemma {:induction false} FilterAll<T>(s: seq<T>, p: T -> bool)
    requires forall x :: p(x)
    ensures Filter(s, p) == s
  {
    if s != [] {
      FilterAll(s[1..], p);
      assert s == [s[0]] + s[1..];
    }
  }

  /** With dependabot and master shown and the needs-review filter off, every
      pull request is displayed, in order. */
  lemma DisplayAll(prs: seq<PullRequest>)
    ensures DisplayPRs(true, true, false, prs) == prs
  {
    FilterAll(prs, pr => DependabotFilter(true, pr));
    FilterAll(prs, pr => MasterFilter(true, pr));
    FilterAll(prs, pr => NeedsReviewFilter(false, pr));
  }
}
