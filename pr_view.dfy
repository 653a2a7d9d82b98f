/** The React build's pull request row (PR.tsx): the uncompressed event
    timeline, the age bucket by date arithmetic, the check state read from the
    `timelineItems` commit nodes and the class of each timeline event. */
module PullRequestView {
  import opened Seqs
  import opened Sorting
  import opened Utils
  import opened Records
  import Timeline
  import Classify

  // ---------------------------------------------------------------------------
  // combineReviewsAndComments

  /** The events before sorting: reviews keep their state, comments are
      `ISSUECOMMENTED`. */
  function PrEvents(reviews: seq<Review>, comments: seq<Comment>): seq<Event>
  {
    Timeline.ReviewEvents(reviews) + Timeline.CommentEvents(comments, "ISSUECOMMENTED")
  }

  /** PR.tsx:11-33: every review and comment as an event, sorted by `createdAt`
      with the `sortByCreatedAt` comparator of utils.ts. */
  method CombineReviewsAndComments(reviews: seq<Review>, comments: seq<Comment>) returns (events: seq<Event>)
    ensures events == SortBy(PrEvents(reviews, comments), EventTime)
  {
    events := [];
    var i := 0;
    while i < |reviews|
      invariant 0 <= i <= |reviews|
      invariant events == Timeline.ReviewEvents(reviews[..i])
    {
      var review := reviews[i];
      events := events + [Event(review.createdAt, review.author, review.state)];
      i := i + 1;
    }
    assert reviews[..i] == reviews;
    var j := 0;
    while j < |comments|
      invariant 0 <= j <= |comments|
      invariant events == Timeline.ReviewEvents(reviews) + Timeline.CommentEvents(comments[..j], "ISSUECOMMENTED")
    {
      var comment := comments[j];
      events := events + [Event(comment.createdAt, comment.author, "ISSUECOMMENTED")];
      j := j + 1;
    }
    assert comments[..j] == comments;
    events := SortBy(events, EventTime);
  }

  /** The timeline holds every review and comment once (nothing is compressed),
      oldest first, and events with the same time keep their input order:
      reviews before comments, each in their own order. */
  lemma PrTimelineProperties(reviews: seq<Review>, comments: seq<Comment>, t: Timestamp)
    ensures var r := SortBy(PrEvents(reviews, comments), EventTime);
      && multiset(r) == multiset(Timeline.ReviewEvents(reviews)) + multiset(Timeline.CommentEvents(comments, "ISSUECOMMENTED"))
      && |r| == |reviews| + |comments|
      && (forall i, j :: 0 <= i < j < |r| ==> SortByCreatedAt(r[i].createdAt, r[j].createdAt) <= 0)
      && Filter(r, (e: Event) => e.createdAt == t) == Filter(PrEvents(reviews, comments), (e: Event) => e.createdAt == t)
  {
    var s := PrEvents(reviews, comments);
    SortStable(s, EventTime, (e: Event) => e.createdAt == t, t);
  }

  /** Relabelling comments from `ISSUECOMMENTED` to `COMMENTED` is the only
      difference between the events of the two builds. */
  function Relabel(e: Event): Event
  {
    if e.state == "ISSUECOMMENTED" then e.(state := "COMMENTED") else e
  }

  function MapEvents(s: seq<Event>, f: Event -> Event): (r: seq<Event>)
    ensures |r| == |s|
  {
    seq(|s|, i requires 0 <= i < |s| => f(s[i]))
  }

  lemma {:induction false} InsertMap(x: Event, t: seq<Event>, f: Event -> Event)
    requires forall e :: EventTime(f(e)) == EventTime(e)
    ensures InsertFirst(f(x), MapEvents(t, f), EventTime) == MapEvents(InsertFirst(x, t, EventTime), f)
  {
    if t != [] && EventTime(x) > EventTime(t[0]) {
      InsertMap(x, t[1..], f);
      assert MapEvents(t, f)[1..] == MapEvents(t[1..], f);
    }
  }

  /** Sorting by time commutes with a relabelling that keeps the time. */
  lemma {:induction false} SortMap(s: seq<Event>, f: Event -> Event)
    requires forall e :: EventTime(f(e)) == EventTime(e)
    ensures SortBy(MapEvents(s, f), EventTime) == MapEvents(SortBy(s, EventTime), f)
  {
    if s != [] {
      SortMap(s[1..], f);
      assert MapEvents(s, f)[1..] == MapEvents(s[1..], f);
      InsertMap(s[0], SortBy(s[1..], EventTime), f);
    }
  }

  /** The two builds show the same activity: when no review carries the state
      `ISSUECOMMENTED`, index.js's compressed timeline, written out count by count,
      is the React build's timeline with comments relabelled `COMMENTED`. */
  lemma BuildsAgreeOnTimeline(reviews: seq<Review>, comments: seq<Comment>)
    requires forall r :: r in reviews ==> r.state != "ISSUECOMMENTED"
    ensures Timeline.Expand(Timeline.Combined(reviews, comments))
         == Timeline.Actors(MapEvents(SortBy(PrEvents(reviews, comments), EventTime), Relabel))
  {
    var pr := PrEvents(reviews, comments);
    var idx := Timeline.Events(reviews, comments);
    assert MapEvents(pr, Relabel) == idx by {
      forall i | 0 <= i < |pr| ensures Relabel(pr[i]) == idx[i] {
        if i < |reviews| {
          assert reviews[i] in reviews;
        }
      }
    }
    SortMap(pr, Relabel);
    Timeline.CompressedExpands(SortBy(idx, EventTime));
  }

  // ---------------------------------------------------------------------------
  // getAgeString

  /** PR.tsx:35-47: `isAfter(createdAt, now - period)` for the periods of one
      hour, two hours, one day and one week. */
  function PrAgeString(now: Timestamp, createdAt: Timestamp): (b: Classify.AgeBucket)
    ensures b == Classify.GetAgeString(now, createdAt)
  {
    if createdAt > now - Classify.HourMs then Classify.LastHour
    else if createdAt > now - Classify.TwoHoursMs then Classify.LastTwoHours
    else if createdAt > now - Classify.DayMs then Classify.LastDay
    else if createdAt > now - Classify.WeekMs then Classify.LastWeek
    else Classify.OverWeekOld
  }

  // ---------------------------------------------------------------------------
  // getCommitState

  /** A `timelineItems` commit node: `oid`, the conclusions of its
      `checkSuites.nodes` (`None` for a missing node or conclusion) and `status`. */
  datatype TimelineCommit = TimelineCommit(oid: string, checkSuites: Option<seq<Option<string>>>, status: Option<string>)

  datatype CheckClass = Missing | Success | Pending | Failed

  function CheckClassName(c: CheckClass): string
  {
    match c
    case Missing => "missing"
    case Success => "success"
    case Pending => "pending"
    case Failed => "failed"
  }

  /** `timelineItems.nodes.find(node => node.commit.oid === headRefOid)`. */
  function FindNode(nodes: seq<TimelineCommit>, oid: string): Option<TimelineCommit>
  {
    Find(nodes, (node: TimelineCommit) => node.oid == oid)
  }

  /** `node.commit?.checkSuites?.nodes[0]?.conclusion ?? node.commit.status`. */
  function NodeConclusion(node: TimelineCommit): Option<string>
  {
    if node.checkSuites.Some? && |node.checkSuites.value| > 0 && node.checkSuites.value[0].Some?
    then node.checkSuites.value[0]
    else node.status
  }

  /** PR.tsx:49-65, `None` where it throws: `timelineItems` is absent, or no node
      has the head commit's oid. Otherwise the class is read off the first
      node with that oid. */
  function GetCommitState(headRefOid: string, timelineItems: Option<seq<TimelineCommit>>): (r: Option<CheckClass>)
    ensures r.None? <==>
      timelineItems.None? || forall i :: 0 <= i < |timelineItems.value| ==> timelineItems.value[i].oid != headRefOid
    ensures r.Some? ==>
      var nodes := timelineItems.value;
      forall i :: 0 <= i < |nodes| && nodes[i].oid == headRefOid && (forall j :: 0 <= j < i ==> nodes[j].oid != headRefOid) ==>
        var c := NodeConclusion(nodes[i]);
        && (r.value == Missing <==> c.None? || c.value == "")
        && (r.value == Success <==> c == Some("SUCCESS"))
        && (r.value == Pending <==> c == Some("STALE"))
  {
    if timelineItems.None? then None
    else
      var node := FindNode(timelineItems.value, headRefOid);
      assert forall i :: 0 <= i < |timelineItems.value| && timelineItems.value[i].oid == headRefOid &&
                         (forall j :: 0 <= j < i ==> timelineItems.value[j].oid != headRefOid) ==>
        IsFirst(timelineItems.value, (node: TimelineCommit) => node.oid == headRefOid, i);
      if node.None? then None
      else
        var conclusion := NodeConclusion(node.value);
        if conclusion.None? || conclusion.value == "" then Some(Missing)
        else if conclusion.value == "SUCCESS" then Some(Success)
        else if conclusion.value == "STALE" then Some(Pending)
        else Some(Failed)
  }

  // ---------------------------------------------------------------------------
  // TimelineEvent

  /** The span class PR.tsx renders for an event's state; `None` renders nothing. */
  function TimelineEventClass(state: string): (r: Option<string>)
    ensures r.Some? <==> state in {"APPROVED", "CHANGES_REQUESTED", "COMMENTED", "ISSUECOMMENTED", "DISMISSED"}
  {
    if state == "APPROVED" then Some("approved")
    else if state == "CHANGES_REQUESTED" then Some("changes-requested")
    else if state == "COMMENTED" then Some("commented")
    else if state == "ISSUECOMMENTED" then Some("issue-commented")
    else if state == "DISMISSED" then Some("dismissed")
    else None
  }

  /** The five rendered states get five different classes. */
  lemma TimelineEventClassInjective(a: string, b: string)
    requires TimelineEventClass(a).Some? && TimelineEventClass(a) == TimelineEventClass(b)
    ensures a == b
  {
  }

  /** Every comment is rendered, as `issue-commented`, and a review is rendered
      exactly as index.js renders it unless its state is `ISSUECOMMENTED`. */
  lemma TimelineClassesAgree(reviews: seq<Review>, comments: seq<Comment>)
    ensures forall k :: 0 <= k < |comments| ==>
      var e := Timeline.CommentEvent(comments[k], "ISSUECOMMENTED");
      e in SortBy(PrEvents(reviews, comments), EventTime) && TimelineEventClass(e.state) == Some("issue-commented")
    ensures forall s :: s != "ISSUECOMMENTED" ==> TimelineEventClass(s) == Timeline.TimelineEventClass(s)
  {
    forall k | 0 <= k < |comments|
      ensures Timeline.CommentEvent(comments[k], "ISSUECOMMENTED") in SortBy(PrEvents(reviews, comments), EventTime)
    {
      CommentInTimeline(reviews, comments, k);
    }
  }

  lemma CommentInTimeline(reviews: seq<Review>, comments: seq<Comment>, k: nat)
    requires k < |comments|
    ensures Timeline.CommentEvent(comments[k], "ISSUECOMMENTED") in SortBy(PrEvents(reviews, comments), EventTime)
  {
    var events := PrEvents(reviews, comments);
    var e := Timeline.CommentEvent(comments[k], "ISSUECOMMENTED");
    var n := |Timeline.ReviewEvents(reviews)|;
    assert events[n + k] == Timeline.CommentEvents(comments, "ISSUECOMMENTED")[k] == e;
    assert e in multiset(events);
    assert multiset(SortBy(events, EventTime)) == multiset(events);
    assert e in multiset(SortBy(events, EventTime));
  }
}
