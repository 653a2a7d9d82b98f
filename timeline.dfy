/** index.js `combineReviewsAndComments` and `TimelineEvent`: reviews and comments
    become one time-ordered list of events, and runs of consecutive events with
    the same author and state are compressed into one event with a count. */
module Timeline {
  import opened Seqs
  import opened Sorting
  import opened Records
  import opened Batching

  /** A compressed event: the first event of a run, and the run's length. */
  datatype CompressedEvent = CompressedEvent(createdAt: Timestamp, author: string, state: string, count: nat)

  /** What two events must share to fall into one run. */
  datatype Actor = Actor(author: string, state: string)

  /** index.js:205 `review.state === 'COMMENTED' ? 'COMMENTED' : review.state`:
      both branches give the review's own state. */
  function ReviewState(state: string): (r: string)
    ensures r == state
  {
    if state == "COMMENTED" then "COMMENTED" else state
  }

  function ReviewEvent(r: Review): Event
  {
    Event(r.createdAt, r.author, ReviewState(r.state))
  }

  function CommentEvent(c: Comment, state: string): Event
  {
    Event(c.createdAt, c.author, state)
  }

  function ReviewEvents(reviews: seq<Review>): (r: seq<Event>)
    ensures |r| == |reviews|
  {
    seq(|reviews|, i requires 0 <= i < |reviews| => ReviewEvent(reviews[i]))
  }

  function CommentEvents(comments: seq<Comment>, state: string): (r: seq<Event>)
    ensures |r| == |comments|
  {
    seq(|comments|, i requires 0 <= i < |comments| => CommentEvent(comments[i], state))
  }

  /** The events before sorting: the reviews, then the comments as `COMMENTED`. */
  function Events(reviews: seq<Review>, comments: seq<Comment>): seq<Event>
  {
    ReviewEvents(reviews) + CommentEvents(comments, "COMMENTED")
  }

  function ActorOf(e: Event): Actor { Actor(e.author, e.state) }

  function Start(e: Event): CompressedEvent
  {
    CompressedEvent(e.createdAt, e.author, e.state, 1)
  }

  /** The compression pass as a left fold: an event extends the last run when it
      has the run's author and state, and opens a new run otherwise. */
  function Compressed(events: seq<Event>): seq<CompressedEvent>
  {
    if events == [] then []
    else
      var p, e := Compressed(events[..|events| - 1]), events[|events| - 1];
      if p != [] && p[|p| - 1].author == e.author && p[|p| - 1].state == e.state
      then p[..|p| - 1] + [p[|p| - 1].(count := p[|p| - 1].count + 1)]
      else p + [Start(e)]
  }

  /** What `combineReviewsAndComments` returns. */
  function Combined(reviews: seq<Review>, comments: seq<Comment>): seq<CompressedEvent>
  {
    Compressed(SortBy(Events(reviews, comments), EventTime))
  }

  /** index.js:221-236: the scan with `currentEvent`. */
  method Compress(events: seq<Event>) returns (compressedEvents: seq<CompressedEvent>)
    ensures compressedEvents == Compressed(events)
  {
    compressedEvents := [];
    var currentEvent: Option<CompressedEvent> := None;
    var i := 0;
    while i < |events|
      invariant 0 <= i <= |events|
      invariant currentEvent.None? <==> i == 0
      invariant Compressed(events[..i])
             == compressedEvents + (if currentEvent.Some? then [currentEvent.value] else [])
    {
      var curr := events[i];
      assert events[..i + 1][..i] == events[..i];
      if currentEvent.None? || curr.author != currentEvent.value.author || curr.state != currentEvent.value.state {
        if currentEvent.Some? {
          compressedEvents := compressedEvents + [currentEvent.value];
        }
        currentEvent := Some(Start(curr));
      } else {
        var c := currentEvent.value;
        var p := compressedEvents + [c];
        assert p[..|p| - 1] == compressedEvents;
        currentEvent := Some(c.(count := c.count + 1));
      }
      i := i + 1;
    }
    if currentEvent.Some? {
      compressedEvents := compressedEvents + [currentEvent.value];
    }
    assert events[..i] == events;
  }

  /** index.js `combineReviewsAndComments`. */
  method CombineReviewsAndComments(reviews: seq<Review>, comments: seq<Comment>)
    returns (compressedEvents: seq<CompressedEvent>)
    ensures compressedEvents == Combined(reviews, comments)
  {
    var events: seq<Event> := [];
    var i := 0;
    while i < |reviews|
      invariant 0 <= i <= |reviews|
      invariant events == ReviewEvents(reviews[..i])
    {
      var review := reviews[i];
      var state := if review.state == "COMMENTED" then "COMMENTED" else review.state;
      events := events + [Event(review.createdAt, review.author, state)];
      i := i + 1;
    }
    assert reviews[..i] == reviews;
    var j := 0;
    while j < |comments|
      invariant 0 <= j <= |comments|
      invariant events == ReviewEvents(reviews) + CommentEvents(comments[..j], "COMMENTED")
    {
      var comment := comments[j];
      events := events + [Event(comment.createdAt, comment.author, "COMMENTED")];
      j := j + 1;
    }
    assert comments[..j] == comments;
    compressedEvents := Compress(SortBy(events, EventTime));
  }

  // ---------------------------------------------------------------------------
  // What compression preserves

  function Repeat(a: Actor, n: nat): (r: seq<Actor>)
    ensures |r| == n && forall x :: x in r ==> x == a
  {
    seq(n, _ => a)
  }

  /** Each compressed event written out `count` times. */
  function Expand(cs: seq<CompressedEvent>): seq<Actor>
  {
    if cs == [] then []
    else
      var c := cs[|cs| - 1];
      Expand(cs[..|cs| - 1]) + Repeat(Actor(c.author, c.state), c.count)
  }

  function Actors(events: seq<Event>): (r: seq<Actor>)
    ensures |r| == |events|
  {
    seq(|events|, i requires 0 <= i < |events| => ActorOf(events[i]))
  }

  function TotalCount(cs: seq<CompressedEvent>): nat
  {
    if cs == [] then 0 else TotalCount(cs[..|cs| - 1]) + cs[|cs| - 1].count
  }

  lemma RepeatSnoc(a: Actor, n: nat)
    ensures Repeat(a, n + 1) == Repeat(a, n) + [a]
  {
  }

  lemma ExpandSnoc(cs: seq<CompressedEvent>, c: CompressedEvent)
    ensures Expand(cs + [c]) == Expand(cs) + Repeat(Actor(c.author, c.state), c.count)
  {
    assert (cs + [c])[..|cs|] == cs;
  }

  /** Adding one to the count of the last compressed event adds one actor. */
  lemma ExpandBump(init: seq<CompressedEvent>, c: CompressedEvent)
    ensures Expand(init + [c.(count := c.count + 1)]) == Expand(init + [c]) + [Actor(c.author, c.state)]
  {
    var a := Actor(c.author, c.state);
    ExpandSnoc(init, c.(count := c.count + 1));
    ExpandSnoc(init, c);
    RepeatSnoc(a, c.count);
  }

  /** Whether the last event extends the run of the compressed prefix. */
  predicate Extends(p: seq<CompressedEvent>, e: Event)
  {
    p != [] && p[|p| - 1].author == e.author && p[|p| - 1].state == e.state
  }

  lemma CompressedSnoc(q: seq<Event>, e: Event)
    ensures var p := Compressed(q);
      Compressed(q + [e])
      == if Extends(p, e) then p[..|p| - 1] + [p[|p| - 1].(count := p[|p| - 1].count + 1)] else p + [Start(e)]
  {
    var s := q + [e];
    assert s[..|s| - 1] == q;
    assert s[|s| - 1] == e;
  }

  /** Compression loses no event and invents none: writing each compressed event
      out `count` times gives back the authors and states of the input, in order. */
  lemma {:induction false} CompressedExpands(events: seq<Event>)
    ensures Expand(Compressed(events)) == Actors(events)
  {
    if events != [] {
      var q, e := events[..|events| - 1], events[|events| - 1];
      assert events == q + [e];
      CompressedExpands(q);
      CompressedSnoc(q, e);
      var p := Compressed(q);
      assert Actors(events) == Actors(q) + [ActorOf(e)];
      if Extends(p, e) {
        assert p == p[..|p| - 1] + [p[|p| - 1]];
        ExpandBump(p[..|p| - 1], p[|p| - 1]);
      } else {
        ExpandSnoc(p, Start(e));
        assert Repeat(ActorOf(e), 1) == [ActorOf(e)];
      }
    }
  }

  /** Every count is positive, and neighbouring compressed events differ in
      author or state: the runs are maximal. */
  lemma CompressedRunsMaximal(events: seq<Event>)
    ensures var r := Compressed(events);
      && (forall k :: 0 <= k < |r| ==> r[k].count >= 1)
      && (forall k :: 0 <= k < |r| - 1 ==> r[k].author != r[k + 1].author || r[k].state != r[k + 1].state)
      && (events == [] <==> r == [])
  {
    CompressedCountsPositive(events);
    CompressedNeighboursDiffer(events);
  }

  lemma {:induction false} CompressedCountsPositive(events: seq<Event>)
    ensures var r := Compressed(events);
      && (forall k :: 0 <= k < |r| ==> r[k].count >= 1)
      && (events == [] <==> r == [])
  {
    if events != [] {
      var q, e := events[..|events| - 1], events[|events| - 1];
      assert events == q + [e];
      CompressedCountsPositive(q);
      CompressedSnoc(q, e);
      var p := Compressed(q);
      var r := Compressed(events);
      if Extends(p, e) {
        assert forall k :: 0 <= k < |r| - 1 ==> r[k] == p[k];
      } else {
        assert forall k :: 0 <= k < |p| ==> r[k] == p[k];
      }
    }
  }

  lemma {:induction false} CompressedNeighboursDiffer(events: seq<Event>)
    ensures var r := Compressed(events);
      forall k :: 0 <= k < |r| - 1 ==> r[k].author != r[k + 1].author || r[k].state != r[k + 1].state
  {
    if events != [] {
      var q, e := events[..|events| - 1], events[|events| - 1];
      assert events == q + [e];
      CompressedNeighboursDiffer(q);
      CompressedSnoc(q, e);
      var p := Compressed(q);
      var r := Compressed(events);
      if Extends(p, e) {
        assert forall k :: 0 <= k < |r| - 1 ==> r[k] == p[k];
        assert r[|r| - 1].author == p[|p| - 1].author && r[|r| - 1].state == p[|p| - 1].state;
      } else {
        assert forall k :: 0 <= k < |p| ==> r[k] == p[k];
      }
    }
  }

  /** The counts add up to the number of events. */
  lemma {:induction false} CompressedTotal(events: seq<Event>)
    ensures TotalCount(Compressed(events)) == |events|
  {
    if events != [] {
      var q, e := events[..|events| - 1], events[|events| - 1];
      assert events == q + [e];
      CompressedTotal(q);
      CompressedSnoc(q, e);
      var p := Compressed(q);
      var r := Compressed(events);
      if Extends(p, e) {
        assert p == p[..|p| - 1] + [p[|p| - 1]];
        assert r[..|r| - 1] == p[..|p| - 1];
      } else {
        assert r[..|r| - 1] == p;
      }
    }
  }

  /** A compressed event keeps the time of the first event of its run: the run of
      compressed event `k` starts at input position `TotalCount(r[..k])`. */
  lemma {:induction false} CompressedKeepsFirstTime(events: seq<Event>, k: nat)
    requires k < |Compressed(events)|
    ensures var r := Compressed(events);
      TotalCount(r[..k]) < |events| && r[k].createdAt == events[TotalCount(r[..k])].createdAt
  {
    var q, e := events[..|events| - 1], events[|events| - 1];
    assert events == q + [e];
    CompressedSnoc(q, e);
    var p := Compressed(q);
    var r := Compressed(events);
    if k < |p| {
      CompressedKeepsFirstTime(q, k);
      assert r[..k] == p[..k];
      assert r[k].createdAt == p[k].createdAt;
      assert events[TotalCount(p[..k])] == q[TotalCount(p[..k])];
    } else {
      CompressedTotal(q);
      assert r[..k] == p;
    }
  }

  /** Two events by the same author in the same state make one run of two. */
  lemma CompressedSameRun(e1: Event, e2: Event)
    requires e1.author == e2.author && e1.state == e2.state
    ensures Compressed([e1, e2]) == [Start(e1).(count := 2)]
  {
    assert Compressed([e1]) == [Start(e1)] by {
      CompressedSnoc([], e1);
      assert [] + [e1] == [e1];
    }
    CompressedSnoc([e1], e2);
    assert [e1] + [e2] == [e1, e2];
  }

  /** The first three events of the example below: the two comments by `a`
      merge, `b`'s approval starts a new run. */
  lemma CompressionExamplePrefix(e1: Event, e2: Event, e3: Event)
    requires e1.author == e2.author && e1.state == e2.state && e1.author != e3.author
    ensures Compressed([e1, e2, e3]) == [Start(e1).(count := 2), Start(e3)]
  {
    CompressedSameRun(e1, e2);
    CompressedSnoc([e1, e2], e3);
    assert [e1, e2] + [e3] == [e1, e2, e3];
  }

  /** A run is cut by a different author and not resumed after it: `a`
      comments twice, `b` approves, then `a` comments again gives three
      compressed events, the first with count 2. */
  lemma CompressionExample(e1: Event, e2: Event, e3: Event, e4: Event)
    requires e1.author == e2.author && e1.state == e2.state
    requires e3.author != e1.author && e4.author != e3.author
    ensures Compressed([e1, e2, e3, e4]) == [Start(e1).(count := 2), Start(e3), Start(e4)]
  {
    var q3 := [e1, e2, e3];
    var p3 := [Start(e1).(count := 2), Start(e3)];
    CompressionExamplePrefix(e1, e2, e3);
    assert !Extends(p3, e4);
    CompressedSnoc(q3, e4);
    assert q3 + [e4] == [e1, e2, e3, e4];
  }

  /** A review left as a comment and a later plain comment by the same author
      become one event with count 2: both carry the state `COMMENTED`. */
  lemma CommentedReviewJoinsComment(author: string, t1: Timestamp, t2: Timestamp)
    requires t1 <= t2
    ensures Combined([Review("COMMENTED", t1, author)], [Comment(t2, author)])
         == [CompressedEvent(t1, author, "COMMENTED", 2)]
  {
    var e1, e2 := Event(t1, author, "COMMENTED"), Event(t2, author, "COMMENTED");
    assert Events([Review("COMMENTED", t1, author)], [Comment(t2, author)]) == [e1, e2] by {
      assert ReviewEvents([Review("COMMENTED", t1, author)]) == [e1];
      assert CommentEvents([Comment(t2, author)], "COMMENTED") == [e2];
    }
    SortedPair(e1, e2, EventTime);
    CompressedSameRun(e1, e2);
  }

  // ---------------------------------------------------------------------------
  // TimelineEvent

  /** The class of the `event-group` span index.js renders for a state; `None`
      where it renders nothing. */
  function TimelineEventClass(state: string): (r: Option<string>)
    ensures r.Some? <==> state in {"APPROVED", "CHANGES_REQUESTED", "COMMENTED", "DISMISSED"}
  {
    if state == "APPROVED" then Some("approved")
    else if state == "CHANGES_REQUESTED" then Some("changes-requested")
    else if state == "COMMENTED" then Some("commented")
    else if state == "DISMISSED" then Some("dismissed")
    else None
  }

  /** Different states are rendered with different classes. */
  lemma TimelineEventClassInjective(a: string, b: string)
    requires TimelineEventClass(a).Some? && TimelineEventClass(a) == TimelineEventClass(b)
    ensures a == b
  {
  }

  /** `(count ?? 1) > 1 ? '(' + count + ')' : ''`. */
  function CountBadge(count: nat): (r: string)
    ensures count > 1 ==> |r| > 2 && r[0] == '(' && r[|r| - 1] == ')' && ParseDecimal(r[1..|r| - 1]) == count
    ensures count <= 1 ==> r == ""
  {
    if count > 1 then
      DecimalRoundTrip(count);
      var r := "(" + Decimal(count) + ")";
      assert r[1..|r| - 1] == Decimal(count);
      r
    else ""
  }
}
