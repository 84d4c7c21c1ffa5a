/** The reconciler over sequences of snapshots, as successive polls see them:
    which notices a sequence of observations produces. */
module SessionRuns {
  import Api
  import opened Session
  import opened Notifications

  /** The flags after feeding the snapshots in order, with all notices asked for. */
  function Observe(f: Flags, snaps: seq<Api.SessionData>): (r: Step)
    decreases |snaps|
  {
    if snaps == [] then Step(f, [])
    else
      var first := Transition(f, snaps[0]);
      var rest := Observe(first.flags, snaps[1..]);
      Step(rest.flags, first.notices + rest.notices)
  }

  /** Reference: the edge notices along the handlers of the snapshots. */
  function Edges(last: Handler, snaps: seq<Api.SessionData>): seq<Notice>
    decreases |snaps|
  {
    if snaps == [] then []
    else Edge(last, HandlerFor(snaps[0]), snaps[0].goal) + Edges(HandlerFor(snaps[0]), snaps[1..])
  }

  function LastHandler(last: Handler, snaps: seq<Api.SessionData>): Handler {
    if snaps == [] then last else HandlerFor(snaps[|snaps| - 1])
  }

  /** From any flags the handlers leave behind, a sequence of snapshots produces
      exactly the edge notices, and leaves the flags of the last handler. */
  lemma {:induction false} ObserveIsEdges(last: Handler, snaps: seq<Api.SessionData>)
    ensures Observe(Encode(last), snaps) == Step(Encode(LastHandler(last, snaps)), Edges(last, snaps))
    decreases |snaps|
  {
    if snaps != [] {
      TransitionIsEdge(last, snaps[0]);
      ObserveIsEdges(HandlerFor(snaps[0]), snaps[1..]);
      if |snaps| > 1 {
        assert snaps[1..][|snaps[1..]| - 1] == snaps[|snaps| - 1];
      }
    }
  }

  /** Observing the same handler over and over produces no edges. */
  lemma {:induction false} SteadyIsQuiet(h: Handler, snaps: seq<Api.SessionData>)
    requires forall i :: 0 <= i < |snaps| ==> HandlerFor(snaps[i]) == h
    ensures Edges(h, snaps) == []
    decreases |snaps|
  {
    if snaps != [] {
      SteadyIsQuiet(h, snaps[1..]);
    }
  }

  /** Edge-triggered start: from flags with neither start nor pause noted, any
      number of active polls announce the start exactly once, with the first goal. */
  lemma {:induction false} ActivePollsStartOnce(f: Flags, snaps: seq<Api.SessionData>)
    requires !f.startNotified && !f.pauseNotified
    requires |snaps| >= 1
    requires forall i :: 0 <= i < |snaps| ==> !snaps[i].completed && !snaps[i].paused
    ensures Observe(f, snaps).notices == [Started(snaps[0].goal)]
  {
    var first := Transition(f, snaps[0]);
    assert first == Step(Encode(OnActive), [Started(snaps[0].goal)]);
    ObserveIsEdges(OnActive, snaps[1..]);
    SteadyIsQuiet(OnActive, snaps[1..]);
  }

  /** Active, paused, active: start, pause, resume, and no second start. */
  lemma {:induction false} PauseThenResume(f: Flags, a: Api.SessionData, p: Api.SessionData, b: Api.SessionData)
    requires !f.startNotified && !f.pauseNotified
    requires !a.completed && !a.paused && p.paused && !p.completed && !b.completed && !b.paused
    ensures Observe(f, [a, p, b]).notices == [Started(a.goal), Paused, Resumed]
  {
    var first := Transition(f, a);
    assert first == Step(Encode(OnActive), [Started(a.goal)]);
    assert [a, p, b][1..] == [p, b];
    ObserveIsEdges(OnActive, [p, b]);
    assert [p, b][1..] == [b];
    assert Edges(OnPaused, [b]) == [Resumed];
    assert Edges(OnActive, [p, b]) == [Paused, Resumed];
    assert Observe(f, [a, p, b]).notices == first.notices + Observe(first.flags, [p, b]).notices;
  }

  /** Repeated pauses are announced once (not at all if the pause was already noted). */
  lemma {:induction false} RepeatedPausesOnce(f: Flags, snaps: seq<Api.SessionData>)
    requires |snaps| >= 1
    requires forall i :: 0 <= i < |snaps| ==> snaps[i].paused && !snaps[i].completed
    ensures Observe(f, snaps).notices == if f.pauseNotified then [] else [Paused]
  {
    ObserveIsEdges(OnPaused, snaps[1..]);
    SteadyIsQuiet(OnPaused, snaps[1..]);
  }

  /** A session already completed when the extension starts is never announced. */
  lemma {:induction false} FirstSeenCompletedIsSilent(snaps: seq<Api.SessionData>)
    requires forall i :: 0 <= i < |snaps| ==> snaps[i].completed
    ensures Observe(InitialFlags, snaps).notices == []
  {
    InitialIsAfterComplete();
    ObserveIsEdges(OnComplete, snaps);
    SteadyIsQuiet(OnComplete, snaps);
  }

  /** After an active or paused observation, the completion is announced once
      however many completed polls follow. */
  lemma {:induction false} CompletionAnnouncedOnce(f: Flags, x: Api.SessionData, snaps: seq<Api.SessionData>)
    requires !x.completed
    requires |snaps| >= 1
    requires forall i :: 0 <= i < |snaps| ==> snaps[i].completed
    ensures Observe(Transition(f, x).flags, snaps).notices == [Completed]
  {
    assert !Transition(f, x).flags.completeNotified;
    ObserveIsEdges(OnComplete, snaps[1..]);
    SteadyIsQuiet(OnComplete, snaps[1..]);
  }
}
