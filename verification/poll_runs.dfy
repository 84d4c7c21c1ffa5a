/** Chains of scheduled `loop` runs, each started with the arguments the
    previous one scheduled, and short sequences of forced refreshes. */
module PollRuns {
  import Api
  import Notifications
  import StatusBar
  import opened Poll

  /** What the service answers to one run, and the clock at that run. */
  datatype Round = Round(reply: Api.Exchange<Api.RawSession>, now: int)

  /** The scheduled chain: each run starts from what the previous one left. */
  function Drive(g: Globals, a: Args, polls: seq<Round>): (r: seq<Outcome>)
    ensures |r| == |polls|
    decreases |polls|
  {
    if polls == [] then []
    else
      var o := Tick(g, a, false, polls[0].reply, polls[0].now);
      [o] + Drive(o.globals, o.next.args, polls[1..])
  }

  predicate AllThrow(key: string, polls: seq<Round>) {
    forall i :: 0 <= i < |polls| ==> Api.GetSession(key, polls[i].reply).Thrown?
  }

  lemma AllThrowTail(key: string, polls: seq<Round>)
    requires |polls| >= 1 && AllThrow(key, polls)
    ensures AllThrow(key, polls[1..])
  {
    forall i | 0 <= i < |polls| - 1 ensures Api.GetSession(key, polls[1..][i].reply).Thrown? {
      assert polls[1..][i] == polls[i + 1];
    }
  }

  /** A run that fetched, failed with `count` failures now counted, and waits the
      backoff of the failures before it. */
  predicate BackedOff(o: Outcome, count: nat) {
    && o.fetched && o.display == StatusBar.Error
    && o.next.Reschedule? && count >= 1 && o.next.delay == Backoff(count - 1)
    && o.globals.stickyCount == count
  }

  /** The errors the fetches of a chain throw. */
  function Errors(key: string, polls: seq<Round>): (errs: seq<Api.FetchError>)
    requires AllThrow(key, polls)
    ensures |errs| == |polls|
    decreases |polls|
  {
    if polls == [] then []
    else
      AllThrowTail(key, polls);
      [Api.GetSession(key, polls[0].reply).error] + Errors(key, polls[1..])
  }

  /** Reference chain of failed runs, each scheduled by the one before. */
  function FailChain(g: Globals, a: Args, errs: seq<Api.FetchError>): (r: seq<Outcome>)
    ensures |r| == |errs|
    decreases |errs|
  {
    if errs == [] then []
    else
      var o := FailedRun(g, a, errs[0], false);
      [o] + FailChain(o.globals, o.next.args, errs[1..])
  }

  /** When every fetch throws, the scheduled chain is the chain of failed runs. */
  lemma {:induction false} AllThrowIsFailChain(g: Globals, a: Args, polls: seq<Round>)
    requires HasCredentials(g) && ShouldFetch(g.stickyCount, a, false)
    requires AllThrow(g.apiKey.value, polls)
    ensures Drive(g, a, polls) == FailChain(g, a, Errors(g.apiKey.value, polls))
    decreases |polls|
  {
    if polls != [] {
      var e := Api.GetSession(g.apiKey.value, polls[0].reply).error;
      var o := Tick(g, a, false, polls[0].reply, polls[0].now);
      assert o == FailedRun(g, a, e, false);
      AllThrowTail(g.apiKey.value, polls);
      AllThrowIsFailChain(o.globals, o.next.args, polls[1..]);
    }
  }

  /** Along a chain of failed runs the count climbs by one per run and run i waits
      Backoff(count + i). */
  lemma {:induction false} FailChainBacksOff(g: Globals, a: Args, errs: seq<Api.FetchError>)
    ensures forall i :: 0 <= i < |errs| ==> BackedOff(FailChain(g, a, errs)[i], g.stickyCount + i + 1)
    decreases |errs|
  {
    if errs != [] {
      var o := FailedRun(g, a, errs[0], false);
      var tail := FailChain(o.globals, o.next.args, errs[1..]);
      FailChainBacksOff(o.globals, o.next.args, errs[1..]);
      assert FailChain(g, a, errs) == [o] + tail;
      forall i | 1 <= i < |errs|
        ensures BackedOff(FailChain(g, a, errs)[i], g.stickyCount + i + 1)
      {
        assert FailChain(g, a, errs)[i] == tail[i - 1];
      }
    }
  }

  /** Consecutive failures: every run fetches, the count climbs by one per run and
      the i-th run waits Backoff(count + i) before the next. */
  lemma FailuresBackOff(g: Globals, a: Args, polls: seq<Round>)
    requires HasCredentials(g)
    requires ShouldFetch(g.stickyCount, a, false)
    requires AllThrow(g.apiKey.value, polls)
    ensures forall i :: 0 <= i < |polls| ==> BackedOff(Drive(g, a, polls)[i], g.stickyCount + i + 1)
  {
    AllThrowIsFailChain(g, a, polls);
    FailChainBacksOff(g, a, Errors(g.apiKey.value, polls));
  }

  /** Once the key is gone, no later run fetches or says anything: each shows Setup. */
  lemma {:induction false} NoCredentialsNoFetch(g: Globals, a: Args, polls: seq<Round>)
    requires !HasCredentials(g)
    ensures forall i :: 0 <= i < |polls| ==>
      !Drive(g, a, polls)[i].fetched && Drive(g, a, polls)[i].display == StatusBar.Setup
      && Drive(g, a, polls)[i].popups == [] && Drive(g, a, polls)[i].globals == g
    decreases |polls|
  {
    if polls != [] {
      var o := Tick(g, a, false, polls[0].reply, polls[0].now);
      NoCredentialsNoFetch(o.globals, o.next.args, polls[1..]);
      var d := Drive(g, a, polls);
      forall i | 1 <= i < |polls|
        ensures d[i] == Drive(o.globals, o.next.args, polls[1..])[i - 1]
      {
      }
    }
  }

  /** An invalid credential ends fetching for good: the run that sees it clears the
      key, and every scheduled run after it shows Setup without a request. */
  lemma InvalidKeyEndsPolling(g: Globals, a: Args, p: Round, polls: seq<Round>)
    requires HasCredentials(g) && ShouldFetch(g.stickyCount, a, false)
    requires Api.GetSession(g.apiKey.value, p.reply).Null?
    ensures var d := Drive(g, a, [p] + polls);
      && d[0].globals.apiKey.None?
      && forall i :: 1 <= i < |d| ==> !d[i].fetched && d[i].display == StatusBar.Setup
  {
    var o := Tick(g, a, false, p.reply, p.now);
    assert ([p] + polls)[1..] == polls;
    NoCredentialsNoFetch(o.globals, o.next.args, polls);
  }

  /** Two failed runs in a row with the same error: the second shows it iff the
      backoff still grew between them. */
  lemma SecondFailedRunShown(g: Globals, a: Args, e: Api.FetchError)
    ensures var o := FailedRun(g, a, e, false);
      FailedRun(o.globals, o.next.args, e, false).popups != [] <==> g.stickyCount < 5
  {
    var o := FailedRun(g, a, e, false);
    var o2 := FailedRun(o.globals, o.next.args, e, false);
    var c := g.stickyCount;
    var m1, m2 := o.globals.lastSticky, o2.globals.lastSticky;
    assert m1 == RetryMessage(Backoff(c), ErrorText(e));
    assert m2 == RetryMessage(Backoff(c + 1), ErrorText(e));
    assert o2.popups != [] <==> m2 != m1;
    ConsecutiveMessagesDiffer(c, ErrorText(e));
  }

  /** The messages of two consecutive failures with the same error differ iff the
      backoff has not reached the cap. */
  lemma ConsecutiveMessagesDiffer(c: nat, err: string)
    ensures RetryMessage(Backoff(c + 1), err) != RetryMessage(Backoff(c), err) <==> c < 5
  {
    if c < 5 {
      BelowCapSecondsDiffer(c);
      RetryMessagesDiffer(Backoff(c + 1), Backoff(c), err);
    } else {
      BackoffCapped(c);
      BackoffCapped(c + 1);
    }
  }

  lemma BelowCapSecondsDiffer(c: nat)
    requires c < 5
    ensures Backoff(c) / 1000 != Backoff(c + 1) / 1000
  {
    BackoffTable();
  }

  /** Two failures in a row with the same error: the second is shown only while the
      backoff still grows, that is, only if fewer than five failures preceded the first. */
  lemma {:induction false} SecondFailureShownBelowCap(g: Globals, a: Args, p: Round, q: Round, e: Api.FetchError)
    requires HasCredentials(g) && ShouldFetch(g.stickyCount, a, false)
    requires Api.GetSession(g.apiKey.value, p.reply) == Api.Thrown(e)
    requires Api.GetSession(g.apiKey.value, q.reply) == Api.Thrown(e)
    ensures var d := Drive(g, a, [p, q]);
      d[1].popups != [] <==> g.stickyCount < 5
  {
    var o := Tick(g, a, false, p.reply, p.now);
    assert o == FailedRun(g, a, e, false);
    assert [p, q][1..] == [q];
    var o2 := Tick(o.globals, o.next.args, false, q.reply, q.now);
    assert o2 == FailedRun(o.globals, o.next.args, e, false);
    assert Drive(g, a, [p, q])[1] == o2;
    SecondFailedRunShown(g, a, e);
  }

  /** `lastStickyError` survives a recovery: a forced refresh that fails, one that
      succeeds, and one that fails again with the same error show the error once.
      Forced refreshes start each run at count 0, so both failures build the same
      "Retrying in 10s" message; see ErrorShownAgainAfterLongOutage for the
      scheduled loop, where that is not so. */
  lemma RecurringErrorNotShownAgain(g: Globals, e: Api.FetchError, p: Round, q: Round, s: Round)
    requires HasCredentials(g)
    requires Api.GetSession(g.apiKey.value, p.reply) == Api.Thrown(e)
    requires Api.GetSession(g.apiKey.value, q.reply).Data?
    requires Api.GetSession(g.apiKey.value, s.reply) == Api.Thrown(e)
    ensures var first := Tick(g, Fresh, true, p.reply, p.now);
      var second := Tick(first.globals, Fresh, true, q.reply, q.now);
      var third := Tick(second.globals, Fresh, true, s.reply, s.now);
      second.globals.stickyCount == 0 && third.popups == []
  {
  }

  /** From the state a recovery after two or more scheduled failures leaves (count 0,
      and a remembered message naming the delay of a later failure), the same error
      is shown again: the remembered message names a longer delay than the 10 s
      the first failure after the recovery waits. */
  lemma ErrorShownAgainAfterLongOutage(g: Globals, a: Args, e: Api.FetchError, k: nat, p: Round)
    requires HasCredentials(g) && g.stickyCount == 0 && ShouldFetch(0, a, false)
    requires 1 <= k && g.lastSticky == RetryMessage(Backoff(k), ErrorText(e))
    requires Api.GetSession(g.apiKey.value, p.reply) == Api.Thrown(e)
    ensures Tick(g, a, false, p.reply, p.now).popups
      == [Notifications.ErrorMessage(RetryMessage(Backoff(0), ErrorText(e)))]
  {
    assert Tick(g, a, false, p.reply, p.now) == FailedRun(g, a, e, false);
    BackoffTable();
    BackoffMonotone(1, k);
    RetryMessagesDiffer(Backoff(0), Backoff(k), ErrorText(e));
  }

  /** With session notifications off, a run shows no session notification at all,
      though the flags move exactly as with them on. */
  lemma NotificationsOffShowsOnlyErrors(g: Globals, a: Args, forced: bool, p: Round)
    requires !g.sessionNotifications
    ensures var r := Tick(g, a, forced, p.reply, p.now);
      forall i :: 0 <= i < |r.popups| ==> r.popups[i].ErrorMessage?
    ensures var r := Tick(g, a, forced, p.reply, p.now);
      var r' := Tick(g.(sessionNotifications := true), a, forced, p.reply, p.now);
      r.globals.flags == r'.globals.flags && r.notices == r'.notices
  {
  }
}
