/** One run of the extension's `loop`: the credential check, the decision to
    fetch or reuse the previous session, the sticky-error deduplication, the
    capped exponential backoff, the invalid-key path, and what the next run
    is scheduled with. Module-level variables of the extension are fields of
    `Globals`; the loop's own parameters are `Args`. */
module Poll {
  import Api
  import Arith
  import Text
  import Session
  import Notifications
  import StatusBar
  import opened Optional

  const FetchInterval: nat := 10000
  const FetchErrorFactor: nat := 2
  const FetchRetryCap: nat := 300000
  const LoopInterval: nat := 1000

  // ---------------------------------------------------------------- backoff

  /** `Math.min(FETCH_RETRY_CAP, FETCH_INTERVAL * Math.pow(FETCH_ERROR_FACTOR, stickyErrorCount))`. */
  function Backoff(count: nat): (delay: nat)
    ensures FetchInterval <= delay <= FetchRetryCap
  {
    Arith.PowStep(FetchErrorFactor, count);
    var grown := FetchInterval * Arith.Pow(FetchErrorFactor, count);
    if grown < FetchRetryCap then grown else FetchRetryCap
  }

  /** The delays double from 10 s; the sixth failure in a row is the first to wait the 5-minute cap. */
  lemma BackoffTable()
    ensures Backoff(0) == 10000 && Backoff(1) == 20000 && Backoff(2) == 40000
    ensures Backoff(3) == 80000 && Backoff(4) == 160000 && Backoff(5) == 300000
  {
    assert Arith.Pow(2, 1) == 2;
    assert Arith.Pow(2, 2) == 4;
    assert Arith.Pow(2, 3) == 8;
    assert Arith.Pow(2, 4) == 16;
    assert Arith.Pow(2, 5) == 32;
  }

  /** More consecutive failures never wait less. */
  lemma {:induction false} BackoffMonotone(a: nat, b: nat)
    requires a <= b
    ensures Backoff(a) <= Backoff(b)
    decreases b - a
  {
    if a < b {
      Arith.PowStep(FetchErrorFactor, a);
      BackoffMonotone(a + 1, b);
    }
  }

  /** Once five failures are counted, that is from the sixth failure in a row on, the delay is the cap. */
  lemma {:induction false} BackoffCapped(count: nat)
    requires count >= 5
    ensures Backoff(count) == FetchRetryCap
    decreases count
  {
    if count == 5 {
      BackoffTable();
    } else {
      BackoffCapped(count - 1);
      Arith.PowStep(FetchErrorFactor, count - 1);
    }
  }

  // ------------------------------------------------------------ loop state

  /** `sinceLastFetch`: starts at `Infinity`, which stays infinite when added to. */
  datatype Since = Infinity | Ms(ms: nat)

  function After(s: Since, d: nat): (r: Since)
    ensures r.Infinity? <==> s.Infinity?
    ensures r.Ms? ==> r.ms == s.ms + d
  {
    match s
    case Infinity => Infinity
    case Ms(ms) => Ms(ms + d)
  }

  /** Whether the fetch interval has elapsed. */
  predicate Due(s: Since) {
    s.Infinity? || s.ms >= FetchInterval
  }

  /** The module-level variables: the notice flags, `isActive`, the sticky-error
      pair, the stored credentials and the session-notifications setting. */
  datatype Globals = Globals(
    flags: Session.Flags,
    isActive: bool,
    stickyCount: nat,
    lastSticky: string,
    apiKey: Option<string>,
    id: Option<string>,
    sessionNotifications: bool)

  /** The state at activation. */
  function Activated(apiKey: Option<string>, id: Option<string>, sessionNotifications: bool): (g: Globals)
    ensures g.flags == Session.InitialFlags && !g.isActive && g.stickyCount == 0 && g.lastSticky == ""
  {
    Globals(Session.InitialFlags, false, 0, "", apiKey, id, sessionNotifications)
  }

  /** The parameters of one `loop` call. */
  datatype Args = Args(sinceLastFetch: Since, prevSession: Option<Api.SessionData>)

  /** The defaults: the first call and every forced refresh run with these. */
  const Fresh := Args(Infinity, None)

  /** What the run leaves scheduled: another run after a delay (0 when `loop`
      calls itself directly), or nothing (a forced run does not reschedule). */
  datatype Next = Reschedule(delay: nat, args: Args) | Stop

  /** Everything one run does. */
  datatype Outcome = Outcome(
    globals: Globals,
    fetched: bool,
    display: StatusBar.Display,
    notices: seq<Notifications.Notice>,
    popups: seq<Notifications.Popup>,
    next: Next)

  predicate HasCredentials(g: Globals) {
    g.apiKey.Some? && g.apiKey.value != "" && g.id.Some? && g.id.value != ""
  }

  /** Whether a run asks the service, given the sticky count after a forced reset. */
  predicate ShouldFetch(count: nat, a: Args, forced: bool) {
    (count > 0 || Due(a.sinceLastFetch)) || a.prevSession.None? || forced
  }

  // ----------------------------------------------------------- sticky error

  const InvalidKeyText: string := "Your API key is invalid! Run the \"Arcade: Init.\" command to reconfigure."
  const RetryPrefix: string := "Retrying in "
  const RetryMiddle: string := "s. Failed to fetch session info: "

  /** The text `${err}` gives for a thrown Error. */
  function ErrorText(e: Api.FetchError): string {
    "Error: " + Api.Message(e)
  }

  /** The message of a failed fetch, naming the delay in whole seconds. */
  function RetryMessage(delay: nat, err: string): string {
    RetryPrefix + Text.NatToString(delay / 1000) + RetryMiddle + err
  }

  /** `stickyError(msg)`: counts every call, shows the message only when it differs
      from the last one shown, and remembers it then. */
  function StickyError(g: Globals, msg: string): (r: (Globals, seq<Notifications.Popup>))
    ensures r.0.stickyCount == g.stickyCount + 1
    ensures r.1 == if msg == g.lastSticky then [] else [Notifications.ErrorMessage(msg)]
    ensures r.0.lastSticky == msg
    ensures r.0.(stickyCount := g.stickyCount, lastSticky := g.lastSticky) == g
  {
    if msg != g.lastSticky then
      (g.(stickyCount := g.stickyCount + 1, lastSticky := msg), [Notifications.ErrorMessage(msg)])
    else
      (g.(stickyCount := g.stickyCount + 1), [])
  }

  /** The same message twice in a row is shown once. */
  lemma StickyRepeatIsSilent(g: Globals, msg: string)
    ensures StickyError(StickyError(g, msg).0, msg).1 == []
  {
  }

  /** Messages naming different whole-second delays differ. */
  lemma {:induction false} RetryMessagesDiffer(d1: nat, d2: nat, err: string)
    requires d1 / 1000 != d2 / 1000
    ensures RetryMessage(d1, err) != RetryMessage(d2, err)
  {
    var s1 := Text.NatToString(d1 / 1000);
    var s2 := Text.NatToString(d2 / 1000);
    var m1 := RetryMessage(d1, err);
    var m2 := RetryMessage(d2, err);
    var p := |RetryPrefix|;
    assert m1 == RetryPrefix + (s1 + (RetryMiddle + err));
    assert m2 == RetryPrefix + (s2 + (RetryMiddle + err));
    if |s1| == |s2| {
      assert s1 != s2;
      var k :| 0 <= k < |s1| && s1[k] != s2[k];
      assert m1[p + k] == s1[k];
      assert m2[p + k] == s2[k];
    } else if |s1| < |s2| {
      assert m1[p + |s1|] == 's';
      assert m2[p + |s1|] == s2[|s1|];
      assert Text.IsDigit(s2[|s1|]);
    } else {
      assert m2[p + |s2|] == 's';
      assert m1[p + |s2|] == s1[|s2|];
      assert Text.IsDigit(s1[|s2|]);
    }
  }

  // -------------------------------------------------------------- one run

  /** The missing-credentials run: shows Setup, fetches nothing, and calls `loop`
      again straight away. */
  function SetupRun(g: Globals, a: Args): (r: Outcome)
    ensures r.globals == g && !r.fetched && r.display == StatusBar.Setup
    ensures r.notices == [] && r.popups == []
    ensures r.next == Reschedule(0, Args(After(a.sinceLastFetch, LoopInterval), a.prevSession))
  {
    Outcome(g, false, StatusBar.Setup, [], [], Reschedule(0, Args(After(a.sinceLastFetch, LoopInterval), a.prevSession)))
  }

  /** A session in hand (fetched or reused): the sticky count is cleared, the
      handler runs, its notices are delivered if the setting allows, and the
      next run is one loop interval later with this session as the previous one. */
  function Reconcile(g: Globals, since: Since, s: Api.SessionData, fetched: bool, forced: bool, now: int): (r: Outcome)
    ensures r.globals.stickyCount == 0 && r.globals.lastSticky == g.lastSticky
    ensures r.globals.apiKey == g.apiKey && r.globals.id == g.id
    ensures r.globals.sessionNotifications == g.sessionNotifications
    ensures r.globals.flags == Session.Transition(g.flags, s).flags
    ensures r.notices == Session.Transition(g.flags, s).notices
    ensures r.globals.isActive <==> Session.HandlerFor(s) == Session.OnActive
    ensures r.display == StatusBar.Text(Session.StatusText(s, now))
    ensures r.popups == Notifications.Deliver(g.sessionNotifications, r.notices)
    ensures r.fetched == fetched
    ensures forced <==> r.next.Stop?
    ensures !forced ==> r.next == Reschedule(LoopInterval, Args(After(since, LoopInterval), Some(s)))
  {
    var step := Session.Transition(g.flags, s);
    var g' := g.(stickyCount := 0, flags := step.flags, isActive := Session.IsActiveAfter(s));
    Outcome(g', fetched, StatusBar.Text(Session.StatusText(s, now)), step.notices,
            Notifications.Deliver(g.sessionNotifications, step.notices),
            if forced then Stop else Reschedule(LoopInterval, Args(After(since, LoopInterval), Some(s))))
  }

  /** A fetch that threw: the delay follows the backoff for the current count,
      the sticky error names it, and the previous session is kept for the next run. */
  function FailedRun(g: Globals, a: Args, e: Api.FetchError, forced: bool): (r: Outcome)
    ensures r.globals.stickyCount == g.stickyCount + 1
    ensures r.globals.lastSticky == RetryMessage(Backoff(g.stickyCount), ErrorText(e))
    ensures r.popups == (if r.globals.lastSticky == g.lastSticky then [] else [Notifications.ErrorMessage(r.globals.lastSticky)])
    ensures r.globals.(stickyCount := g.stickyCount, lastSticky := g.lastSticky) == g
    ensures r.fetched && r.display == StatusBar.Error && r.notices == []
    ensures forced <==> r.next.Stop?
    ensures !forced ==>
      r.next == Reschedule(Backoff(g.stickyCount), Args(After(a.sinceLastFetch, Backoff(g.stickyCount)), a.prevSession))
  {
    var delay := Backoff(g.stickyCount);
    var sticky := StickyError(g, RetryMessage(delay, ErrorText(e)));
    Outcome(sticky.0, true, StatusBar.Error, [], sticky.1,
            if forced then Stop else Reschedule(delay, Args(After(a.sinceLastFetch, delay), a.prevSession)))
  }

  /** `invalidKey`: the error toast, the stored key cleared, Setup shown; `loop`
      calls itself straight away unless forced. */
  function InvalidKeyRun(g: Globals, a: Args, forced: bool): (r: Outcome)
    ensures r.globals.apiKey.None? && !HasCredentials(r.globals)
    ensures r.globals.(apiKey := g.apiKey) == g
    ensures r.fetched && r.display == StatusBar.Setup && r.notices == []
    ensures r.popups == [Notifications.ErrorMessage(InvalidKeyText)]
    ensures forced <==> r.next.Stop?
    ensures !forced ==> r.next == Reschedule(0, Args(After(a.sinceLastFetch, LoopInterval), a.prevSession))
  {
    Outcome(g.(apiKey := None), true, StatusBar.Setup, [], [Notifications.ErrorMessage(InvalidKeyText)],
            if forced then Stop else Reschedule(0, Args(After(a.sinceLastFetch, LoopInterval), a.prevSession)))
  }

  /** One `loop(context, sinceLastFetch, prevSession, forced)` run, given the reply
      the service would give and the current time. */
  function Tick(g: Globals, a: Args, forced: bool, ex: Api.Exchange<Api.RawSession>, now: int): (r: Outcome)
    ensures !HasCredentials(g) ==> r == SetupRun(g, a)
    ensures HasCredentials(g) ==>
      (r.fetched <==> forced || a.prevSession.None? || g.stickyCount > 0 || Due(a.sinceLastFetch))
    ensures HasCredentials(g) && !r.fetched ==>
      a.prevSession.Some? && r == Reconcile(g, a.sinceLastFetch, a.prevSession.value, false, forced, now)
    ensures HasCredentials(g) && r.fetched ==>
      var g1 := if forced then g.(stickyCount := 0) else g;
      match Api.GetSession(g.apiKey.value, ex)
      case Data(s) => r == Reconcile(g1, Ms(0), s, true, forced, now)
      case Null => r == InvalidKeyRun(g1, a, forced)
      case Thrown(e) => e != Api.EmptyKey && r == FailedRun(g1, a, e, forced)
    ensures !forced ==> r.next.Reschedule?
  {
    if !HasCredentials(g) then SetupRun(g, a)
    else
      var g1 := if forced then g.(stickyCount := 0) else g;
      if ShouldFetch(g1.stickyCount, a, forced) then
        match Api.GetSession(g.apiKey.value, ex)
        case Data(s) => Reconcile(g1, Ms(0), s, true, forced, now)
        case Null => InvalidKeyRun(g1, a, forced)
        case Thrown(e) => FailedRun(g1, a, e, forced)
      else
        Reconcile(g1, a.sinceLastFetch, a.prevSession.value, false, forced, now)
  }

  /** A forced refresh clears the sticky count: it ends at 0 unless its own fetch
      throws, and then at 1. */
  lemma ForcedResetsCount(g: Globals, ex: Api.Exchange<Api.RawSession>, now: int)
    requires HasCredentials(g)
    ensures var r := Tick(g, Fresh, true, ex, now);
      r.fetched && r.next.Stop?
      && r.globals.stickyCount == (if Api.GetSession(g.apiKey.value, ex).Thrown? then 1 else 0)
  {
  }

  /** A successful scheduled fetch clears the count but not the last sticky
      message, and the next run starts one loop interval after that fetch. */
  lemma SuccessRestartsInterval(g: Globals, a: Args, ex: Api.Exchange<Api.RawSession>, now: int)
    requires HasCredentials(g) && ShouldFetch(g.stickyCount, a, false)
    requires Api.GetSession(g.apiKey.value, ex).Data?
    ensures var r := Tick(g, a, false, ex, now);
      && r.fetched && r.globals.stickyCount == 0 && r.globals.lastSticky == g.lastSticky
      && r.next == Reschedule(LoopInterval, Args(Ms(LoopInterval), Some(Api.GetSession(g.apiKey.value, ex).value)))
  {
  }

  /** An invalid credential always ends in Setup with the key cleared, whatever came before. */
  lemma InvalidCredentialClearsKey(g: Globals, a: Args, forced: bool, ex: Api.Exchange<Api.RawSession>, now: int)
    requires HasCredentials(g)
    requires ShouldFetch(if forced then 0 else g.stickyCount, a, forced)
    requires Api.GetSession(g.apiKey.value, ex).Null?
    ensures var r := Tick(g, a, forced, ex, now);
      r.globals.apiKey.None? && r.display == StatusBar.Setup
      && r.popups == [Notifications.ErrorMessage(InvalidKeyText)]
  {
  }
}
