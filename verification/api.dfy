/** The client side of the Hack Hour HTTP service: the retrier and the way a
    reply to `GET /api/session/`, `GET /api/stats/` or `GET /status` is turned
    into data, `null` (an unknown or unauthorised user) or a thrown error.
    The HTTP exchange itself is an input: what the server answered, or that no
    answer came. */
module Api {
  import Arith
  import Text

  // ---------------------------------------------------------------- retrier

  /** The outcome of one call of an asynchronous operation: resolved or rejected. */
  datatype Try<+T, +E> = Ok(value: T) | Fail(error: E)

  const DefaultMaxRetries: int := 3
  const DefaultDelay: int := 1000
  const DelayFactor: nat := 4

  /** What a retrier run did: its final outcome, how many times it called the
      operation, and the delays it waited between successive calls. */
  datatype Run<+T, +E> = Run(result: Try<T, E>, calls: nat, waits: seq<int>)

  /** How many calls a retrier makes at most: `max_retries <= 1` still calls once. */
  function Attempts(maxRetries: int): (n: nat)
    ensures n >= 1 && n >= maxRetries
    ensures n == 1 || n == maxRetries
  {
    if maxRetries <= 1 then 1 else maxRetries
  }

  /** `retrier(fn, name, max_retries, delay)`. The operation is given by its
      outcomes: `op(i)` is what the call numbered `i` resolves or rejects with;
      this run starts at call number `first`. */
  function Retrier<T, E>(op: nat -> Try<T, E>, first: nat, maxRetries: int, delay: int): (r: Run<T, E>)
    ensures 1 <= r.calls <= Attempts(maxRetries)
    ensures forall i :: first <= i < first + r.calls - 1 ==> op(i).Fail?
    ensures r.result == op(first + r.calls - 1)
    ensures r.result.Fail? ==> r.calls == Attempts(maxRetries)
    ensures |r.waits| == r.calls - 1
    ensures forall i :: 0 <= i < |r.waits| ==> r.waits[i] == delay * Arith.Pow(DelayFactor, i)
    decreases Attempts(maxRetries)
  {
    match op(first)
    case Ok(v) => Run(Ok(v), 1, [])
    case Fail(e) =>
      if maxRetries <= 1 then Run(Fail(e), 1, [])
      else
        var rest := Retrier(op, first + 1, maxRetries - 1, delay * DelayFactor);
        var waits := [delay] + rest.waits;
        assert forall i :: 1 <= i < |waits| ==> waits[i] == delay * Arith.Pow(DelayFactor, i) by {
          forall i | 1 <= i < |waits|
            ensures waits[i] == delay * Arith.Pow(DelayFactor, i)
          {
            assert waits[i] == rest.waits[i - 1];
            WaitGrows(delay, i);
          }
        }
        Run(rest.result, rest.calls + 1, waits)
  }

  /** The wait before call i + 1 of a run is the first wait of the run that
      starts one call later, with its fourfold delay. */
  lemma WaitGrows(delay: int, i: nat)
    requires i >= 1
    ensures (delay * DelayFactor) * Arith.Pow(DelayFactor, i - 1) == delay * Arith.Pow(DelayFactor, i)
  {
    var p := Arith.Pow(DelayFactor, i - 1);
    assert Arith.Pow(DelayFactor, i) == DelayFactor * p;
    assert (delay * DelayFactor) * p == delay * (DelayFactor * p);
  }

  /** An operation that always rejects is called exactly max(1, max_retries)
      times, with delays growing fourfold, and its last error is rethrown as is. */
  lemma AlwaysFailing<T, E>(op: nat -> Try<T, E>, maxRetries: int, delay: int)
    requires forall i :: op(i).Fail?
    ensures var r := Retrier(op, 0, maxRetries, delay);
      && r.calls == Attempts(maxRetries)
      && r.result == op(Attempts(maxRetries) - 1)
      && |r.waits| == Attempts(maxRetries) - 1
  {
  }

  /** With the defaults (3 attempts, 1000 ms) a failing operation is called three
      times, after waits of 1000 ms and 4000 ms. */
  lemma {:induction false} AlwaysFailingWithDefaults<T, E>(op: nat -> Try<T, E>)
    requires forall i :: op(i).Fail?
    ensures var r := Retrier(op, 0, DefaultMaxRetries, DefaultDelay);
      r.calls == 3 && r.waits == [1000, 4000] && r.result == op(2)
  {
    var r := Retrier(op, 0, DefaultMaxRetries, DefaultDelay);
    AlwaysFailing(op, DefaultMaxRetries, DefaultDelay);
    assert Arith.Pow(DelayFactor, 1) == 4;
    assert r.waits[1] == 4000;
  }

  /** If the first success is call number k, within the attempt budget, the
      retrier resolves with that call's value after exactly k + 1 calls. */
  lemma FirstSuccess<T, E>(op: nat -> Try<T, E>, maxRetries: int, delay: int, k: nat)
    requires k < Attempts(maxRetries)
    requires forall i :: 0 <= i < k ==> op(i).Fail?
    requires op(k).Ok?
    ensures var r := Retrier(op, 0, maxRetries, delay);
      r.calls == k + 1 && r.result == op(k)
  {
  }

  // --------------------------------------------------- response classification

  const UserNotFound: string := "User not found"
  const Unauthorized: string := "Unauthorized"

  /** The JSON envelope of the service: `{ok: true, data}` or `{ok: false, error}`. */
  datatype Body<+D> = Success(data: D) | Failure(error: string)

  /** One HTTP exchange as axios reports it: a reply with a status code (axios
      hands non-2xx replies over on the error's `response`), or an error that
      carries no reply at all (network failure, or a non-axios exception). */
  datatype Exchange<+D> = Answered(status: int, body: Body<D>) | NoReply(reason: string)

  /** Why a getter threw. */
  datatype FetchError =
    | EmptyKey
    | NoResponse(reason: string)
    | UnexpectedStatus(status: int)
    | UnexpectedResult(error: string)

  /** A getter's settled promise: data, `null`, or a thrown error. */
  datatype Fetch<+D> = Data(value: D) | Null | Thrown(error: FetchError)

  predicate RecognisedStatus(status: int) {
    status == 200 || status == 404 || status == 401
  }

  predicate InvalidCredential(error: string) {
    error == UserNotFound || error == Unauthorized
  }

  /** The text of the Error a getter throws. */
  function Message(e: FetchError): string {
    "Error while fetching session: " +
    match e
    case EmptyKey => "API key cannot be empty"
    case NoResponse(reason) => reason
    case UnexpectedStatus(status) => "Unexpected status code " + Text.IntToString(status)
    case UnexpectedResult(error) => "Unexpected result of {\"ok\":false,\"error\":\"" + error + "\"}"
  }

  /** The classification shared by getSession and getStats. */
  function Classify<D>(key: string, ex: Exchange<D>): (r: Fetch<D>)
    ensures key == "" <==> r == Thrown(EmptyKey)
    ensures r.Data? <==> key != "" && ex.Answered? && RecognisedStatus(ex.status) && ex.body.Success?
    ensures r.Data? ==> r.value == ex.body.data
    ensures r.Null? <==>
      key != "" && ex.Answered? && RecognisedStatus(ex.status) && ex.body.Failure? && InvalidCredential(ex.body.error)
    ensures key != "" && ex.NoReply? ==> r == Thrown(NoResponse(ex.reason))
    ensures key != "" && ex.Answered? && !RecognisedStatus(ex.status) ==> r == Thrown(UnexpectedStatus(ex.status))
    ensures key != "" && ex.Answered? && RecognisedStatus(ex.status) && ex.body.Failure? && !InvalidCredential(ex.body.error) ==>
      r == Thrown(UnexpectedResult(ex.body.error))
    ensures r.Thrown? && r.error.NoResponse? ==> key != "" && ex.NoReply?
    ensures r.Thrown? && r.error.UnexpectedStatus? ==> key != "" && ex.Answered? && !RecognisedStatus(ex.status)
    ensures r.Thrown? && r.error.UnexpectedResult? ==>
      key != "" && ex.Answered? && RecognisedStatus(ex.status) && ex.body.Failure? && !InvalidCredential(ex.body.error)
  {
    if key == "" then Thrown(EmptyKey)
    else
      match ex
      case NoReply(reason) => Thrown(NoResponse(reason))
      case Answered(status, body) =>
        if !RecognisedStatus(status) then Thrown(UnexpectedStatus(status))
        else
          match body
          case Failure(error) =>
            if InvalidCredential(error) then Null else Thrown(UnexpectedResult(error))
          case Success(data) => Data(data)
  }

  /** The `data` object of a successful session reply; `createdAt` and `endTime`
      are already milliseconds since the epoch. */
  datatype RawSession = RawSession(
    id: string, createdAt: int, time: int, elapsed: int, remaining: int,
    endTime: int, paused: bool, completed: bool, work: string, goal: string)

  /** The session as the rest of the extension sees it. */
  datatype SessionData = SessionData(
    createdAt: int, time: int, elapsed: int, remaining: int,
    endTime: int, paused: bool, completed: bool, work: string, goal: string)

  /** The reply's fields carried over one for one (the row id is dropped). */
  predicate CopiedFrom(s: SessionData, raw: RawSession) {
    && s.createdAt == raw.createdAt && s.time == raw.time && s.elapsed == raw.elapsed
    && s.remaining == raw.remaining && s.endTime == raw.endTime
    && s.paused == raw.paused && s.completed == raw.completed
    && s.work == raw.work && s.goal == raw.goal
  }

  /** `getSession(key)`: an empty key throws without a request; a missing reply or a
      status outside {200, 404, 401} throws; an `ok: false` body is `null` for the
      two invalid-credential errors and throws otherwise; an `ok: true` body is
      the session, copied field by field. */
  function GetSession(key: string, ex: Exchange<RawSession>): (r: Fetch<SessionData>)
    ensures key == "" <==> r == Thrown(EmptyKey)
    ensures key != "" && ex.NoReply? ==> r == Thrown(NoResponse(ex.reason))
    ensures key != "" && ex.Answered? && !RecognisedStatus(ex.status) ==> r == Thrown(UnexpectedStatus(ex.status))
    ensures key != "" && ex.Answered? && RecognisedStatus(ex.status) && ex.body.Failure? && !InvalidCredential(ex.body.error) ==>
      r == Thrown(UnexpectedResult(ex.body.error))
    ensures r.Thrown? && r.error.NoResponse? ==> key != "" && ex.NoReply?
    ensures r.Thrown? && r.error.UnexpectedStatus? ==> key != "" && ex.Answered? && !RecognisedStatus(ex.status)
    ensures r.Thrown? && r.error.UnexpectedResult? ==>
      key != "" && ex.Answered? && RecognisedStatus(ex.status) && ex.body.Failure? && !InvalidCredential(ex.body.error)
    ensures r.Null? <==>
      key != "" && ex.Answered? && RecognisedStatus(ex.status) && ex.body.Failure? && InvalidCredential(ex.body.error)
    ensures r.Data? <==> key != "" && ex.Answered? && RecognisedStatus(ex.status) && ex.body.Success?
    ensures r.Data? ==> CopiedFrom(r.value, ex.body.data)
  {
    match Classify(key, ex)
    case Data(raw) =>
      Data(SessionData(raw.createdAt, raw.time, raw.elapsed, raw.remaining, raw.endTime,
                       raw.paused, raw.completed, raw.work, raw.goal))
    case Null => Null
    case Thrown(e) => Thrown(e)
  }

  /** Whether the reply depends on the key: it does not, as long as the key is non-empty. */
  lemma {:induction false} KeyContentIrrelevant(key1: string, key2: string, ex: Exchange<RawSession>)
    requires key1 != "" && key2 != ""
    ensures GetSession(key1, ex) == GetSession(key2, ex)
  {
  }

  datatype RawStats = RawStats(sessions: int, total: int)
  datatype StatsData = StatsData(sessions: int, total: int)

  /** `getStats(key)`: the same classification as getSession over the stats reply. */
  function GetStats(key: string, ex: Exchange<RawStats>): (r: Fetch<StatsData>)
    ensures key == "" <==> r == Thrown(EmptyKey)
    ensures key != "" && ex.NoReply? ==> r == Thrown(NoResponse(ex.reason))
    ensures key != "" && ex.Answered? && !RecognisedStatus(ex.status) ==> r == Thrown(UnexpectedStatus(ex.status))
    ensures key != "" && ex.Answered? && RecognisedStatus(ex.status) && ex.body.Failure? && !InvalidCredential(ex.body.error) ==>
      r == Thrown(UnexpectedResult(ex.body.error))
    ensures r.Thrown? && r.error.NoResponse? ==> key != "" && ex.NoReply?
    ensures r.Thrown? && r.error.UnexpectedStatus? ==> key != "" && ex.Answered? && !RecognisedStatus(ex.status)
    ensures r.Thrown? && r.error.UnexpectedResult? ==>
      key != "" && ex.Answered? && RecognisedStatus(ex.status) && ex.body.Failure? && !InvalidCredential(ex.body.error)
    ensures r.Null? <==>
      key != "" && ex.Answered? && RecognisedStatus(ex.status) && ex.body.Failure? && InvalidCredential(ex.body.error)
    ensures r.Data? <==> key != "" && ex.Answered? && RecognisedStatus(ex.status) && ex.body.Success?
    ensures r.Data? ==> r.value.sessions == ex.body.data.sessions && r.value.total == ex.body.data.total
  {
    match Classify(key, ex)
    case Data(raw) => Data(StatsData(raw.sessions, raw.total))
    case Null => Null
    case Thrown(e) => Thrown(e)
  }

  /** getSession and getStats agree on which replies are data, `null` or errors. */
  lemma {:induction false} SameClassification(key: string, status: int, se: Body<RawSession>, te: Body<RawStats>)
    requires se.Success? == te.Success?
    requires se.Failure? ==> te.Failure? && se.error == te.error
    ensures GetSession(key, Answered(status, se)).Data? == GetStats(key, Answered(status, te)).Data?
    ensures GetSession(key, Answered(status, se)).Null? == GetStats(key, Answered(status, te)).Null?
    ensures GetSession(key, Answered(status, se)).Thrown? ==>
      GetSession(key, Answered(status, se)).error == GetStats(key, Answered(status, te)).error
  {
  }

  /** The body of `GET /status`. */
  datatype RawStatus = RawStatus(activeSessions: int, airtableConnected: bool, slackConnected: bool)

  datatype StatusExchange = StatusAnswered(status: int, data: RawStatus) | StatusNoReply(reason: string)

  /** `getStatus()`: healthy iff the request came back 200 with both back ends connected;
      a request that throws is reported as unhealthy, never rethrown. */
  function GetStatus(ex: StatusExchange): (healthy: bool)
    ensures healthy <==>
      ex.StatusAnswered? && ex.status == 200 && ex.data.airtableConnected && ex.data.slackConnected
    ensures ex.StatusNoReply? ==> !healthy
  {
    match ex
    case StatusNoReply(_) => false
    case StatusAnswered(status, data) =>
      if status != 200 then false else data.airtableConnected && data.slackConnected
  }
}
