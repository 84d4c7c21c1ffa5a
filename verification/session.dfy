/** The per-poll session reconciler: which handler a snapshot goes to
    (onActive, onComplete or onPaused), the four "already notified" flags the
    handlers keep, and the status text each handler shows. */
module Session {
  import Api
  import Text
  import Notifications
  import opened Optional

  // ------------------------------------------------------- classification

  datatype Handler = OnActive | OnComplete | OnPaused

  /** Exactly one handler per snapshot: neither completed nor paused is active;
      completed wins over paused. */
  function HandlerFor(s: Api.SessionData): (h: Handler)
    ensures h == OnActive <==> !s.completed && !s.paused
    ensures h == OnComplete <==> s.completed
    ensures h == OnPaused <==> s.paused && !s.completed
  {
    if !s.completed && !s.paused then OnActive
    else if s.completed then OnComplete
    else OnPaused
  }

  // ---------------------------------------------------------- notice flags

  datatype Flags = Flags(startNotified: bool, completeNotified: bool, pauseNotified: bool, resumeNotified: bool)

  /** `completeNotified` starts out true: a session already over when first seen is not announced. */
  const InitialFlags := Flags(false, true, false, false)

  /** The flags after one handler, and the notices it asked for. */
  datatype Step = Step(flags: Flags, notices: seq<Notifications.Notice>)

  /** The notice part of `onActive`. */
  function Activate(f: Flags, goal: string): (r: Step)
    ensures !r.flags.pauseNotified && !r.flags.completeNotified
    ensures r.notices != [] ==> r.flags.startNotified && r.flags.resumeNotified
    ensures r.notices == [] ==> r.flags.startNotified == f.startNotified && r.flags.resumeNotified == f.resumeNotified
    ensures !f.pauseNotified && !f.startNotified ==> r.notices == [Notifications.Started(goal)]
    ensures f.pauseNotified && !f.resumeNotified ==> r.notices == [Notifications.Resumed]
    ensures |r.notices| <= 1
    ensures r.notices == [] <==> (f.startNotified || f.pauseNotified) && (!f.pauseNotified || f.resumeNotified)
  {
    if !f.pauseNotified && !f.startNotified then
      Step(Flags(true, false, false, true), [Notifications.Started(goal)])
    else if f.pauseNotified && !f.resumeNotified then
      Step(Flags(true, false, false, true), [Notifications.Resumed])
    else
      Step(f.(completeNotified := false, pauseNotified := false), [])
  }

  /** The notice part of `onComplete`. */
  function Complete(f: Flags): (r: Step)
    ensures r.flags == Flags(false, true, false, false)
    ensures r.notices == (if f.completeNotified then [] else [Notifications.Completed])
  {
    Step(Flags(false, true, false, false), if f.completeNotified then [] else [Notifications.Completed])
  }

  /** The notice part of `onPaused`. */
  function Pause(f: Flags): (r: Step)
    ensures r.flags == Flags(false, false, true, false)
    ensures r.notices == (if f.pauseNotified then [] else [Notifications.Paused])
  {
    Step(Flags(false, false, true, false), if f.pauseNotified then [] else [Notifications.Paused])
  }

  /** One snapshot through its handler. */
  function Transition(f: Flags, s: Api.SessionData): Step {
    match HandlerFor(s)
    case OnActive => Activate(f, s.goal)
    case OnComplete => Complete(f)
    case OnPaused => Pause(f)
  }

  /** `isActive` after a snapshot: set by onActive, cleared by the other two. */
  function IsActiveAfter(s: Api.SessionData): (active: bool)
    ensures active <==> HandlerFor(s) == OnActive
  {
    !s.completed && !s.paused
  }

  // ------------------------------------------ the flags as an edge detector

  /** The flags a handler leaves behind, whatever they were before. */
  function Encode(h: Handler): Flags {
    match h
    case OnActive => Flags(true, false, false, true)
    case OnComplete => Flags(false, true, false, false)
    case OnPaused => Flags(false, false, true, false)
  }

  /** Reference behaviour: a notice exactly when the handler changes, telling
      which change it was (a fresh start, a resume, a pause, an end). */
  function Edge(last: Handler, next: Handler, goal: string): seq<Notifications.Notice> {
    if last == next then []
    else match next
      case OnActive => if last == OnPaused then [Notifications.Resumed] else [Notifications.Started(goal)]
      case OnPaused => [Notifications.Paused]
      case OnComplete => [Notifications.Completed]
  }

  lemma InitialIsAfterComplete()
    ensures InitialFlags == Encode(OnComplete)
  {
  }

  /** From every flag state the handlers can produce, a snapshot moves the flags to
      those of its own handler and emits exactly the edge notice. */
  lemma {:induction false} TransitionIsEdge(last: Handler, s: Api.SessionData)
    ensures Transition(Encode(last), s) == Step(Encode(HandlerFor(s)), Edge(last, HandlerFor(s), s.goal))
  {
    match HandlerFor(s)
    case OnActive =>
      assert Transition(Encode(last), s) == Activate(Encode(last), s.goal);
    case OnComplete =>
    case OnPaused =>
  }

  /** The edge detector emits one notice on a change of handler and none otherwise. */
  lemma EdgeOnChangeOnly(last: Handler, next: Handler, goal: string)
    ensures |Edge(last, next, goal)| == if last == next then 0 else 1
  {
  }

  // ---------------------------------------------------------------- display

  const WatchIcon: string := "$(watch) "
  const EndingText: string := "$(loading~spin) Ending..."
  const NoSessionText: string := "No Session"

  /** Minutes and seconds of a non-negative remaining time, each rendered with
      `Math.floor(...).toString().padStart(2, "0")`: the time rounded down to a
      whole second, seconds always two digits, minutes at least two. */
  function Clock(ms: nat): (r: (string, string))
    ensures Text.AllDigits(r.0) && |r.0| >= 2
    ensures |r.0| > 2 ==> r.0[0] != '0'
    ensures Text.AllDigits(r.1) && |r.1| == 2
    ensures Text.Value(r.1) < 60
    ensures Text.Value(r.0) * 60000 + Text.Value(r.1) * 1000 <= ms < Text.Value(r.0) * 60000 + Text.Value(r.1) * 1000 + 1000
  {
    var minutes := ms / 60000;
    var seconds := (ms % 60000) / 1000;
    var mm := Text.PadStart(Text.NatToString(minutes), 2, '0');
    var ss := Text.PadStart(Text.NatToString(seconds), 2, '0');
    Text.ZeroPadKeepsValue(Text.NatToString(minutes), 2);
    Text.ZeroPadKeepsValue(Text.NatToString(seconds), 2);
    (mm, ss)
  }

  /** The status text of onActive for `remainingMs = endTime - now`. */
  function CountdownText(remainingMs: int): (t: string)
    ensures remainingMs <= 0 <==> t == EndingText
    ensures remainingMs > 0 ==> |t| > |WatchIcon| && t[..|WatchIcon|] == WatchIcon
  {
    if remainingMs > 0 then
      var c := Clock(remainingMs);
      var rest := c.0 + ":" + c.1;
      WatchIsNotEnding(rest);
      WatchIcon + rest
    else EndingText
  }

  lemma WatchIsNotEnding(rest: string)
    ensures WatchIcon + rest != EndingText
  {
    assert (WatchIcon + rest)[2] == 'w' != EndingText[2];
  }

  /** Reads a countdown text back as whole seconds. */
  function ReadCountdown(t: string): Option<nat> {
    if |t| < |WatchIcon| + 4 || t[..|WatchIcon|] != WatchIcon then None
    else
      var rest := t[|WatchIcon|..];
      var colon := |rest| - 3;
      if rest[colon] != ':' || !Text.AllDigits(rest[..colon]) || !Text.AllDigits(rest[colon + 1..]) then None
      else Some(Text.Value(rest[..colon]) * 60 + Text.Value(rest[colon + 1..]))
  }

  lemma {:induction false} ReadClockText(mm: string, ss: string)
    requires Text.AllDigits(mm) && |mm| >= 2
    requires Text.AllDigits(ss) && |ss| == 2
    ensures ReadCountdown(WatchIcon + (mm + ":" + ss)) == Some(Text.Value(mm) * 60 + Text.Value(ss))
  {
    var rest := mm + ":" + ss;
    var t := WatchIcon + rest;
    assert t[|WatchIcon|..] == rest;
    assert t[..|WatchIcon|] == WatchIcon;
    var colon := |rest| - 3;
    assert rest[colon] == ':';
    assert rest[..colon] == mm;
    assert rest[colon + 1..] == ss;
  }

  /** Digits satisfying the clock bounds of `ms` read back as its whole seconds. */
  lemma {:induction false} ClockTextReadsBack(ms: nat, mm: string, ss: string)
    requires Text.AllDigits(mm) && |mm| >= 2
    requires Text.AllDigits(ss) && |ss| == 2
    requires Text.Value(mm) * 60000 + Text.Value(ss) * 1000 <= ms < Text.Value(mm) * 60000 + Text.Value(ss) * 1000 + 1000
    ensures ReadCountdown(WatchIcon + (mm + ":" + ss)) == Some(ms / 1000)
  {
    ReadClockText(mm, ss);
  }

  /** The countdown shows the remaining time rounded down to whole seconds, and
      the "Ending..." text reads as no time at all. */
  lemma {:induction false} CountdownReadsBack(remainingMs: int)
    ensures ReadCountdown(CountdownText(remainingMs)) ==
      if remainingMs > 0 then Some(remainingMs / 1000) else None
  {
    if remainingMs > 0 {
      var c := Clock(remainingMs);
      assert CountdownText(remainingMs) == WatchIcon + (c.0 + ":" + c.1);
      ClockTextReadsBack(remainingMs, c.0, c.1);
    } else {
      assert EndingText[..|WatchIcon|] != WatchIcon by {
        assert EndingText[2] != WatchIcon[2];
      }
    }
  }

  /** The status text each handler sets. */
  function StatusText(s: Api.SessionData, now: int): (t: string)
    ensures HandlerFor(s) == OnActive ==> t == CountdownText(s.endTime - now)
    ensures HandlerFor(s) == OnComplete ==> t == NoSessionText
    ensures HandlerFor(s) == OnPaused ==> t == "$(debug-pause) Paused: " + Text.IntToString(s.remaining) + " mins"
  {
    match HandlerFor(s)
    case OnActive => CountdownText(s.endTime - now)
    case OnComplete => NoSessionText
    case OnPaused => "$(debug-pause) Paused: " + Text.IntToString(s.remaining) + " mins"
  }

  /** Which handler set a status text, told by its third character: the watch or
      spinner icon of onActive, the space of "No Session", the pause icon of onPaused. */
  function ReadHandler(t: string): Option<Handler> {
    if |t| < 3 then None
    else if t[2] == 'w' || t[2] == 'l' then Some(OnActive)
    else if t[2] == ' ' then Some(OnComplete)
    else if t[2] == 'd' then Some(OnPaused)
    else None
  }

  lemma WatchTextNamesActive(t: string)
    requires |t| > |WatchIcon| && t[..|WatchIcon|] == WatchIcon
    ensures ReadHandler(t) == Some(OnActive)
  {
    assert t[2] == t[..|WatchIcon|][2];
  }

  lemma CountdownNamesActive(remainingMs: int)
    ensures ReadHandler(CountdownText(remainingMs)) == Some(OnActive)
  {
    if remainingMs > 0 {
      WatchTextNamesActive(CountdownText(remainingMs));
    } else {
      assert EndingText[2] == 'l';
    }
  }

  lemma PausedTextNamesPaused(minutes: string)
    ensures ReadHandler("$(debug-pause) Paused: " + minutes + " mins") == Some(OnPaused)
  {
    var lead := "$(debug-pause) Paused: ";
    assert (lead + minutes + " mins")[2] == lead[2];
  }

  /** The status bar identifies the handler: its text reads back as the handler
      of the snapshot, so texts from different handlers never coincide. */
  lemma {:induction false} StatusTextNamesHandler(s: Api.SessionData, now: int)
    ensures ReadHandler(StatusText(s, now)) == Some(HandlerFor(s))
  {
    match HandlerFor(s)
    case OnActive =>
      CountdownNamesActive(s.endTime - now);
    case OnComplete =>
      assert NoSessionText[2] == ' ';
    case OnPaused =>
      PausedTextNamesPaused(Text.IntToString(s.remaining));
  }

  lemma StatusTextsDistinct(s1: Api.SessionData, now1: int, s2: Api.SessionData, now2: int)
    requires HandlerFor(s1) != HandlerFor(s2)
    ensures StatusText(s1, now1) != StatusText(s2, now2)
  {
    StatusTextNamesHandler(s1, now1);
    StatusTextNamesHandler(s2, now2);
  }
}
