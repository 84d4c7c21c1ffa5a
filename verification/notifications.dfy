/** The session notifications, gated by the "session notifications" setting,
    and the idle nudge: a typing counter that reminds the user, once per idle
    period, to start a session. */
module Notifications {

  /** A toast: an information message with optional action buttons, or an error message. */
  datatype Popup = Info(text: string, actions: seq<string>) | ErrorMessage(text: string)

  // ------------------------------------------------------- session notices

  /** Which session notification the reconciler asks for. */
  datatype Notice = Started(goal: string) | Completed | Paused | Resumed

  const NoGoal: string := "No Goal"
  const StartPrefix: string := "\U{2328}\U{FE0F} Your session has started! "
  const SetGoalReminder: string := "Don't forget to set your goal!"
  const WorkOnPrefix: string := "Time to get to work on "
  const CompleteText: string := "\U{1F680} Your session has ended! Remember to show your progress in the thread."
  const PauseText: string := "\U{23F8}\U{FE0F} Your session has been paused. Take a break!"
  const ResumeText: string := "\U{25B6}\U{FE0F} Your session has been resumed. Keep up the good work!"

  /** The message of `sessionStart(goal)`: the set-goal reminder exactly when the
      goal is the placeholder "No Goal", otherwise the goal itself after a fixed lead-in. */
  function StartText(goal: string): (t: string)
    ensures |t| >= |StartPrefix| && t[..|StartPrefix|] == StartPrefix
    ensures t == StartPrefix + SetGoalReminder <==> goal == NoGoal
    ensures goal != NoGoal ==> t[|StartPrefix|..] == WorkOnPrefix + goal
  {
    var t := StartPrefix + (if goal == NoGoal then SetGoalReminder else WorkOnPrefix + goal);
    assert t[|StartPrefix|..] == (if goal == NoGoal then SetGoalReminder else WorkOnPrefix + goal);
    if goal != NoGoal then
      assert t[|StartPrefix|] == 'T' != SetGoalReminder[0];
      t
    else t
  }

  /** The goal a start message announces. */
  function GoalOf(t: string): string {
    var rest := if |t| >= |StartPrefix| then t[|StartPrefix|..] else t;
    if |rest| >= |WorkOnPrefix| && rest[..|WorkOnPrefix|] == WorkOnPrefix then rest[|WorkOnPrefix|..]
    else NoGoal
  }

  /** The start message loses nothing: the goal can be read back from it. */
  lemma {:induction false} StartTextNamesGoal(goal: string)
    ensures GoalOf(StartText(goal)) == goal
  {
    var t := StartText(goal);
    var rest := t[|StartPrefix|..];
    if goal != NoGoal {
      assert rest[|WorkOnPrefix|..] == goal;
    } else {
      assert rest == SetGoalReminder;
      assert rest[..|WorkOnPrefix|] != WorkOnPrefix by {
        assert rest[0] == 'D' != WorkOnPrefix[0];
      }
    }
  }

  function NoticeText(n: Notice): string {
    match n
    case Started(goal) => StartText(goal)
    case Completed => CompleteText
    case Paused => PauseText
    case Resumed => ResumeText
  }

  /** sessionStart / sessionComplete / sessionPause / sessionResume: each shows its
      message only when the session-notifications setting is on. */
  function Deliver(enabled: bool, notices: seq<Notice>): (r: seq<Popup>)
    ensures !enabled ==> r == []
    ensures enabled ==> |r| == |notices|
    ensures enabled ==> forall i :: 0 <= i < |r| ==> r[i] == Info(NoticeText(notices[i]), [])
  {
    if !enabled || notices == [] then []
    else [Info(NoticeText(notices[0]), [])] + Deliver(enabled, notices[1..])
  }

  // ------------------------------------------------------------- idle nudge

  const NudgeThreshold: nat := 5
  const DontShowAgain: string := "Don't Show Again"
  const NudgeText: string := "You seem to be working on something... Don't forget to start a session!"
  const NudgeDisabledText: string :=
    "Start reminder notifications have been disabled. You can re-enable them in the settings."

  /** `typingAmount`, `startNudged`, and the start-reminder setting they are gated on. */
  datatype Tracker = Tracker(typingAmount: nat, startNudged: bool, reminderOn: bool)

  /** One document change: whether a session is active then, and, if the nudge
      pops up, whether the user clicks "Don't Show Again". */
  datatype Typing = Typing(isActive: bool, optOut: bool)

  datatype Typed = Typed(tracker: Tracker, nudged: bool, popups: seq<Popup>)

  /** `onTyping(isActive)`. */
  function OnTyping(t: Tracker, e: Typing): (r: Typed)
    ensures !t.reminderOn || e.isActive ==>
      r.tracker == Tracker(0, false, t.reminderOn) && !r.nudged && r.popups == []
    ensures t.reminderOn && !e.isActive ==> r.tracker.typingAmount == t.typingAmount + 1
    ensures r.nudged <==>
      t.reminderOn && !e.isActive && !t.startNudged && t.typingAmount + 1 >= NudgeThreshold
    ensures r.nudged ==> r.tracker.startNudged && |r.popups| >= 1 && r.popups[0] == Info(NudgeText, [DontShowAgain])
    ensures !r.nudged ==> r.popups == [] && r.tracker.startNudged == (t.startNudged && t.reminderOn && !e.isActive)
    ensures r.tracker.reminderOn <==> t.reminderOn && !(r.nudged && e.optOut)
    ensures |r.popups| == (if r.nudged && e.optOut then 2 else if r.nudged then 1 else 0)
    ensures r.nudged && e.optOut ==> r.popups[1] == Info(NudgeDisabledText, [])
  {
    if !t.reminderOn || e.isActive then Typed(Tracker(0, false, t.reminderOn), false, [])
    else
      var amount := t.typingAmount + 1;
      if amount >= NudgeThreshold && !t.startNudged then
        var nudge := Info(NudgeText, [DontShowAgain]);
        if e.optOut then Typed(Tracker(amount, true, false), true, [nudge, Info(NudgeDisabledText, [])])
        else Typed(Tracker(amount, true, true), true, [nudge])
      else Typed(Tracker(amount, t.startNudged, true), false, [])
  }

  /** Feeds a sequence of typing events; `fired[i]` says whether event i nudged. */
  function Feed(t: Tracker, es: seq<Typing>): (r: (Tracker, seq<bool>))
    ensures |r.1| == |es|
    decreases |es|
  {
    if es == [] then (t, [])
    else
      var step := OnTyping(t, es[0]);
      var rest := Feed(step.tracker, es[1..]);
      (rest.0, [step.nudged] + rest.1)
  }

  /** Typing outside a session; the answer to a nudge may be anything. */
  predicate Idle(es: seq<Typing>) {
    forall i :: 0 <= i < |es| ==> !es[i].isActive
  }

  /** Once nudged, an idle period stays quiet. */
  lemma {:induction false} NudgedStaysQuiet(t: Tracker, es: seq<Typing>)
    requires t.startNudged
    requires forall i :: 0 <= i < |es| ==> !es[i].isActive
    ensures forall i :: 0 <= i < |es| ==> !Feed(t, es).1[i]
    decreases |es|
  {
    if es != [] {
      var step := OnTyping(t, es[0]);
      if t.reminderOn {
        NudgedStaysQuiet(step.tracker, es[1..]);
      } else {
        ReminderOffStaysQuiet(step.tracker, es[1..]);
      }
    }
  }

  /** With reminders enabled and no nudge yet, idle typing nudges exactly once,
      on the event that brings the count to the threshold (at once if it is already there). */
  lemma {:induction false} IdleNudgesOnce(t: Tracker, es: seq<Typing>)
    requires t.reminderOn && !t.startNudged
    requires Idle(es)
    ensures forall i :: 0 <= i < |es| ==>
      (Feed(t, es).1[i] <==> t.typingAmount + i + 1 == if t.typingAmount + 1 >= NudgeThreshold then t.typingAmount + 1 else NudgeThreshold)
    decreases |es|
  {
    if es != [] {
      var step := OnTyping(t, es[0]);
      var rest := Feed(step.tracker, es[1..]);
      assert Feed(t, es).1 == [step.nudged] + rest.1;
      assert Idle(es[1..]) by {
        forall i | 0 <= i < |es[1..]| ensures !es[1..][i].isActive {
          assert es[1..][i] == es[i + 1];
        }
      }
      if step.nudged {
        NudgedStaysQuiet(step.tracker, es[1..]);
      } else {
        IdleNudgesOnce(step.tracker, es[1..]);
      }
    }
  }

  /** From a fresh tracker, the fifth consecutive idle event nudges and no other does. */
  lemma FifthEventNudges(es: seq<Typing>)
    requires Idle(es)
    ensures forall i :: 0 <= i < |es| ==> (Feed(Tracker(0, false, true), es).1[i] <==> i == 4)
  {
    IdleNudgesOnce(Tracker(0, false, true), es);
  }

  /** Activity during a session resets the tracker, so the next idle period can nudge again. */
  lemma {:induction false} ActiveResetsNudge(t: Tracker, es: seq<Typing>)
    requires t.reminderOn
    requires |es| >= 1 && es[0].isActive && Idle(es[1..])
    ensures forall i :: 1 <= i < |es| ==> (Feed(t, es).1[i] <==> i == 5)
  {
    var step := OnTyping(t, es[0]);
    assert step.tracker == Tracker(0, false, true);
    IdleNudgesOnce(step.tracker, es[1..]);
    assert Feed(t, es).1 == [step.nudged] + Feed(step.tracker, es[1..]).1;
  }

  /** With reminders switched off, nothing ever nudges and the setting stays off:
      the extension itself never switches it back on. */
  lemma {:induction false} ReminderOffStaysQuiet(t: Tracker, es: seq<Typing>)
    requires !t.reminderOn
    ensures forall i :: 0 <= i < |es| ==> !Feed(t, es).1[i]
    ensures !Feed(t, es).0.reminderOn
    decreases |es|
  {
    if es != [] {
      ReminderOffStaysQuiet(OnTyping(t, es[0]).tracker, es[1..]);
    }
  }

  /** Choosing "Don't Show Again" on the nudge silences every later event, as long as
      the setting is not switched back on from outside the extension. */
  lemma {:induction false} OptOutIsFinal(t: Tracker, e: Typing, es: seq<Typing>)
    requires OnTyping(t, e).nudged && e.optOut
    ensures forall i :: 0 <= i < |es| ==> !Feed(OnTyping(t, e).tracker, es).1[i]
  {
    ReminderOffStaysQuiet(OnTyping(t, e).tracker, es);
  }
}
