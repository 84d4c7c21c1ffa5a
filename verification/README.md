# Arcade session tracker for VS Code — a Dafny model

The extension polls the Hack Hour service for the user's current session,
shows a countdown (or "Paused", "No Session", "Ending...") in the status bar,
raises a notification when a session starts, pauses, resumes or ends, and
nudges an idle user who is typing to start a session. This project models the
decision logic of that core as pure functions and proves properties about it:

- `Api` (api.dfy): the `retrier` with its fourfold delays, and how
  `getSession`, `getStats` and `getStatus` turn an HTTP exchange into data,
  `null` or a thrown error. The exchange is an input, not a network call.
- `Session` (session.dfy): which handler (`onActive`, `onComplete`,
  `onPaused`) a snapshot goes to, the four "already notified" flags, and the
  status text, including the `mm:ss` countdown.
- `Poll` (poll.dfy): one run of `loop`. It covers the credential check, the
  fetch-or-reuse decision, the sticky error with its deduplication, the capped
  backoff, the invalid-key path, and the arguments of the next run.
  Module-level variables are the fields of `Globals`.
- `Notifications` (notifications.dfy): the four session notifications, gated
  by the setting, the choice of the start message, and the `onTyping` nudge.
- `Setup` (setup.dfy): the validators of the ID and API-key input boxes.
- `SessionRuns` and `PollRuns`: sequences of polls. They show that the flag
  machine is an edge detector over the handler sequence, that failures back
  off, and that an invalid key ends fetching.
- `Text`, `Arith`, `Optional` and `StatusBar` are small support modules: digit
  strings and `padStart`, powers, `Option`, and the status-bar states.

Clock time is a parameter (`now`). The server's reply is a parameter. The
user's click on the nudge is a parameter (`Typing.optOut`). A timer
(`setTimeout`) becomes a `Reschedule(delay, args)` value, the run that would
follow; a direct recursive `loop(...)` call is a `Reschedule` with delay 0.

Where the behaviour of the code differs from what one might expect, the model
follows the code:

- The sticky message names the retry delay. It therefore changes with every
  failure until the backoff reaches its 5-minute cap, which the sixth failure in
  a row is the first to wait. A repeated failure is only silenced from the
  seventh in a row on (`PollRuns.SecondFailureShownBelowCap`).
- `lastStickyError` is never cleared after a success, so an error that comes
  back after a recovery is not shown again when it builds the same message as
  the one remembered. That holds when the remembered message was built at count
  0, as with forced refreshes or an outage of a single failure
  (`PollRuns.RecurringErrorNotShownAgain`). After an outage of two or more
  scheduled failures the remembered message names a longer delay, so the same
  error is shown again (`PollRuns.ErrorShownAgainAfterLongOutage`).
- `loop` calls `getSession` directly, without `retrier`. The retrier is used
  only by the init command.
- A 404 or 401 reply whose body is `{ok: true, ...}` yields data.
- A forced run sets the sticky count to 0 only after the credential check, and
  its setup path still schedules a run.
- `isActive` is left unchanged on the setup, error and invalid-key paths.
- The branch at src/extension.ts:251-256 cannot be reached: it needs
  `prevSession` undefined without fetching, and a missing `prevSession` always
  fetches. `Tick` therefore has no such case, and its contract says the
  reuse path always has a previous session.

## Model

| member | source | states |
|---|---|---|
| Api.Attempts | src/api.ts:25-27 | the number of calls is exactly the larger of 1 and `max_retries` |
| Api.Retrier | src/api.ts:11-38 | calls the operation at most max(1, max_retries) times and every call before the last rejected; the result is the last call's outcome; a rejection means the budget was used up; the k-th wait is delay·4^k |
| Api.AlwaysFailing | src/api.ts:17-37 | an always-rejecting operation is called exactly max(1, max_retries) times and its last error is rethrown |
| Api.AlwaysFailingWithDefaults | src/api.ts:14-15 | with the defaults: three calls, waits of 1000 ms and 4000 ms |
| Api.FirstSuccess | src/api.ts:17-18 | the first resolving call within the budget ends the run with its value, after exactly k+1 calls |
| Api.Classify | src/api.ts:121-140 | empty key iff the empty-key error; data iff a 200/404/401 reply with an ok body; null iff such a reply with "User not found" or "Unauthorized"; no reply, another status, and any other failure body each iff their own error |
| Api.GetSession | src/api.ts:97-153 | each error case (empty key, no reply, unexpected status, unexpected result) and the null case, each with its converse; data copies every field of the reply |
| Api.KeyContentIrrelevant | src/api.ts:97-127 | the classification does not depend on which non-empty key is sent |
| Api.GetStats | src/api.ts:173-222 | the same case split as getSession, with the two counters copied |
| Api.SameClassification | src/api.ts:173-222 | getSession and getStats agree on data, null and the thrown error for matching replies |
| Api.GetStatus | src/api.ts:46-62 | healthy iff a 200 reply with both Airtable and Slack connected; a failed request is unhealthy, never an error |
| Notifications.StartText | src/notifications.ts:8-13 | the start message has its fixed lead-in; the set-goal reminder appears iff the goal is "No Goal"; otherwise the goal follows "Time to get to work on " |
| Notifications.StartTextNamesGoal | src/notifications.ts:4-14 | the goal can be read back from the start message |
| Notifications.Deliver | src/notifications.ts:4-41 | with the setting off no session notification is shown; with it on, one information message per notice, in order |
| Notifications.OnTyping | src/notifications.ts:43-67 | when reminders are off or a session is active, the counter and the nudged flag reset; otherwise the counter grows by one; a nudge happens iff the count reaches 5 and no nudge was shown yet; a nudge is one toast, or two when the user opts out, the second being the opt-out confirmation; opting out turns reminders off |
| Notifications.Feed | src/notifications.ts:46-67 | one nudge answer per typing event |
| Notifications.NudgedStaysQuiet | src/notifications.ts:54 | after a nudge, idle typing never nudges again |
| Notifications.IdleNudgesOnce | src/notifications.ts:53-59 | from an un-nudged tracker, idle typing nudges exactly once, on the event that reaches the threshold, whatever the user answers to the nudge |
| Notifications.FifthEventNudges | src/notifications.ts:43-59 | from the initial tracker, the fifth idle event nudges and no other |
| Notifications.ActiveResetsNudge | src/notifications.ts:47-51 | typing during a session re-arms the nudge: the fifth idle event afterwards nudges again |
| Notifications.ReminderOffStaysQuiet | src/notifications.ts:47-51 | with reminders off nothing nudges, and the extension never switches them back on |
| Notifications.OptOutIsFinal | src/notifications.ts:60-65 | after "Don't Show Again", later typing never nudges while the setting stays off |
| Session.HandlerFor | src/extension.ts:264-270 | exactly one handler per snapshot; completed takes precedence over paused |
| Session.Activate | src/extension.ts:305-315 | onActive announces the start iff neither start nor pause was noted, and the resume iff a pause was noted without a resume; at most one notice; the pause and complete flags are cleared |
| Session.Complete | src/extension.ts:318-330 | onComplete announces the end iff it was not yet noted, and leaves only the complete flag set |
| Session.Pause | src/extension.ts:332-345 | onPaused announces the pause iff it was not yet noted, and leaves only the pause flag set |
| Session.IsActiveAfter | src/extension.ts:287 | `isActive` is true iff the snapshot went to onActive |
| Session.InitialIsAfterComplete | src/extension.ts:281-284 | the initial flags are those onComplete leaves, so a session already over is not announced |
| Session.TransitionIsEdge | src/extension.ts:281-345 | from every reachable flag state, a snapshot moves the flags to its handler's and emits exactly the notice of that handler change |
| Session.EdgeOnChangeOnly | src/extension.ts:305-341 | one notice on a change of handler, none otherwise |
| Session.Clock | src/extension.ts:289-295 | minutes of at least two digits with no leading zero beyond two, and seconds of exactly two digits, with seconds below 60; together they are the remaining time rounded down to a second |
| Session.CountdownText | src/extension.ts:299-303 | the "Ending..." text iff the remaining time is not positive |
| Session.ReadClockText | src/extension.ts:300 | a countdown text reads back as minutes·60 + seconds |
| Session.ClockTextReadsBack | src/extension.ts:289-300 | digits meeting the clock bounds read back as the whole seconds remaining |
| Session.CountdownReadsBack | src/extension.ts:289-303 | the countdown text reads back as the remaining milliseconds divided by 1000, and "Ending..." reads as no time |
| Session.StatusText | src/extension.ts:299-335 | the countdown for an active session, "No Session" when completed, the remaining minutes when paused |
| Session.StatusTextNamesHandler | src/extension.ts:299-335 | the status text alone tells which handler ran: its third character is the watch or "Ending" mark for onActive, a space for onComplete, the pause mark for onPaused |
| Session.StatusTextsDistinct | src/extension.ts:299-335 | snapshots that go to different handlers never show the same status text |
| SessionRuns.ObserveIsEdges | src/extension.ts:264-345 | over any sequence of polls, the notices are exactly the handler changes and the flags end at the last handler's |
| SessionRuns.SteadyIsQuiet | src/extension.ts:305-341 | repeated polls with the same handler produce no notice |
| SessionRuns.ActivePollsStartOnce | src/extension.ts:305-308 | repeated active polls announce the start once, with the first goal |
| SessionRuns.PauseThenResume | src/extension.ts:305-341 | active, paused, active gives start, pause, resume, with no second start |
| SessionRuns.RepeatedPausesOnce | src/extension.ts:338-341 | repeated paused polls announce the pause at most once |
| SessionRuns.FirstSeenCompletedIsSilent | src/extension.ts:282 | a session first seen completed is never announced |
| SessionRuns.CompletionAnnouncedOnce | src/extension.ts:314-326 | after an active or paused poll, the completion is announced once however many completed polls follow |
| Poll.Backoff | src/extension.ts:220-223 | the retry delay lies between the 10 s fetch interval and the 5-minute cap |
| Poll.BackoffTable | src/extension.ts:15-17 | the delays are 10, 20, 40, 80 and 160 s, then 300 s from the sixth failure in a row on |
| Poll.BackoffMonotone | src/extension.ts:220-223 | more consecutive failures never wait less |
| Poll.BackoffCapped | src/extension.ts:17 | once five failures are counted (the sixth in a row on), the delay is the cap |
| Poll.After | src/extension.ts:189 | an infinite `sinceLastFetch` stays infinite; a finite one grows by the delay |
| Poll.Activated | src/extension.ts:19 | at activation: initial flags, inactive, no sticky error |
| Poll.StickyError | src/extension.ts:175-185 | every call counts; the message is shown iff it differs from the last one; it is then the last one; nothing else changes |
| Poll.StickyRepeatIsSilent | src/extension.ts:180-183 | the same message twice in a row is shown once |
| Poll.RetryMessagesDiffer | src/extension.ts:225-229 | messages naming different whole-second delays differ |
| Poll.SetupRun | src/extension.ts:198-201 | without a key or an ID: Setup shown, no fetch, nothing else changes, and `loop` runs again at once |
| Poll.Reconcile | src/extension.ts:257-278 | with a session in hand: the count is cleared, the handler's flags and notices, `isActive`, the status text, the notices gated by the setting, and the next run one second later with this session (none when forced) |
| Poll.FailedRun | src/extension.ts:218-237 | a thrown fetch counts one failure; the sticky message names the backoff delay and is shown iff new; nothing else in the state changes; the next run comes after the backoff with the previous session (none when forced) |
| Poll.InvalidKeyRun | src/extension.ts:167-173 | null from the service: the invalid-key toast, the key cleared, Setup shown; `loop` runs again at once unless forced |
| Poll.Tick | src/extension.ts:187-279 | no credentials gives the setup run; a fetch happens iff forced, no previous session, a failure pending, or the interval elapsed; otherwise the previous session is reused; each getSession outcome gets its path; the empty-key error cannot occur; unforced runs always schedule another |
| Poll.ForcedResetsCount | src/extension.ts:206-208 | a forced refresh fetches, schedules nothing, and leaves the count 0, or 1 if its fetch throws |
| Poll.SuccessRestartsInterval | src/extension.ts:249-277 | a successful fetch clears the count, keeps the last sticky message, and schedules the next run with `sinceLastFetch` one interval past 0 and the fetched session |
| Poll.InvalidCredentialClearsKey | src/extension.ts:240-247 | an invalid credential always ends in Setup with the key cleared and the toast shown |
| PollRuns.Drive | src/extension.ts:231-277 | a chain of scheduled runs has one outcome per poll |
| PollRuns.AllThrowIsFailChain | src/extension.ts:216-237 | when every fetch throws, the scheduled chain is exactly the chain of failed runs, each started with what the previous one scheduled |
| PollRuns.FailChainBacksOff | src/extension.ts:220-235 | along failed runs the count rises by one per run and run i waits Backoff(count + i) |
| PollRuns.FailuresBackOff | src/extension.ts:210-237 | consecutive failures: every run fetches and shows the error; the count rises by one per run; run i waits Backoff(count + i) |
| PollRuns.NoCredentialsNoFetch | src/extension.ts:198-201 | without credentials no run fetches or says anything |
| PollRuns.InvalidKeyEndsPolling | src/extension.ts:167-173 | after an invalid credential, no later scheduled run fetches |
| PollRuns.ConsecutiveMessagesDiffer | src/extension.ts:178-183 | the sticky messages of two consecutive failures with the same error differ iff fewer than five failures were counted before them |
| PollRuns.SecondFailedRunShown | src/extension.ts:175-185 | of two failed runs in a row with the same error, the second shows it iff fewer than five failures preceded the first |
| PollRuns.SecondFailureShownBelowCap | src/extension.ts:178-183 | a second identical failure is shown iff fewer than five failures preceded the first |
| PollRuns.RecurringErrorNotShownAgain | src/extension.ts:175-185 | with forced refreshes, an error that recurs after a successful run builds the same "Retrying in 10s" message and is not shown again |
| PollRuns.ErrorShownAgainAfterLongOutage | src/extension.ts:175-185 | from the state a recovery after two or more scheduled failures leaves (count 0, a remembered message naming a longer delay), the next failure of the same error is shown again, as "Retrying in 10s" |
| PollRuns.NotificationsOffShowsOnlyErrors | src/notifications.ts:5-7 | with session notifications off, only error toasts appear, and the flags move as with them on |
| Setup.TestIdPattern | src/extension.ts:36 | the anchored ID pattern matches iff five or more upper-case letters or digits |
| Setup.ValidateId | src/extension.ts:35-38 | the ID is accepted iff it has that shape; otherwise the hint is returned |
| Setup.ValidateKeyAsWritten | src/extension.ts:56-59 | the key is accepted iff it has 36 characters from the class as written, commas included; otherwise the key hint is returned |
| Setup.CommasPassAsWritten | src/extension.ts:57 | thirty-six commas pass the key check as written, and the corrected one refuses them |
| Setup.ValidateKey | src/extension.ts:56-59 | the key is accepted iff it has 36 characters from [a-z0-9-]; an accepted key has no comma and also passes the check as written |
| Setup.UuidKeysAccepted | src/extension.ts:57 | every lower-case UUID is accepted as a key |
| Text.IntToString | src/extension.ts:335 | the decimal text of any integer: digits that read back as its magnitude, with a minus sign in front iff it is negative |
| Text.NatToString | src/extension.ts:290-294 | `toString` of a non-negative integer: digits with no leading zero that read back as the number |
| Text.PadStart | src/extension.ts:291-295 | `padStart`: the length is the larger of the two, the string is a suffix, and the front is fill |
| Text.ZeroPadKeepsValue | src/extension.ts:290-295 | zero padding keeps the digit string's value |

## Left out

- User interface calls (status bar items, input boxes, toasts) are values
  (`StatusBar.Display`, `Notifications.Popup`), not calls.
- The setting wrappers of src/config.ts and the secret storage are fields of
  `Globals` and `Tracker`.
- axios, the `User-Agent` interceptor and the endpoint URLs: replies are
  inputs (`Api.Exchange`).
- `new Date(...)` parsing: `createdAt` and `endTime` are already milliseconds.
- Timers, `await` ordering and overlapping `loop` chains are not modelled. A
  forced refresh through the setup path starts a second chain of runs in the
  code; the model returns only the next run.
- Console logging is not modelled, because it only affects the console: the
  `retrier`'s warning and its `name` parameter, `loop`'s `console.log` and
  `console.error` (src/extension.ts:215, 219), and `getStatus`'s `console.error`
  (src/api.ts:51).
- `Api.Message` renders the unexpected-result body as a fixed JSON layout. The
  key order and escaping of `JSON.stringify` are not modelled.
- `Poll.Backoff` uses exact integer powers where the code uses floating-point
  `Math.pow`. The two agree for every count, since every delay below the cap is
  an exact integer.
- `startSession`, `pauseSession` and `endSession` (src/api.ts:238-281) only
  throw "Not implemented", and nothing calls them.
- The code calls `getSession(key, id)` while the function takes one parameter.
  The extra argument is ignored, and the model passes only the key.
- The ID getter is missing from this version of the source: `saveID`, `getID`
  and `clearID` are commented out in src/config.ts:3-19, while src/extension.ts
  still calls them (lines 28, 95, 104, 127 and 196). The model reads the ID from
  `Globals.id`, as if a working getter existed.
- The activation-time credential check (src/extension.ts:122-147) only sets
  Setup, which the first `loop` run also does.
- The flow of the init command is not modelled: the prompts, the retried
  validation and the save. Its validators are modelled in `Setup`, and its
  retrier in `Api.Retrier`.
- The clear, refresh and Slack commands are not modelled, nor the "Force
  refreshed status" toast.
- A refresh is `Poll.Tick` with `forced` set and the default arguments.
- Session.StatusText: the paused text renders `remaining` as a whole number;
  fractional minutes are not modelled.
- Settings changed from VS Code's settings are not events of the model: the
  start reminders switched back on after "Don't Show Again" (the code reads the
  setting afresh on every change, src/notifications.ts:46, and its toast points
  there), or session notifications toggled during a chain of runs.
  `Notifications.OptOutIsFinal`, `Notifications.ReminderOffStaysQuiet` and
  `PollRuns.NotificationsOffShowsOnlyErrors` hold while the setting is left alone.
- Notifications.OnTyping: each document change is handled as one atomic step.
  In the code `startNudged` is set only after the nudge toast settles
  (src/notifications.ts:55-59), so every change made while the toast is open
  nudges again. `Notifications.IdleNudgesOnce` and `Notifications.NudgedStaysQuiet`
  hold only under the atomic reading.
- src/sidebar.ts and src/webview.ts are not part of this model. Their import
  and registration in src/extension.ts (lines 6-12 and 155-162) and the webview
  message handler (src/extension.ts:347-381) are commented out.
- The build script (esbuild.js) is not modelled.

## Findings

| source | as written | input that shows it | evidently intended | confidence | as-written member | corrected member |
|---|---|---|---|---|---|---|
| src/extension.ts:57 | the key pattern `/^[a-z,0-9,-]{36,36}$/` puts the commas inside the character class, so `,` is an allowed key character | a key of 36 commas is accepted | the class `[a-z0-9-]`: 36 lower-case letters, digits or hyphens, as in a lower-case UUID | medium, not executed | Setup.ValidateKeyAsWritten, Setup.CommasPassAsWritten | Setup.ValidateKey |
