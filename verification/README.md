# Support-chat orchestration, modelled in Dafny

This project models the conversation-orchestration core of a support-chat
client written in TypeScript and React. A triage guide talks to the user
first. When the guide's structured decision asks for a handoff, a connecting
overlay plays a timed animation. Then a specialist takes over, a new live
session is listed, and the specialist greets the user. An idle supervisor
warns the user after three minutes of inactivity and ends the session after
five. The service layer does several jobs:

- it shapes each request: the last six turns, then the attachments and the query;
- it decodes the triage decision, with fallbacks when it is missing or cannot be parsed;
- it de-duplicates the grounding sources by URI;
- for free API keys, it classifies rate-limit failures: limit type, retry window and reset time.

A banner counts down to the reset. The sidebar splits the sessions into
active and history tabs. The composer keeps the selected files and their
previews side by side.

The model works as follows:

- Time is an integer number of milliseconds, passed to every operation.
- What the backend returns is an input value (`GeminiService.CallOutcome`): a reply with its text, its decoded JSON and its grounding chunks, or the error it threw.
- Each React handler runs as one sequential step.
- Components whose handlers update state in place are classes:
  - `App.Orchestrator`;
  - `IdleTimeout.IdleSupervisor`;
  - `ConnectingOverlay.Overlay`;
  - `RateLimitNotification.Countdown`;
  - `ResponseCard.Composer`.
- Each class method is proved against a pure step function of the old state (`State() == Step(old(State()), ...)`). The lemmas state what the source promises about those step functions.

The modules are:

- `App`, `GeminiService`, `RateLimitClassifier`, `IdleTimeout`, `ConnectingOverlay`, `RateLimitNotification`, `SessionList` and `ResponseCard`: one module per core source file (`RateLimitClassifier` holds the error-classification half of `services/geminiService.ts`);
- `ChatTypes`: the shared records;
- `JsRuntime`: the JavaScript built-ins the source relies on (`trim`, `toLowerCase`, `includes`, `substring`, `padStart`, `parseInt`, number-to-string, `Math.ceil`).

## Model

| member | source | states |
|---|---|---|
| `JsRuntime.OrElse` | services/geminiService.ts:129 | `o \|\| d` on an optional string is one of its two operands, a present non-empty string wins, and a non-empty default makes the result non-empty |
| `JsRuntime.TrimStart` | App.tsx:177 | the result is a suffix of the input, does not start with whitespace, and only whitespace was dropped |
| `JsRuntime.TrimEnd` | App.tsx:177 | the result is a prefix of the input, does not end with whitespace, and only whitespace was dropped |
| `JsRuntime.Trim` | App.tsx:177 | `trim()` is never longer than its input and neither starts nor ends with whitespace |
| `JsRuntime.TrimEmptyIffBlank` | App.tsx:177 | `trim()` gives the empty string exactly when every character is whitespace |
| `JsRuntime.ToLower` | services/geminiService.ts:196 | lower-casing keeps the length and maps each character on its own |
| `JsRuntime.Contains` | services/geminiService.ts:200-205 | `includes` finds the empty pattern in every string and never a pattern longer than the string |
| `JsRuntime.ContainsIffOccurs` | services/geminiService.ts:200-205 | `includes` holds exactly when the pattern occurs at some index |
| `JsRuntime.Take` | App.tsx:273 | `substring(0, n)` is the prefix of length min(n, length) |
| `JsRuntime.BeforeFirstComma` | components/ResponseCard.tsx:269 | `split(',')[0]` is the longest comma-free prefix, and it stops at a comma or at the end |
| `JsRuntime.NatToString` | components/RateLimitNotification.tsx:30 | the decimal rendering is non-empty, all digits, has no leading zero, and is one character long exactly below 10 |
| `JsRuntime.NatToStringRoundTrip` | components/RateLimitNotification.tsx:30 | reading the rendered digits back gives the number |
| `JsRuntime.NatToStringInjective` | App.tsx:271 | distinct numbers render as distinct strings |
| `JsRuntime.PadTwo` | hooks/useIdleTimeout.ts:96 | `padStart(2, '0')` keeps a long string, and pads a short one on the left with zeros to length two |
| `JsRuntime.PadTwoValue` | hooks/useIdleTimeout.ts:95-96 | a number below 60, rendered and padded, is two digits that read back as the number |
| `JsRuntime.LeadingZerosValue` | hooks/useIdleTimeout.ts:96 | leading zeros do not change the value read back |
| `JsRuntime.LeadingDigits` | services/geminiService.ts:233 | the longest all-digit prefix, followed by a non-digit or the end |
| `JsRuntime.ParseIntDelaySeconds` | services/geminiService.ts:233 | a header value of one or more digits parses to its decimal value |
| `JsRuntime.ParseIntRoundTrip` | services/geminiService.ts:233 | `parseInt` reads back what number-to-string renders |
| `JsRuntime.CeilSeconds` | hooks/useIdleTimeout.ts:93 | the result r is the least integer with ms <= 1000 r |
| `App.ShippedRosterWellFormed` | App.tsx:17-82 | the shipped triage guide is marked as triage, and no shipped specialist is |
| `App.FindSpecialist` | App.tsx:215-216 | a result is a specialist whose id is the given one; no result means the id is absent or names no specialist |
| `App.OnlyTriageIsTriage` | App.tsx:159 | among the known agents, the triage flag singles out the triage guide |
| `App.ReplyOf` | App.tsx:204 | the service resolves exactly when the backend did not throw, and only a reply to the triage guide carries a handoff |
| `App.AttachmentsOf` | App.tsx:185-192 | one attachment per file, in the same order, holding the file's type and encoded data |
| `App.SessionIdInjective` | App.tsx:271 | sessions opened at different counter values get different ids |
| `App.SessionTitle` | App.tsx:272-274 | a title is never longer than 43 characters, and is exactly 43 for a query longer than 40 |
| `App.SessionTitleRule` | App.tsx:272-274 | a long query keeps its first 40 characters plus "...", a short one is kept whole, an empty one becomes "New Conversation", and a title is never empty |
| `App.Preview` | App.tsx:306 | the preview is the greeting's first 50 characters (or all of a shorter one), always followed by "..." |
| `App.Ended` | App.tsx:132-136 | only the sessions with that id are marked inactive with "Session ended"; every other session is unchanged |
| `App.Greeted` | App.tsx:304-308 | only the sessions with that id get the greeting's preview; every other session is unchanged |
| `App.EndedIdempotent` | App.tsx:132-136 | closing the same id a second time changes nothing |
| `App.MapsKeepIds` | App.tsx:132-136 | neither session update changes any session id |
| `App.NotYetIssued` | App.tsx:271 | an id issued before the counter reached n is not the id issued at n |
| `App.SameIdsKeepIssued` | App.tsx:132-136 | a session list with the same ids keeps the distinct-issued-ids invariant |
| `App.InitialInv` | App.tsx:97-115 | the state cells at mount satisfy the invariant every handler keeps |
| `App.BlankSendChangesNothing` | App.tsx:177 | blank text with no files changes no state cell (not the tab, loading flag or messages) and does not reset the idle timer |
| `App.AcceptedSendAppendsTwo` | App.tsx:176-247 | an accepted send keeps the old messages, appends the user's message with its attachments, then exactly one model message; it clears the input, shows the live tab and ends loading |
| `App.AnswerAppendsOne` | App.tsx:206-247 | whatever the service does, exactly one model message is appended after the user's, and loading ends |
| `App.HandedOffPostsNotice` | App.tsx:207-213 | a handoff appends its notice and changes neither the sessions, the counter nor the selected agent |
| `App.HandoffPreparesConnection` | App.tsx:206-224 | a handoff shows the decision's message or "Connecting you to an expert..."; it makes the named specialist pending with the query and raises the overlay exactly when the id names a specialist, and otherwise leaves the pending state alone |
| `App.ReplyResetsTimer` | App.tsx:226-235 | a plain reply is shown with its text and sources and resets the idle timer |
| `App.ErrorApologises` | App.tsx:237-244 | a thrown error shows the fixed apology and does not reset the idle timer |
| `App.SendResetsOnlyOnReply` | App.tsx:226-244 | a send resets the idle timer exactly when it was accepted and a non-handoff reply came back |
| `App.AnsweredKeepsInv` | App.tsx:206-247 | the answer step preserves the invariant |
| `App.SendKeepsInv` | App.tsx:176-248 | `handleSendMessage` preserves the invariant: distinct issued session ids, connecting exactly while a specialist is pending, and a known agent selected |
| `App.ConnectWithoutPendingChangesNothing` | App.tsx:264 | with no pending agent the connection callback changes nothing |
| `App.ConnectOpensSession` | App.tsx:263-317 | it switches to the pending specialist and prepends one live session, current and active, titled after the query; older sessions are untouched and the pending state is cleared; a greeting is appended and previewed on the new session, and without one the session keeps "Connected to name" |
| `App.ConnectKeepsInv` | App.tsx:263-317 | the connection preserves the invariant; in particular the new session's id is distinct from every listed id |
| `App.EndClosesCurrentOnly` | App.tsx:121-148 | ending closes the current session and no other, and forgets it as current; it appends the inactivity notice and falls back to triage; a specialist being left is shown in the disconnect overlay |
| `App.SecondEndOnlyAddsNotice` | App.tsx:121-148 | a second end leaves the sessions as the first left them and appends one more notice |
| `App.EndKeepsInv` | App.tsx:121-148 | ending preserves the invariant |
| `App.AgentFor` | App.tsx:252 | a re-opened session continues with the specialist whose id it carries, or with triage when there is none; either way a known agent |
| `App.SelectKeepsInv` | App.tsx:250-256 | selecting a session preserves the invariant |
| `App.EndAndSelectDisableIdle` | App.tsx:159 | after a session ends or one is re-opened, the idle timer is disabled |
| `App.GreetingEnablesIdle` | App.tsx:159 | after a successful greeting, the idle timer is enabled |
| `App.Orchestrator.constructor` | App.tsx:97-115 | mounting gives the initial state cells, triage selected, and an idle hook with the 3- and 5-minute limits, not yet ticking |
| `App.Orchestrator.Ask` | App.tsx:204 | the service is given the request built from the query, the history and the attachments, and resolves with the reply or nothing when it throws |
| `App.Orchestrator.HandleSendMessage` | App.tsx:176-248 | the new state is the send step of the old one, and the idle timer is reset exactly when the step says so; a request goes out exactly when the guard passes, built from the messages as they were before the user's message |
| `App.Orchestrator.PostUserMessage` | App.tsx:180-202 | the attachment loop builds one attachment per file, in order; the user's message is appended and the input cleared |
| `App.Orchestrator.HandOff` | App.tsx:206-224 | the handoff branch performs the handoff step |
| `App.Orchestrator.Post` | App.tsx:213 | appends one message and changes nothing else |
| `App.Orchestrator.Await` | App.tsx:220-223 | sets the pending specialist, the query and the connecting flag, and ends loading |
| `App.Orchestrator.Respond` | App.tsx:206-247 | performs the answer step, and resets the idle timer only on a plain reply |
| `App.Orchestrator.HandleFaqClick` | App.tsx:258-260 | an FAQ click is a send of the question with no files |
| `App.Orchestrator.HandleConnectionComplete` | App.tsx:263-317 | performs the connection step and resets the idle timer; the greeting request goes out exactly when an agent was pending, with the instruction wrapped around the query and the old messages as history |
| `App.Orchestrator.OpenSession` | App.tsx:266-287 | the specialist takes over and the new session is listed first, with the counter's next id |
| `App.Orchestrator.TakeOver` | App.tsx:266-267 | the overlay flag drops and the specialist is selected |
| `App.Orchestrator.ListSession` | App.tsx:285-287 | the session is prepended and becomes current and active; the counter moves on |
| `App.Orchestrator.FinishConnection` | App.tsx:291-316 | the greeting is shown and the handoff settled, and the idle timer is reset |
| `App.Orchestrator.ShowGreeting` | App.tsx:295-308 | a greeting is appended and previewed on its session; without one nothing changes |
| `App.Orchestrator.Settle` | App.tsx:311-314 | loading ends and nothing is pending any more |
| `App.Orchestrator.HandleSessionEnd` | App.tsx:121-148 | performs the end step and keeps the invariant |
| `App.Orchestrator.ShowDisconnect` | App.tsx:125-128 | leaving a specialist records them and shows the disconnect overlay; leaving triage does nothing |
| `App.Orchestrator.CloseCurrent` | App.tsx:131-138 | a current session is closed and forgotten; with none, nothing changes |
| `App.Orchestrator.HandleEndSession` | App.tsx:320-323 | dismisses the warning (a full idle reset), then ends the session |
| `App.Orchestrator.HandleSelectSession` | App.tsx:250-256 | performs the select step: the session becomes active, its agent is selected, messages are emptied, the live tab is shown |
| `App.Orchestrator.DismissDisconnect` | App.tsx:413-416 | hides the disconnect overlay and forgets the agent |
| `App.Orchestrator.AfterRender` | App.tsx:156-161 | the idle effect runs again exactly when its enabled flag or its session-end callback's inputs changed since it last ran |
| `App.Orchestrator.IdleTick` | App.tsx:160 | one interval tick of the idle hook; when it times out, the session is ended |
| `GeminiService.SliceFrom` | services/geminiService.ts:83 | `slice(start)` is a suffix of the list, of the length JavaScript's rule for negative and positive starts gives |
| `GeminiService.ToContents` | services/geminiService.ts:83-86 | one content per message, in order |
| `GeminiService.RecentHistory` | services/geminiService.ts:83-86 | the last min(6, length) messages, oldest first, each as a one-text-part turn with its role |
| `GeminiService.BuildContents` | services/geminiService.ts:88-106 | the request is the recent history, then one user turn: the attachments in order, the query, and, for a specialist only, the search reminder |
| `GeminiService.RequestLengthBounded` | services/geminiService.ts:83-106 | a request holds at most seven turns, exactly seven once the history has six, and the turn before the user's is the last message of the history |
| `GeminiService.TriageReply` | services/geminiService.ts:119-132 | a missing or empty text decodes as `{}` with text "Processing..."; unparseable JSON gives the rephrase request; otherwise the decoded decision; the text is the decision's message when it has one and "Processing..." when that message is missing or empty; there are no sources and there is always a decision |
| `GeminiService.ExtractSources` | services/geminiService.ts:158-166 | a source is listed exactly when some chunk carries it as its web reference |
| `GeminiService.ExtractSourcesOfConcat` | services/geminiService.ts:158-166 | extraction goes chunk by chunk in order: the sources of two runs of chunks are the first run's followed by the second's |
| `GeminiService.IndexOfUri` | services/geminiService.ts:168 | the Map lookup finds an entry with that URI, or reports that the URI is absent |
| `GeminiService.MapSet` | services/geminiService.ts:168 | `set` overwrites a present key in place and appends a new one; keys stay distinct |
| `GeminiService.UniqueByUri` | services/geminiService.ts:168 | the de-duplicated sources have pairwise-distinct URIs, exactly the input's URI set, and are no more numerous |
| `GeminiService.UniqueByUriKeepsFirstOrder` | services/geminiService.ts:168 | entries appear in the order in which their URIs first appear |
| `GeminiService.UniqueByUriHoldsLastValue` | services/geminiService.ts:168 | each entry is the last source with its URI |
| `GeminiService.SpecialistReply` | services/geminiService.ts:156-170 | the specialist reply carries the text (or "" without one), no decision, and distinct sources with exactly the URIs of the web-bearing chunks, listed in the order each URI first appears and each holding the last source seen with that URI |
| `GeminiService.SendMessage` | services/geminiService.ts:76-190 | builds the request, then: a reply for triage is the decoded decision, for anyone else the specialist reply, and only triage gets a decision; a thrown error fails the call, and is classified as a rate limit exactly when the key is free and the error looks like one, with the details `parseRateLimitError` gives (limit type, retry seconds, reset time, message), else rethrown unchanged |
| `RateLimitClassifier.FreeKeyIsCaseInsensitiveFree` | services/geminiService.ts:70-74 | the gate accepts "free" in any mix of upper and lower case, and nothing else |
| `RateLimitClassifier.MentionsAnyIffOccurs` | services/geminiService.ts:199-206 | a text mentions one of the keywords exactly when one occurs at some index |
| `RateLimitClassifier.RateLimitIffKeywordOccurs` | services/geminiService.ts:192-207 | a rate limit is recognised exactly when the status is 429, or the lower-cased message contains one of its four keywords, or the lower-cased serialized error contains "quota" or "rate limit" |
| `RateLimitClassifier.LimitTypePriority` | services/geminiService.ts:216-229 | "minute" or "rpm" gives RPM; otherwise "tpm" or "token" gives TPM; otherwise "day", "daily" or "rpd" gives RPD; otherwise UNKNOWN, with none of the keywords present |
| `RateLimitClassifier.RateLimitPerMinuteMessage` | services/geminiService.ts:192-219 | a message naming a rate limit and a minute is a rate limit of type RPM |
| `RateLimitClassifier.NextUtcMidnight` | services/geminiService.ts:226-227 | the next UTC midnight is a multiple of a day, after now and at most one day later |
| `RateLimitClassifier.SecondsUntilUtcMidnight` | services/geminiService.ts:228 | the whole seconds to the next UTC midnight lie in 0..86400 and are the floor of the remaining time |
| `RateLimitClassifier.KeywordWindow` | services/geminiService.ts:216-229 | a recognised limit type always gives a retry window, a whole number of seconds of at most one day; an unrecognised one gives none |
| `RateLimitClassifier.ParsedFromDetermines` | services/geminiService.ts:209-260 | the details promised for one error at one clock reading are unique, so every classified failure carries exactly what `parseRateLimitError` returns |
| `RateLimitClassifier.ParseRateLimitError` | services/geminiService.ts:209-260 | the limit type follows the keyword priority on the lower-cased message; a retry-after header overrides the keyword window; a reset time exists exactly when the seconds are a non-zero number, and lies that many seconds after now; the message is the fixed prefix plus the type's sentence |
| `RateLimitClassifier.PerMinuteResetsInOneMinute` | services/geminiService.ts:217-222 | without a header, RPM and TPM windows are 60 s, so the reset is one minute away |
| `RateLimitClassifier.DailyResetNearMidnight` | services/geminiService.ts:223-239 | without a header, the daily reset falls within the last second before the next UTC midnight; its window is 0, so there is no reset time, exactly when less than a second is left |
| `RateLimitClassifier.RetryAfterOverrides` | services/geminiService.ts:232-234 | a delay-seconds header of n overrides any keyword window: the details say retry after n seconds, with the reset n seconds after now, and no reset time for 0 |
| `RateLimitClassifier.ClassifyFailure` | services/geminiService.ts:172-189 | a failure is classified exactly when the key is free and the error looks like a rate limit, and then carries the details `parseRateLimitError` promises: limit type, retry seconds with the header override, reset time and friendly message; otherwise the original error is rethrown |
| `IdleTimeout.TickState` | hooks/useIdleTimeout.ts:51-72 | a cleared interval does nothing; otherwise the warning fires exactly when the warning time is reached and it has not been shown yet, and the timeout fires exactly when the timeout is reached, stopping the interval and hiding the warning; the remaining time is the timeout less the elapsed time, floored at 0; a warning that is not followed by the timeout shows the warning; short of the timeout, the timed-out flag and the interval are left as they were; a tick that raises neither event changes only the remaining time |
| `IdleTimeout.OperationsKeepConsistent` | hooks/useIdleTimeout.ts:26-84 | every operation keeps the hook consistent: timed out means stopped with no warning, and a shown warning is recorded |
| `IdleTimeout.ActivityGuardedDismissNot` | hooks/useIdleTimeout.ts:34-38 | activity is ignored while timed out and is a full reset otherwise, while dismissing always resets |
| `IdleTimeout.WarningAtMostOnce` | hooks/useIdleTimeout.ts:57-61 | over any run of ticks without a reset, the warning fires at most once, and never once it has been shown |
| `IdleTimeout.TimeoutAtMostOnce` | hooks/useIdleTimeout.ts:64-71 | over any run of ticks, the timeout fires at most once per start of the interval, and never while it is cleared |
| `IdleTimeout.StoppedIsSilent` | hooks/useIdleTimeout.ts:68-70 | ticks of a cleared interval change nothing and fire nothing |
| `IdleTimeout.DisableNeverTimesOut` | hooks/useIdleTimeout.ts:41-46 | disabling stops the interval without ever calling the warning or timeout callbacks |
| `IdleTimeout.EnableStartsFresh` | hooks/useIdleTimeout.ts:48-51 | enabling resets first: a tick before the warning time raises nothing, and one at the timeout times out |
| `IdleTimeout.IdleSupervisor.constructor` | hooks/useIdleTimeout.ts:18-24 | the hook mounts with no warning, not timed out, the full time remaining and no interval |
| `IdleTimeout.IdleSupervisor.ResetTimer` | hooks/useIdleTimeout.ts:26-32 | the last activity is now; the warning flags and timeout are cleared; the full timeout remains |
| `IdleTimeout.IdleSupervisor.HandleActivity` | hooks/useIdleTimeout.ts:34-38 | resets unless timed out |
| `IdleTimeout.IdleSupervisor.DismissWarning` | hooks/useIdleTimeout.ts:81-84 | hides the warning, then resets unconditionally |
| `IdleTimeout.IdleSupervisor.Effect` | hooks/useIdleTimeout.ts:40-79 | disabled clears the interval; enabled resets and starts it |
| `IdleTimeout.IdleSupervisor.Tick` | hooks/useIdleTimeout.ts:51-72 | one interval run performs the tick step and reports the callbacks it called |
| `IdleTimeout.FormatTimeRemainingReadsBack` | hooks/useIdleTimeout.ts:92-97 | the text is minutes, a colon and exactly two digits of seconds below 60, which together give the remaining time rounded up to the second |
| `IdleTimeout.FormatExamples` | hooks/useIdleTimeout.ts:92-97 | the full five minutes renders as "5:00" and one millisecond as "0:01" |
| `ConnectingOverlay.PhaseAtMonotone` | components/ConnectingOverlay.tsx:31-33 | the phase never goes back as time passes |
| `ConnectingOverlay.Earliest` | components/ConnectingOverlay.tsx:31-39 | the timer that fires next is due no later than any other, and is the first set among those due at the same time |
| `ConnectingOverlay.Cancel` | components/ConnectingOverlay.tsx:41 | clearing timers keeps only queued timers whose ids were not cleared |
| `ConnectingOverlay.CancelKeepsUncleared` | components/ConnectingOverlay.tsx:41 | every queued timer whose id was not cleared stays, so with `Cancel` the queue keeps exactly the timers whose ids were not cleared |
| `ConnectingOverlay.CancelEverything` | components/ConnectingOverlay.tsx:41 | clearing every queued id empties the queue |
| `ConnectingOverlay.CancelNone` | components/ConnectingOverlay.tsx:41 | clearing ids no queued timer has changes nothing |
| `ConnectingOverlay.CancelOneMore` | components/ConnectingOverlay.tsx:41 | clearing the ids one after another is clearing them all at once |
| `ConnectingOverlay.FireLighter` | components/ConnectingOverlay.tsx:34-39 | firing a timer lowers the queue's weight, so letting time run always ends |
| `ConnectingOverlay.StartFromQuiet` | components/ConnectingOverlay.tsx:28-41 | started from an idle overlay, the effect queues exactly the four tracked timers at 1200, 2400, 3600 and 4200 ms |
| `ConnectingOverlay.ScheduleFollowsPhaseAt` | components/ConnectingOverlay.tsx:28-39 | elapsed ms after the start, the phase is analyzing below 1200, found below 2400, connecting below 3600, then connected; the exit has begun from 4200 ms; the completion callback has been called once from 4600 ms, and never before |
| `ConnectingOverlay.AbortBeforeExitNeverCompletes` | components/ConnectingOverlay.tsx:21-41 | hiding the overlay before 4200 ms cancels everything: the completion callback is never called afterwards |
| `ConnectingOverlay.AbortDuringExitStillCompletes` | components/ConnectingOverlay.tsx:34-41 | hiding it between 4200 and 4600 ms leaves the untracked 400 ms timer, so the completion callback is still called once |
| `ConnectingOverlay.CancelAllTracked` | components/ConnectingOverlay.tsx:29-41 | clearing the four tracked ids empties any remaining part of the schedule |
| `ConnectingOverlay.HideDuringExit` | components/ConnectingOverlay.tsx:36-41 | a cleanup during the exit leaves the completion timer, which fires once |
| `ConnectingOverlay.ExactlyOneCurrentDot` | components/ConnectingOverlay.tsx:124-133 | exactly one dot is current; every dot before it is done and every dot after it is waiting |
| `ConnectingOverlay.DoneDotsStayDone` | components/ConnectingOverlay.tsx:124-133 | a dot that is done stays done as time passes |
| `ConnectingOverlay.Overlay.constructor` | components/ConnectingOverlay.tsx:18-19 | the overlay mounts analyzing, not exiting, with no timers |
| `ConnectingOverlay.Overlay.Cleanup` | components/ConnectingOverlay.tsx:41 | the cleanup loop clears every tracked timer and nothing else |
| `ConnectingOverlay.Overlay.SetTimeout` | components/ConnectingOverlay.tsx:31-39 | queues one timer with a fresh id and changes nothing else |
| `ConnectingOverlay.Overlay.Effect` | components/ConnectingOverlay.tsx:21-42 | an effect run performs the previous run's cleanup, then either resets (not visible or no agent) or queues the four tracked timers |
| `ConnectingOverlay.Overlay.Fire` | components/ConnectingOverlay.tsx:31-39 | the earliest timer fires: a phase change, the exit (which queues the untracked completion timer), or the completion callback |
| `RateLimitNotification.DivModUnique` | components/RateLimitNotification.tsx:25-27 | a quotient and remainder below the divisor are the floor division's |
| `RateLimitNotification.Decompose` | components/RateLimitNotification.tsx:25-27 | minutes and seconds are below 60, and hours, minutes and seconds add up to the remaining time less under one second |
| `RateLimitNotification.BreakdownSecondsFloor` | components/RateLimitNotification.tsx:25-27 | the breakdown's total in seconds is the floor of the remaining time in seconds |
| `RateLimitNotification.DecomposeUnique` | components/RateLimitNotification.tsx:25-27 | only one breakdown fits a remaining time |
| `RateLimitNotification.CountdownText` | components/RateLimitNotification.tsx:15-36 | the text is "Ready to resume" exactly when nothing is left, and otherwise ends with a seconds figure |
| `RateLimitNotification.ReadsSegment` | components/RateLimitNotification.tsx:29-35 | a piece of digits and a unit letter reads back as itself |
| `RateLimitNotification.ReadsThree` | components/RateLimitNotification.tsx:30 | an "Hh Mm Ss" text reads back as its three pieces |
| `RateLimitNotification.ReadsTwo` | components/RateLimitNotification.tsx:32 | an "Mm Ss" text reads back as its two pieces |
| `RateLimitNotification.CountdownReadsBack` | components/RateLimitNotification.tsx:25-35 | the text reads back as pieces whose total is the whole seconds remaining, with the hours piece present exactly from one hour and the minutes piece exactly from one minute |
| `RateLimitNotification.LeadingZeroOnlyForZero` | components/RateLimitNotification.tsx:30-34 | a rendered number starts with 0 only when it is zero |
| `RateLimitNotification.CountdownLeadsWithNonZero` | components/RateLimitNotification.tsx:29-35 | the countdown's leading figure is 0 only in the last second, and 1 to 999 ms shows exactly "0s" |
| `RateLimitNotification.CountdownNeverIncreases` | components/RateLimitNotification.tsx:15-39 | as time passes, the countdown never shows more time left |
| `RateLimitNotification.ReadyStaysReady` | components/RateLimitNotification.tsx:20-23 | once the countdown reads "Ready to resume", it reads so at every later instant |
| `RateLimitNotification.LabelsTellLimitsApart` | components/RateLimitNotification.tsx:61-68 | each limit type has its own title |
| `RateLimitNotification.Render` | components/RateLimitNotification.tsx:44-116 | nothing renders unless limited; the title is the type's label; the countdown badge appears exactly with a reset time; the message falls back to the fixed sentence when empty; the upgrade offer appears only for the daily limit, and the wait tip only for the per-minute ones |
| `RateLimitNotification.Refreshed` | components/RateLimitNotification.tsx:12-23 | without a reset time the text is left as it was; with one it reads "Ready to resume" exactly from the reset time on |
| `RateLimitNotification.Countdown.constructor` | components/RateLimitNotification.tsx:10-38 | mounting starts from the empty text and refreshes once straight away |
| `RateLimitNotification.Countdown.Refresh` | components/RateLimitNotification.tsx:15-36 | one run of the countdown update performs the refresh step |
| `SessionList.Filtered` | components/SessionList.tsx:19-21 | a tab lists exactly the sessions whose active flag matches it |
| `SessionList.FilteredOfConcat` | components/SessionList.tsx:19-21 | filtering keeps the input order: filtering two lists joined is joining their filtered lists |
| `SessionList.TabsPartitionSessions` | components/SessionList.tsx:19-21 | together the two tabs hold every session exactly as often as the input does |
| `SessionList.TabsAreDisjoint` | components/SessionList.tsx:19-21 | no session is listed under both tabs |
| `SessionList.ActiveCountBounds` | components/SessionList.tsx:34 | the Active badge equals the number of sessions exactly when all are live, and is zero exactly when none is |
| `SessionList.ActiveCountUnfolds` | components/SessionList.tsx:34 | the badge counts the first session once when live, plus the rest |
| `SessionList.FindAgent` | components/SessionList.tsx:16 | `find` returns the first agent with the id, or none when no agent has it |
| `SessionList.AgentAvatar` | components/SessionList.tsx:15-17 | the avatar is non-empty: a matching agent's picture or the fallback picture |
| `SessionList.FirstMatchDecidesAvatar` | components/SessionList.tsx:15-17 | the first agent with the id decides the avatar when its picture is set |
| `SessionList.UnknownAgentGetsFallback` | components/SessionList.tsx:15-17 | with no agent of that id, the fallback picture is shown |
| `SessionList.LabelMatchesTab` | components/SessionList.tsx:19-21 | every session under the active tab reads "Live Now", and every one under history reads "Ended" |
| `ResponseCard.HasContent` | components/ResponseCard.tsx:66 | there is something to send exactly when the text is not all whitespace or a file is selected; the conversation's send handler uses the same guard (App.tsx:177) |
| `ResponseCard.IsSendReady` | components/ResponseCard.tsx:73 | the button is enabled exactly when there is content, nothing is loading and no rate limit holds |
| `ResponseCard.WithoutIndex` | components/ResponseCard.tsx:60-63 | removing a valid index drops that element and keeps the others in order; any other index changes nothing |
| `ResponseCard.WithoutIndexLosesOne` | components/ResponseCard.tsx:60-63 | removing a position loses exactly the element there |
| `ResponseCard.RemovalKeepsPairs` | components/ResponseCard.tsx:60-63 | removing the same index from files and previews keeps every file paired with its own preview |
| `ResponseCard.Selected` | components/ResponseCard.tsx:44-58 | a selection is appended after the files already chosen, in order, and its previews after the old previews |
| `ResponseCard.Removed` | components/ResponseCard.tsx:60-63 | removal keeps files and previews aligned and drops one file exactly for a valid index |
| `ResponseCard.Sent` | components/ResponseCard.tsx:65-71 | with content, the text and files go out and the selection is cleared; without content nothing is sent and nothing changes |
| `ResponseCard.ReadyButtonSends` | components/ResponseCard.tsx:65-73 | whenever the button is enabled, pressing it sends |
| `ResponseCard.BlankWithoutFilesNeverSends` | components/ResponseCard.tsx:65-73 | whitespace without files is never sent and never enables the button |
| `ResponseCard.KeyPressed` | components/ResponseCard.tsx:37-42 | only Enter without Shift can send, and then exactly as the send button does; a key press that sends nothing changes nothing; Enter without Shift with content always sends |
| `ResponseCard.Placeholder` | components/ResponseCard.tsx:264-270 | the wait notice when limited, the triage prompt for triage, otherwise "Ask name about topic...", where topic is the description up to its first comma |
| `ResponseCard.Composer.constructor` | components/ResponseCard.tsx:28-29 | the composer starts with no files and no previews |
| `ResponseCard.Composer.SelectFiles` | components/ResponseCard.tsx:44-58 | performs the selection step |
| `ResponseCard.Composer.RemoveFile` | components/ResponseCard.tsx:60-63 | performs the removal step on both lists |
| `ResponseCard.Composer.HandleSend` | components/ResponseCard.tsx:65-71 | performs the send step and returns what was sent |
| `ResponseCard.Composer.KeyDown` | components/ResponseCard.tsx:37-42 | performs the key step |

## Left out

- The backend client calls (services/geminiService.ts:110-117, 147-154) and `JSON.parse`. They are foreign code. Their results are the input `GeminiService.CallOutcome`, and a parsed decision is an optional value. A JSON text that parses to something other than a decision object is not modelled.
- The persona and system-instruction prompts (services/geminiService.ts:136-139). They are opaque text that does not affect the request's turns.
- `Date.now()` and `new Date()`: every timestamp is the `now` parameter.
- Session ids (App.tsx:271): `sess-<Date.now()>` is replaced by `sess-<counter>`, with a counter kept in the state. Two connections in the same millisecond would collide in the original; the counter rules that out.
- Reading files as base64 (App.tsx:163-174, components/ResponseCard.tsx:49-56). This is browser I/O. Files arrive already encoded, and previews arrive as given strings. A reader that fails, or previews that arrive out of order, are not modelled.
- React's batching of state updates and its asynchronous interleaving. Each handler is one sequential step, so a user action during a pending request is not modelled. Neither is the stale `messages` closure a handler sees.
- Effect scheduling: the idle hook's effect re-runs only when `App.Orchestrator.AfterRender` is called. The overlay's `Effect` and `Fire` are not wired to the orchestrator's `HandleConnectionComplete`; the two are connected by the caller (App.tsx:395-399).
- The rate-limit details that `sendMessage` attaches to its error. App.tsx's catch (App.tsx:237-244) does not read them, so the orchestrator ends every failure in the apology. `App.Orchestrator.Ask` therefore drops the failure.
- How the notification is shown. `ResponseCard` is rendered without a rate-limit state (App.tsx:331-338), so `RateLimitNotification` and the limited flag of `ResponseCard.IsSendReady` and `ResponseCard.Placeholder` take that state as an input. The model does not capture that reading a field of the missing state would fail at run time.
- `hooks/useChatSounds.ts` and the sound calls in App.tsx: Web Audio with floating-point frequencies.
- `components/DisconnectOverlay.tsx`: an auto-dismiss timer that only hides itself. Its dismiss callback is modelled as `App.Orchestrator.DismissDisconnect`.
- Pure rendering components: Header, Sidebar, AgentSelector, HistoryBar, FAQGrid, KPIGrid, ContextPanel and IdleWarningModal.
- Display-only parts:
  - the header tab changes;
  - markdown and the code-fence regex of components/ResponseCard.tsx:162-187;
  - Tailwind styling, including `getIconAndColor` (components/RateLimitNotification.tsx:46-57);
  - the upgrade link's URL.
- The warning callback `onWarning`. App passes none, so a tick only reports that the warning fired.
- `JsRuntime.ToLower` lowers ASCII letters only. JavaScript's full Unicode case mapping is not modelled.
- Strings are sequences of Unicode scalar values. JavaScript's UTF-16 code units, which `substring` and `length` count, are not modelled, so lengths differ for characters outside the Basic Multilingual Plane.
- `JsRuntime.ParseInt` handles the header forms that matter here: leading whitespace, an optional sign, then digits. The HTTP-date form of the header parses to NaN, as in JavaScript, and is then ignored like an absent window. The digits are read into an unbounded integer: a JavaScript number is a double, which rounds values above 2^53, and the model does not round.
- `RateLimitClassifier.ParseRateLimitError` computes the reset time `now + seconds * 1000` on unbounded integers. A JavaScript `Date` holds at most 8.64e15 ms either side of the epoch, so a header such as "9000000000000" gives an Invalid Date in the original (services/geminiService.ts:237-238) and an ordinary reset time in the model. The same holds for `ClassifyFailure` and `GeminiService.SendMessage`, which pass these details on.
- Real timers: the idle interval is a call of `Tick` per second, the overlay's timers are a queue fired in due order, and the countdown's interval is a call of `Refresh`.
- The shipped roster and the greeting wording are constructor parameters of `App.Orchestrator`. Their shipped values are `App.ShippedRoster`, `App.GreetingOpening` and `App.GreetingClosing`.
