# Asterisk Prometheus exporter: the event-to-metric engine in Dafny

The exporter logs in to the Asterisk Manager Interface (AMI) and listens to its
events. On every scrape it runs the configured actions and turns matching
events into Prometheus counters and gauges. This project models the engine
behind that and proves what it promises:

- **Metric values** (`MetricValues`). `$key` references are resolved against
  an event. Text is converted to a number, and 0 is used where Python's
  `float()` rejects the text. A counter adds to one series per label tuple. A
  gauge buffers its values and uses a scrape-in-progress flag to decide when
  they reach the exposed series. Each metric is a class over a value-level
  state, and each method is proved against a transition function of that
  state.
- **Event filters and the listener** (`EventFilters`, `EventListeners`). A
  filter matches on the event name, then on the ActionID once it is armed
  with an action id. It hands the event to its metrics in order until one
  raises. The listener keeps an ordered list of filters and the time of the
  last event. It hands every event to its filters in order; when one raises,
  the rest are skipped and the exception is swallowed.
- **The client wrapper** (`ClientWrappers`). It covers the login-validation
  callbacks and their flags, the polling wait of `login`, and the two health
  checks. It also covers what `logoff` and `disconnect` reset, and the
  forwarding of filter lists to the listener.
- **Action execution** (`Actions`). `exec` arms and attaches the action's
  filters, sends the action, and waits for the terminal event if the send
  succeeded. Then it runs the scrape end of each filter in order and, unless
  one raises, detaches them again.
- **Configuration builders** (`Config`). The `_load_*` functions and the
  `load` methods of the configuration singletons are modelled here.
- **Supporting modules.**
  - `Ami`: the values the AMI library hands over, and the clock.
  - `NumberText`: `float()` on decimal text and `str()` of an int.
  - `Sequences`: list.remove, str.split/str.join, and a `for` loop that stops
    at the first raise.

Python exceptions are modelled as `raised: bool` results, or as `None` where a
value is built. Time is counted in ticks of the 0.02 s polling interval
(`Ami.TicksPerSecond` is 50). What the AMI answers is passed in as a
parameter: the response to an action, and one batch of events per poll tick.

The model follows the code in these places, where a reader of the comments
might expect otherwise:

- the gauge's `on_scrape_end` never clears the scrape flag;
- a filter's `on_scrape_end` keeps its action id;
- an armed filter reads `event.keys["ActionID"]` directly, so an event without
  that key raises;
- an `event` text without `|` stays a string, so the name test is a substring
  test;
- `logoff` leaves the login flag alone and writes another attribute instead.

## Model

| member | source | states |
|---|---|---|
| Ami.Ticks | src/action.py:81-87 | a timeout of a non-negative number of seconds is a non-negative number of 0.02 s polls |
| Sequences.RemoveFirst | src/event_listener.py:24-27 | list.remove fails exactly when the element is absent |
| Sequences.RemoveFirstCount | src/event_listener.py:24-27 | list.remove drops exactly one occurrence and keeps every other element |
| Sequences.RemoveFirstSplits | src/event_listener.py:24-27 | only the first occurrence goes; what precedes it and what follows it stay, in order |
| Sequences.RemoveFirstAt | src/event_listener.py:24-27 | list.remove cuts the list at the index of the first occurrence |
| Sequences.RemoveAppended | src/event_listener.py:24-27 | removing the element just appended gives back the list as it was |
| Sequences.RemoveEachSnoc | src/client_wrapper.py:145-146 | removing one more filter after a list of them removes it from what the list left, and fails when the list failed |
| Sequences.RemoveEachAppended | src/client_wrapper.py:142-146 | removing, in order, distinct filters that were appended after a list gives that list back |
| Sequences.JoinSplit | src/config.py:76-77 | joining the parts of `str.split(sep)` with sep gives back the text |
| Sequences.SplitParts | src/config.py:76-77 | no part of a split contains the separator, and there is one more part than there are separators |
| Sequences.FirstRaiseFacts | src/event_filter.py:46-47 | every element before the first raise completes normally, and the element at it raises |
| Sequences.StepAllFacts | src/event_filter.py:46-47 | a loop that stops at an exception raises exactly when some element raises; elements up to and including that one took their step, and the rest are untouched |
| Sequences.StepAllPointwise | src/event_filter.py:46-47 | a list that took those steps one element at a time, stopping at k, is the loop's result, and k is the first raise |
| NumberText.ScanFromAppend | src/metric_values.py:87-94 | reading text in two pieces reads the same as reading it whole |
| NumberText.ParseFloatOfIntToString | src/metric_values.py:87-94 | `float()` reads back the text `str()` gives an int as that number |
| NumberText.ReferenceIsNotNumber | src/metric_values.py:87-94 | text starting with `$` is never a number, so an unresolved reference converts to 0 |
| NumberText.IntToStringInjective | src/action.py:53-57 | different ints render as different text |
| MetricValues.EvalLiteral | src/metric_values.py:45-57 | empty text, and text not starting with `$`, evaluate to themselves |
| MetricValues.EvalReference | src/metric_values.py:48-55 | `$key` evaluates to the event's attribute when the key is present, and to the unchanged `$key` text when it is absent |
| MetricValues.UnresolvedReferenceIsZero | src/metric_values.py:87-94 | a reference to an attribute the event lacks contributes 0 |
| MetricValues.ConvertIntegerText | src/metric_values.py:87-94 | an integer attribute as AMI renders it converts to its value |
| MetricValues.EvalLabels | src/metric_values.py:59-71 | the label dict has exactly the configured label names as keys, each mapped to its evaluated expression |
| MetricValues.KeyOf | src/metric_values.py:213-214 | the series tuple has one entry per label name, in configured order, each the evaluated expression of that label |
| MetricValues.TupleOfEvaluatedLabels | src/metric_values.py:213-214 | the tuple built from the evaluated label dict is the series key of the event |
| MetricValues.CounterProcessChangesOneSeries | src/metric_values.py:103-120 | process_event raises exactly on an uninitialised counter and then changes nothing; otherwise only the event's series changes, growing by the converted increment from 0 or from its old value |
| MetricValues.CounterRunSums | src/metric_values.py:107-116 | over a sequence of events, an unlabelled counter grows by exactly the sum of their increments |
| MetricValues.CounterInvPreserved | src/metric_values.py:96-120 | init and process_event keep the invariant that series exist only on an initialised counter |
| MetricValues.SetBeforeIncrement | src/metric_values.py:205-224 | a set value replaces the old value before the increment is added; with neither configured, the value stays |
| MetricValues.GaugeProcessChangesOneSeries | src/metric_values.py:199-227 | process_event buffers the event's series (an unseen tuple starts at 0) and leaves every other one unchanged; it raises exactly when the gauge is uninitialised and no scrape is in progress; during a scrape, or when it raises, the exposed series stay unchanged |
| MetricValues.GaugeProcessPushesWhenIdle | src/metric_values.py:226-227 | outside a scrape, an initialised gauge exposes its whole buffer after every event |
| MetricValues.GaugeScrapeStartResets | src/metric_values.py:153-192 | on an uninitialised gauge on_scrape_start does nothing; otherwise it raises the flag, keeps the exposed series and the set of buffered tuples, and resets every buffered value to value_on_scrape_start when that is configured |
| MetricValues.GaugeScrapeEndCommits | src/metric_values.py:166-197 | on_scrape_end raises exactly on an uninitialised gauge; otherwise the exposed series equal the buffer, and the buffer and the flag do not change |
| MetricValues.GaugeScrapeEndIdempotent | src/metric_values.py:194-197 | a second on_scrape_end right after the first changes nothing |
| MetricValues.GaugeInvPreserved | src/metric_values.py:178-227 | every operation keeps the invariant: a gauge scrapes only once it exists, and exposes only series it has buffered |
| MetricValues.MetricStepsKeepShape | src/metric_values.py:17-37 | every metric operation keeps the kind, the configuration, the invariant and whether the metric exists |
| MetricValues.MetricScrapeEndCommits | src/metric_values.py:27-30 | on_scrape_end raises exactly on an uninitialised gauge, and otherwise leaves the metric exposing what it buffered |
| MetricValues.ResetAll | src/metric_values.py:163-164 | every existing series is set to the start value, and none is created |
| MetricValues.SetAll | src/metric_values.py:175-176 | every buffered series is written to the gauge, and other exposed series stay |
| MetricValues.MetricValueCounter.constructor | src/metric_values.py:77-85 | a new counter is not initialised and has no series |
| MetricValues.MetricValueCounter.Init | src/metric_values.py:96-101 | init creates the counter; a second creation raises |
| MetricValues.MetricValueCounter.ProcessEvent | src/metric_values.py:103-120 | the new state and the exception are those of the counter transition (see CounterProcessChangesOneSeries) |
| MetricValues.MetricValueCounter.Inc | src/metric_values.py:111-120 | `inc` on a child adds the amount to that series alone, from 0 for a new child |
| MetricValues.MetricValueGauge.constructor | src/metric_values.py:126-142 | a new gauge is uninitialised, not scraping, with an empty buffer, value 0 and nothing exposed |
| MetricValues.MetricValueGauge.Init | src/metric_values.py:178-183 | init creates the gauge; a second creation raises |
| MetricValues.MetricValueGauge.SetOnScrapeStartValue | src/metric_values.py:153-164 | the buffer is reset as ResetValues states |
| MetricValues.MetricValueGauge.UpdateGauge | src/metric_values.py:166-176 | the buffer is pushed to the exposed series; the call raises when the gauge is uninitialised |
| MetricValues.MetricValueGauge.OnScrapeStart | src/metric_values.py:185-192 | the new state is GaugeScrapeStart of the old one (see GaugeScrapeStartResets) |
| MetricValues.MetricValueGauge.OnScrapeEnd | src/metric_values.py:194-197 | the new state and the exception are PushBuffer of the old state (see GaugeScrapeEndCommits) |
| MetricValues.MetricValueGauge.Next | src/metric_values.py:206-211 | a series' next value is NextValue: set first, then increment (see SetBeforeIncrement) |
| MetricValues.MetricValueGauge.ApplyEvent | src/metric_values.py:205-224 | the buffer update of one event, as GaugeApply states |
| MetricValues.MetricValueGauge.ProcessEvent | src/metric_values.py:199-227 | the new state and the exception are those of the gauge transition (see GaugeProcessChangesOneSeries) |
| MetricValues.MetricValue.ProcessEvent | src/metric_values.py:32-37 | process_event of either kind of metric follows its kind's transition |
| MetricValues.MetricValue.OnScrapeStart | src/metric_values.py:22-25 | a counter ignores the scrape start, and a gauge follows its own transition |
| MetricValues.MetricValue.OnScrapeEnd | src/metric_values.py:27-30 | a counter ignores the scrape end, and a gauge commits its buffer |
| EventFilters.IsSubstringAt | src/event_filter.py:34 | `a in b` on strings holds exactly when a occurs at some position of b |
| EventFilters.NameTestMeaning | src/event_filter.py:34 | a list of names matches only a listed name; a raw text matches every piece of itself; an event without a name matches no list, and makes the test on a raw text raise |
| EventFilters.RawNameMatchesPiece | src/event_filter.py:34 | with the raw text "QueueMemberStatus", the event "Queue" matches; with the list ["QueueMemberStatus"] it does not |
| EventFilters.UnmatchedNameIgnored | src/event_filter.py:34-35 | an event whose name is not configured reaches no metric and raises nothing |
| EventFilters.ArmedFilterChecksActionId | src/event_filter.py:37-39 | once armed, a filter raises on a matching event without ActionID, and drops one whose ActionID differs |
| EventFilters.StandingFilterForwards | src/event_filter.py:37-47 | an unarmed filter forwards a name-matching event to its metrics in order, each exactly once, up to the first that raises; the rest are untouched |
| EventFilters.FilterStepKeepsIdentity | src/event_filter.py:31-47 | process_event never changes the names, the action id or the number of metrics, and keeps the invariant and which metrics are uninitialised gauges |
| EventFilters.ProcessKeepsShape | src/event_filter.py:46-47 | handing an event to the metrics keeps each one valid and of the same kind |
| EventFilters.FilterScrapeStartArms | src/event_filter.py:20-24 | on_scrape_start sets the action id and keeps the names, the number of metrics and their invariant |
| EventFilters.FilterScrapeEndCommits | src/event_filter.py:26-29 | on_scrape_end keeps the action id; it raises exactly when some metric is an uninitialised gauge, and otherwise leaves every metric committed |
| EventFilters.EventFilter.constructor | src/event_filter.py:8-15 | a new filter holds the given names and metrics, and has no action id |
| EventFilters.EventFilter.OnScrapeStart | src/event_filter.py:20-24 | the new state is FilterScrapeStart: the id is set, and every metric gets its scrape start in list order |
| EventFilters.EventFilter.OnScrapeEnd | src/event_filter.py:26-29 | the new state and the exception are FilterScrapeEnd (see FilterScrapeEndCommits) |
| EventFilters.EventFilter.ProcessEvent | src/event_filter.py:31-47 | the new state and the exception are FilterStep of the old state |
| EventFilters.EventFilter.Forward | src/event_filter.py:46-47 | the metrics up to the first raise took the event, that one raised, and the others are as they were |
| EventListeners.DispatchKeepsShape | src/event_listener.py:42-50 | dispatching an event keeps every filter's names, action id, invariant and uninitialised gauges |
| EventListeners.DispatchStopsAtRaise | src/event_listener.py:46-50 | the filters after one that raises do not see the event; the filters up to it do |
| EventListeners.DispatchIgnored | src/event_listener.py:46-50 | an event that no filter admits leaves every filter as it was |
| EventListeners.EventListener.constructor | src/event_listener.py:12-17 | a new listener has no filters, and its last-event time is the current time |
| EventListeners.EventListener.AddEventFilter | src/event_listener.py:19-22 | the filter is appended at the end; the others keep their order and their states |
| EventListeners.EventListener.RemoveEventFilter | src/event_listener.py:24-27 | it raises exactly when the filter is absent, and then nothing changes; otherwise the first occurrence is removed |
| EventListeners.EventListener.Reset | src/event_listener.py:38-40 | no filter stays attached, and the time is unchanged |
| EventListeners.EventListener.GetTimeOfLastEvent | src/event_listener.py:29-31 | it returns the stored time |
| EventListeners.EventListener.UpdateTimeOfLastEvent | src/event_listener.py:33-36 | it stores now and leaves the filters untouched |
| EventListeners.EventListener.OnEvent | src/event_listener.py:42-50 | the time becomes now, the filter list stays, and the filters' states become Dispatch of the old ones |
| EventListeners.EventListener.ProcessAll | src/event_listener.py:46-50 | the filters up to the first raise took the event, that one raised, and the rest are as they were |
| EventListeners.EventListener.ProcessAt | src/event_listener.py:47-48 | one filter processes the event, and every other filter stays as it was |
| ClientWrappers.Deregister | src/client_wrapper.py:153-156 | removing a callback that is not registered changes nothing |
| ClientWrappers.DeregisterCount | src/client_wrapper.py:153-156 | removing a registered callback removes exactly one occurrence of it |
| ClientWrappers.DeliverAlongFilters | src/client_wrapper.py:74-76 | the filters see an event once for every registration of the listener callback |
| ClientWrappers.CallbackStepFilters | src/client_wrapper.py:74-76 | only the listener callback touches the filters |
| ClientWrappers.DeliverAlongTime | src/client_wrapper.py:74-76 | the last-event time becomes now exactly when the listener callback is registered |
| ClientWrappers.DeliverAlongFlags | src/client_wrapper.py:33-49 | a login flag is set by exactly the event its callback waits for, while that callback is registered, and is never cleared |
| ClientWrappers.DeliverAlongCallbackList | src/client_wrapper.py:33-49 | while an event is delivered, only a firing login callback changes the callback list, by removing itself |
| ClientWrappers.CallbacksAfterCount | src/client_wrapper.py:33-49 | a callback that fires leaves the list once for every time it was called; every other callback keeps its count |
| ClientWrappers.CallbacksAfterQuiet | src/client_wrapper.py:33-49 | callbacks that never fire leave the callback list as it is |
| ClientWrappers.DeliverEventQuiet | src/client_wrapper.py:33-49 | without login callbacks registered, an event leaves the callback list as it is |
| ClientWrappers.IterateKeepsShape | src/client_wrapper.py:74-76 | dispatching an event any number of times keeps the shape of every filter |
| ClientWrappers.DeliverEventKeepsShape | src/client_wrapper.py:74-76 | an event keeps the shape of every attached filter |
| ClientWrappers.DeliverEventCallbacks | src/client_wrapper.py:33-49 | after an event, a login callback that it fires is gone completely, and every other callback keeps its count |
| ClientWrappers.NamelessEventIgnored | src/client_wrapper.py:33-49 | the login callbacks ignore an event without a name: the callbacks and both flags stay |
| ClientWrappers.PollLoginOutcome | src/client_wrapper.py:93-102 | the login wait returns normally exactly when both flags end up set |
| ClientWrappers.PollLoginTimesOut | src/client_wrapper.py:94-100 | a login wait that raises does so at a poll where a still-false flag has outlived its own timeout |
| ClientWrappers.ActionIdsDistinct | src/client_wrapper.py:158-160 | different counter values give different action ids |
| ClientWrappers.ClientWrapper.constructor | src/client_wrapper.py:10-24 | a new wrapper has no callbacks, both flags false, a new listener, and the given timeouts |
| ClientWrappers.ClientWrapper.ValidateLoginCallback | src/client_wrapper.py:33-40 | on a SuccessfulAuth event the login flag is set and the callback deregisters itself; any other event changes nothing |
| ClientWrappers.ClientWrapper.ValidateFullyBootedCallback | src/client_wrapper.py:42-49 | on a FullyBooted event the booted flag is set and the callback deregisters itself; any other event changes nothing |
| ClientWrappers.ClientWrapper.Call | src/client_wrapper.py:74-76 | calling one registered callback follows CallbackStep |
| ClientWrappers.ClientWrapper.Deliver | src/client_wrapper.py:74-76 | an event is delivered to the callbacks registered when it arrives, in order |
| ClientWrappers.ClientWrapper.DeliverAll | src/client_wrapper.py:74-76 | a batch of events is delivered in order |
| ClientWrappers.ClientWrapper.Login | src/client_wrapper.py:69-102 | the three callbacks are registered; an error or missing login response raises; otherwise the outcome is the login wait |
| ClientWrappers.ClientWrapper.AwaitLogin | src/client_wrapper.py:93-102 | one batch of events per poll until both flags are set, or a flag outlives its timeout |
| ClientWrappers.ClientWrapper.Logoff | src/client_wrapper.py:104-108 | logoff clears the callbacks; the login flag and the booted flag stay, and a separate attribute becomes false |
| ClientWrappers.ClientWrapper.Disconnect | src/client_wrapper.py:110-114 | disconnect clears the callbacks and the login flag; the booted flag stays |
| ClientWrappers.ClientWrapper.CheckEventThreadHealth | src/client_wrapper.py:116-124 | healthy when login is not validated, and otherwise exactly when the event thread is alive |
| ClientWrappers.ClientWrapper.GetNextActionId | src/client_wrapper.py:158-160 | the id is the counter in decimal, and differs from every id handed out before |
| ClientWrappers.ClientWrapper.SetResponseTimeout | src/client_wrapper.py:162-164 | the response timeout becomes the given value, and nothing else changes |
| ClientWrappers.ClientWrapper.SendAction | src/client_wrapper.py:166-168 | the action is appended to what was sent, and the AMI's answer is returned |
| ClientWrappers.ClientWrapper.ValidateAmiConnection | src/client_wrapper.py:51-67 | a Ping with a fresh id is sent; the connection is up exactly when a response arrives, and then the last-event time becomes now |
| ClientWrappers.ClientWrapper.CheckAmiConnectionHealth | src/client_wrapper.py:126-134 | no probe while the last event is within the ping timeout, and the result is then true; otherwise the result is the probe's |
| ClientWrappers.ClientWrapper.AddEventFilter | src/client_wrapper.py:136-140 | the listener's list becomes the old list plus the given filters in order, and no filter's state changes |
| ClientWrappers.ClientWrapper.AddNextFilter | src/client_wrapper.py:139-140 | one turn of the loop appends the next filter |
| ClientWrappers.ClientWrapper.RemoveEventFilter | src/client_wrapper.py:142-146 | each filter is removed in order by list.remove, and the call raises exactly when one of them is missing; when it raises, the filters before the missing one are already removed and the rest stay |
| ClientWrappers.ClientWrapper.AttachEventListener | src/client_wrapper.py:148-151 | the callback is appended to the client's list |
| ClientWrappers.ClientWrapper.DetachEventListener | src/client_wrapper.py:153-156 | the callback is removed if it is registered, and nothing happens otherwise |
| Actions.ActionRequest | src/action.py:53-59 | the action sent carries exactly Priority, Context, CallerID and ActionID: the string forms of the action's fields and the current id |
| Actions.DeliverKeepsExecuter | src/action.py:33-39 | delivering events never removes the executer's callback |
| Actions.CollectBatchMarks | src/action.py:33-39 | with its callback registered, the executer is finished after a batch exactly when it was before, or the batch holds the terminal event |
| Actions.CollectOutcome | src/action.py:74-88 | the wait succeeds exactly when the flag was already set, or the terminal event arrives before the event timeout |
| Actions.CollectBatchKeeps | src/action.py:74-88 | a batch keeps every filter's shape and, without login callbacks, the callback list |
| Actions.CollectKeeps | src/action.py:74-88 | the whole wait keeps every filter's shape and, without login callbacks, the callback list |
| Actions.ArmAt | src/action.py:43-44 | one filter is armed, and the others stay as they were |
| Actions.ArmFilters | src/action.py:41-44 | every filter of the action is armed with the id |
| Actions.EndAllOutcome | src/action.py:90-93 | the scrape-end loop raises exactly when some filter holds an uninitialised gauge; otherwise every filter is committed and keeps its action id |
| Actions.EndAt | src/action.py:92-93 | one filter ends its scrape, and the others stay as they were |
| Actions.EndScrapes | src/action.py:90-93 | the filter objects end up in the states EndAll gives |
| Actions.EndListed | src/action.py:90-95 | the scrape-end loop over the filters at the end of the listener's list leaves the listener valid |
| Actions.ExecOutcome | src/action.py:99-111 | after arming and waiting, the scrape end raises exactly when some filter held an uninitialised gauge before exec; otherwise every filter is committed and carries the new id |
| Actions.ActionExecuter.constructor | src/action.py:25-31 | a new executer is not finished and has an empty id |
| Actions.ActionExecuter.OnEvent | src/action.py:33-39 | finished becomes true exactly on an event with the until name and the current ActionID, and is never cleared |
| Actions.ActionExecuter.ReceiveEvent | src/action.py:33-39 | the client delivers an event to all callbacks, the executer's among them |
| Actions.ActionExecuter.ReceiveBatch | src/action.py:81-87 | one poll delivers a batch of events, as CollectBatch states |
| Actions.ActionExecuter.CollectEvents | src/action.py:74-88 | the result is finished; with its callback registered, the wait succeeds exactly when the flag was already set or the terminal event arrives before the event timeout; the filters keep their shape |
| Actions.ActionExecuter.AttachEventFilter | src/action.py:41-47 | the filters are armed with the id, appended to the listener in order, and the executer's callback is attached; the session becomes `Attached` of the one before, with nothing else changed |
| Actions.ActionExecuter.Join | src/action.py:45-46 | the armed filters join the listener after the standing ones, the callback goes last, and the session becomes `Attached` of the one before |
| Actions.ActionExecuter.Hook | src/action.py:45 | the listener's list grows by the armed filters, and its filter states by their armed states |
| Actions.ListedFilters | src/action.py:45 | a listener holding the standing filters then the armed ones shows the standing states followed by the armed states |
| Actions.ActionExecuter.DetachEventFilter | src/action.py:90-97 | every filter ends its scrape; unless that raises, the filters and the callback are removed and finished is false; when it raises nothing is detached |
| Actions.ActionExecuter.Unregister | src/action.py:95-97 | the listener's list goes back to what preceded the action's filters, the callback goes, and finished becomes false |
| Actions.ActionExecuter.Exec | src/action.py:99-111 | a fresh id is taken and the action is sent with it; the wait happens only when the response succeeded, and the session after it is `AwaitReply` of the attached session; the standing filters keep their states from there, and the action's filters end in `EndAll` of their waited states; exec raises exactly when a filter holds an uninitialised gauge; otherwise finished is false, the listener's filter list is as before, every filter is committed, and the callback list is `Deregister` of the waited one, which is the list before exec when no login callback was registered and the executer's callback was not already there; the login setting is kept; when exec raises, the action's filters stay on the listener after the standing ones; otherwise the listener owns exactly the objects it owned before, so the next action can be attached |
| Actions.ActionExecuter.Finish | src/action.py:108-111 | from the attached session, the waited session is `AwaitReply` of it; the outcome of the scrape end and the final filter states and callbacks are as Exec states; the login setting is kept; on a raise the filter list is unchanged, and otherwise the listener gives up exactly the action's filters' objects |
| Actions.ActionExecuter.Arm | src/action.py:101-107 | the action and a fresh id are recorded, finished is cleared, and the filters are armed and attached; the session becomes `Attached` of the one before; the login setting is kept |
| Actions.ActionExecuter.Conclude | src/action.py:108-111 | the action is sent; the waited session is `AwaitReply` of the one before, so the wait runs only when the response succeeded; the standing filters keep their waited states, the action's filters end in `EndAll` of theirs, and the callback goes unless that raises; the login setting is kept; on a raise the filter list is unchanged, and otherwise the listener gives up exactly the action's filters' objects |
| Actions.ActionExecuter.Begin | src/action.py:101-103 | the action and a fresh id are recorded, and finished is cleared |
| Actions.ActionExecuter.Run | src/action.py:108-110 | the action is sent; when the response did not succeed the session and finished are unchanged, otherwise they are what `Collect` makes of them (`AwaitReply`); the filter list is unchanged; the login setting is kept |
| Actions.ActionExecuter.Await | src/action.py:109-110 | when the response succeeded the session and finished are what `Collect` makes of them, otherwise they are unchanged |
| Actions.ExecWaitOutcome | src/action.py:101-111 | without a successful response the attached session stays as it is; finished becomes true exactly when the response succeeded and the terminal event arrives in time; the filters keep their shape and, without login callbacks, the callbacks stay as attached |
| Actions.DeregisterAppended | src/action.py:96 | removing exec's callback from a list it was appended to restores the list, and the callback is not a login callback |
| Actions.ActionExecuter.SendAction | src/action.py:49-72 | the response timeout is set before the action is sent; success is exactly a response whose status is "Success" |
| Config.SetLabel | src/config.py:19 | dict assignment: the name takes the value, and a new name goes to the end of the key order |
| Config.LoadMetricLabels | src/config.py:12-20 | the labels are the dict built from the entries in order, and empty without "labels" |
| Config.LabelsKeys | src/config.py:17-19 | the label names are exactly the names of the entries |
| Config.LabelsLastWins | src/config.py:18-19 | a name takes the value of its last entry |
| Config.LabelsOrder | src/config.py:18-19 | the label names keep the order in which each first appears |
| Config.LoadedMetricKinds | src/config.py:55-68 | a metric loads exactly for type "counter" or "gauge"; a counter's increment defaults to "1", and the gauge's expressions default to None |
| Config.LoadedMetricReady | src/config.py:23-52 | a loaded metric exists in Prometheus and exposes what it buffered, so its scrape end never raises |
| Config.LoadCounter | src/config.py:23-32 | a new counter with the defaulted settings, already initialised |
| Config.LoadGauge | src/config.py:35-52 | a new gauge with the given settings, already initialised |
| Config.LoadMetric | src/config.py:55-68 | it fails exactly for an unknown type; otherwise it returns a new metric in the state LoadedMetric gives |
| Config.EventNamesSplit | src/config.py:73-77 | text without `|` is kept whole; other text becomes two or more `|`-free parts that join back to it |
| Config.LoadedMetricsFacts | src/config.py:79-81 | a metric list loads exactly when every entry has a known type, and then holds their metrics in list order |
| Config.LoadedFilterReady | src/config.py:71-83 | a loaded filter has no action id, and its metrics all exist, so neither scrape hook raises |
| Config.LoadNextMetric | src/config.py:80-81 | one turn of the loop loads the next metric as a new object |
| Config.LoadMetricList | src/config.py:79-81 | the loop fails exactly when LoadedMetrics does; otherwise the new, distinct metric objects are the entries' metrics in order |
| Config.NewFilter | src/config.py:83 | the new filter has the given names, no action id, and the loaded metrics |
| Config.LoadEventFilter | src/config.py:71-83 | it fails exactly when LoadedFilter does; otherwise it returns a new filter in that state |
| Config.LoadableFiltersAt | src/config.py:183-184 | a list whose first k entries load, and whose entry k fails, loads exactly k filters |
| Config.LoadedFiltersAt | src/config.py:183-184 | filters loaded from the first k entries, stopping at a failing entry k, mean the list loads exactly k |
| Config.LoadNextFilter | src/config.py:184 | one turn of the loop loads the next filter as new objects |
| Config.LoadFilterList | src/config.py:183-184 | the filters before the first failing entry are loaded, in order, as new objects; the loop raises exactly when some entry fails |
| Config.LoadAction | src/config.py:86-115 | it fails exactly when a collected filter fails; otherwise each absent setting comes from the defaults, and the filters are the collected entries in order |
| Config.LoadableActionsAt | src/config.py:196-197 | a list whose first k actions load, and whose action k fails, loads exactly k actions |
| Config.LoadedActionsAt | src/config.py:196-197 | actions loaded from the first k entries, stopping at a failing entry k, mean the list loads exactly k |
| Config.LoadNextAction | src/config.py:197 | one turn of the loop loads the next action with new filters |
| Config.LoadActionList | src/config.py:195-197 | the actions before the first failing one are loaded in order; the loop raises exactly when some action fails |
| Config.LoadedActionFilters | src/config.py:103-105 | the filters of a loaded action all load, and none holds an uninitialised gauge, so exec never raises for them |
| Config.AmiClientConfig.constructor | src/config.py:118-123 | the defaults are "undefined" and port 0 |
| Config.AmiClientConfig.Load | src/config.py:125-130 | every setting is replaced by the configured one |
| Config.LoadGeneralKeeps | src/config.py:141-150 | an empty dict keeps every value; a full one decides every value; loading the same dict twice is loading it once |
| Config.GeneralConfig.constructor | src/config.py:133-139 | the defaults are "INFO", 10, 60, 10 and 120 |
| Config.GeneralConfig.Load | src/config.py:141-150 | each present key replaces its value, and each absent key keeps the current one |
| Config.LoadDefaultsKeeps | src/config.py:162-174 | an empty dict keeps every value; a full one decides every value; loading the same dict twice is loading it once |
| Config.DefaultConfig.constructor | src/config.py:153-160 | the defaults are 10, 5, 10, 1, "default" and "python" |
| Config.DefaultConfig.Load | src/config.py:162-174 | each present key replaces its value, and each absent key keeps the current one |
| Config.FilterConfig.constructor | src/config.py:177-179 | the filter list starts empty |
| Config.FilterConfig.Load | src/config.py:181-184 | the filters before the first failing entry are appended in order, as new objects; the old list is kept as a prefix; the call raises exactly when some entry fails |
| Config.ScrapeConfig.constructor | src/config.py:187-190 | the interval starts at 0 and the action list empty |
| Config.ScrapeConfig.Load | src/config.py:192-197 | the interval is the configured one or the default scrape interval; the actions before the first failing one are appended in order, and the old list is kept as a prefix |

## Left out

- Prometheus itself: registration, the HTTP exposition, and the rejection of duplicate metric names across metrics. Each metric's exposed series are a map from label tuple to real, and "already registered" covers only a second `init` of the same metric.
- Counter.inc's rejection of negative increments, which comes from the Prometheus library.
- Floating point. Numbers are `real`.
- NumberText.ParseFloat: decimal text only. It accepts spaces, a sign, digits, a point and an exponent. `inf`, `nan`, digit underscores, and non-ASCII spaces and digits are not modelled; they are read as not a number.
- The AMI library: sockets, `connect`, framing, the event thread and `FutureResponse`. Its callback list is a sequence of callback tags. An action's response, and the events arriving at each poll, are parameters.
- The AMI library's event delivery: each event goes to the callbacks registered when it arrives, as if the library iterated over a copy of its callback list. This is an assumption about the library, whose code is not part of this model.
- Wall-clock time and `sleep`. The two waits poll once per 0.02 s tick, and the events of a poll arrive as one batch.
- Concurrency between the event thread and the polling loops. Deliveries happen between polls.
- Logging and traceback formatting.
- `load_from_file`: file I/O, YAML parsing, jsonschema validation and setting the log level. The parsed configuration is given as datatypes whose `Option` fields stand for absent keys. `value_on_scrape_start` is taken as a number.
- src/main.py, which only orchestrates: the infinite scrape loop, argparse, the HTTP server and asyncio.
- Aliasing. Filters attached to the listener own disjoint objects, and a filter's metrics are distinct objects. Actions.Exec requires that the action's filters are not already attached (`Actions.Detachable`).
- ClientWrappers.ClientWrapper.Login: the library's login and connect calls are one response parameter, and the socket timeout is not modelled.
- Actions.ActionExecuter.Exec: the executer's own callback reacts after the client's other callbacks for each event. It does not see events delivered before it was attached, or after it was detached.
- Config.FilterConfig.Load and Config.ScrapeConfig.Load: the loop builds the list, which is then appended at once. The source appends inside the loop, but nothing reads the list in between, so the resulting lists, including those left after a raise, are the same.
- Config.ScrapeConfig.Load: the contract states that the filters of one action own disjoint objects. It does not state that the filters of different actions are disjoint.
