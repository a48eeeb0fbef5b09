# Auto Reverse, modelled and proved in Dafny

Auto Reverse turns mouse-wheel scrolling around and smooths it. This project models the parts of it that
carry state or promise something over whole runs, and proves those promises. `dafny verify dfyconfig.toml`
checks everything.

**Wheel dynamics and scheduler.** Each axis takes discrete wheel input, emits part of it at once and lets
the rest decay linearly until a deadline; a signed-distance ledger accounts for every point. A two-axis
facade applies an event to both axes or neither, and the scheduler around it issues wake leases and fails
open. `Rate`, `AxisModel` and `SchedulerModel` define what every operation does on values; `AxisEngine` and
`SchedulerEngine` are classes with the source's fields whose methods update them step by step and are proved
to do exactly that. The laws are proved about the values: `AxisLaws` (conservation), `InputLaws` (what one
input does), `CadenceLaws` (the curve), `SessionLaws` and `RunLaws` (exact arithmetic over runs),
`WindowLaws` (the rate window), `SchedulerLaws`, `SchedulerRuns` and `SchedulerDrain` (the scheduler).
Floating-point numbers are reals. Each tail computation (immediate share, deferred share, merging, decay,
early flush and the final sum) carries an arbitrary error, a field of `Rounding`, chosen afresh for every
call, while the ledger's own sums are exact. Laws that say "any rounding" hold for all errors; laws of exact
arithmetic set them to zero. `NonFinite` stands for NaN and the infinities.

**Configuration store.** `StoreModel` says what one operation does alone, `StoreMachine` lets any number of
processes interleave file step by file step under the lock, with failures and crashes, and `FileStore` runs
the operations, including repair, on files whose every operation may fail.

**GUI activation mailbox.** `MailboxModel` is the state machine of writers and polls over single file
operations, `MailboxLaws` and `MailboxDelivery` prove what every interleaving keeps, and `MailboxEngine` runs
the source's control flow with other actors in between. `RequestText` is the request's text form.

**Device rules, resets, transform and trace.** `ConfigSchema`, `ConfigProfiles`, `ConfigEdits`,
`ConfigEditLaws` and `ConfigReset` cover matching, resolution, editing and resetting; `ScrollTransform` is the
pure transform and `TransformLaws` what it does to every event, `TapEvents` how the event tap attributes
events and what it shows of them, and `ScrollTrace` the recorded reason and its replay.

## Where the code and its documentation part

The model follows the code.

- `src/platform/macos/activation.rs:288-289` says a reload-only writer reaches the rename only over a stale or
  invalid request. It also gets there when the request it saw was claimed in between, and can then overwrite a
  newer request to open (`MailboxLaws.OpenCanBeLost`; exactly then: `MailboxLaws.NeverWeakensExactly`).
- `src/config/store.rs:161-163` says a failed repair restores the original path before returning. It does
  unless removing the replacement or moving the backup back fails, and exactly then does not; the bytes are
  then still in the backup (`FileStore.StuckRepair`; exactly when: `FileStore.ConfigStore.RepairWithDefaults`).
- `src/config/store.rs:242-277` can answer with an error after the new file is in place
  (`StoreModel.ErrAfterChangeExactly`).
- `src/scroll_trace.rs:62-69` does not flag every sample whose context the trace omits
  (`ScrollTrace.StepRuleIsNotFlagged`; exactly which: `ScrollTrace.TapFlagMissesExactly`).
- Session generations restart with `reset_after_fault`, so a sample held across one may be judged deliverable in
  an unrelated session (`SchedulerRuns.ResetRevivesHeldSample`). Only a reset that takes effect does that, a
  latched fault never does (`SchedulerRuns.DeliverIsRightExactly`). Wake ids do not restart.

## Model

| member | source | states |
|---|---|---|
| Rate.WindowKeepsLatest | src/scroll_dynamics/rate.rs:79-88 | Pushing any intervals one by one into the bounded window leaves exactly the newest eight of everything pushed. |
| Rate.LatestIsNewest | src/scroll_dynamics/rate.rs:79-88 | The newest eight of a history: as many as there are up to eight, from its end, in order. |
| Rate.SortDependsOnContents | src/scroll_dynamics/rate.rs:90-103 | Sorted order depends only on the multiset of intervals. |
| Rate.MedianIsLowerMedian | src/scroll_dynamics/rate.rs:90-103 | The middle of the sorted window is its lower median: an interval of the window, with at most (n-1)/2 intervals smaller and at least (n+1)/2 no larger. |
| Rate.EstimateIsMedianRate | src/scroll_dynamics/rate.rs:90-103 | The estimate exists if and only if there are three intervals or more; its interval is the lower median of the window, its count the number of intervals, and its rate 10^9 over that interval, rounded down. |
| Rate.EstimateIsOrderFreeAndBounded | src/scroll_dynamics/rate.rs:90-103 | Windows with the same contents in any order give the same estimate, and a rate is always 20,000 to 1,000,000 mHz. |
| Rate.NormalizeInputDelta | src/scroll_dynamics/rate.rs:38-62 | The interval used lies in 1,000 to 50,000 us, is the raw one whenever that is in range, and the clamp says which way it was moved; a clock going back gives none. |
| Rate.SortedCopy | src/scroll_dynamics/rate.rs:90-103 | Insertion sort of a copy: the loop returns the sorted window. |
| Rate.InputRateEstimator.Observe | src/scroll_dynamics/rate.rs:79-88 | The ring buffer (slots, length, next) holds the bounded window with the new interval pushed. |
| Rate.InputRateEstimator.EstimateRate | src/scroll_dynamics/rate.rs:90-103 | The estimate is that of the window in arrival order, although the ring is sorted in slot order. |
| Rate.InputRateEstimator.Clear | src/scroll_dynamics/rate.rs:109-112 | The window is empty afterwards. |
| Preset.ParametersAreValid | src/scroll_dynamics/preset.rs:49-98 | Every built-in preset passes the validation that the axis constructor relies on, and only Off has no tail. |
| AxisLaws.InputConserves | src/scroll_dynamics/axis.rs:191-295 | Under any rounding an accepted input keeps the invariant, and owed + input = emitted + canceled at a session boundary + owed after; a refused one changes nothing. |
| AxisLaws.SampleConserves | src/scroll_dynamics/axis.rs:297-302 | Under any rounding a sample fails exactly for a time behind the axis, touches only tail, ledger and time, and owed = emitted + owed after. |
| AxisLaws.CancelConserves | src/scroll_dynamics/axis.rs:304-355 | A cancellation hands back exactly what was owed and leaves nothing pending. |
| AxisLaws.Run | src/scroll_dynamics/axis.rs:84-106 | Over every run, with arbitrary rounding in the tail: accepted = emitted + canceled + owed, kept step by step. |
| AxisLaws.LedgerClosesUnderAnyRounding | src/scroll_dynamics/axis.rs:84-106 | After every run, with arbitrary rounding in the tail: accepted = emitted + canceled + momentum + residual, and an idle axis has accepted exactly what it emitted or canceled. |
| InputLaws.InputRefusedExactly | src/scroll_dynamics/axis.rs:191-228 | An input is refused if and only if its time is behind, it is not a number within a million points, or its deadline or session number would overflow, and the error is the first of these. |
| InputLaws.SessionsStartExactly | src/scroll_dynamics/axis.rs:212-244 | The generation advances if and only if the input is the first, comes after more than 150 ms, or runs against the session; the points canceled are then exactly those owed. |
| InputLaws.InputFollowsCurve | src/scroll_dynamics/axis.rs:246-295 | Closed form of the tail after an input: what the linear curve left plus the deferred share (0, 65, 45 or 25 percent by preset), ending 0, 120, 90 or 60 ms later, dropped at 0.25 points; all the rest is emitted at once. |
| InputLaws.SessionSplit | src/scroll_dynamics/preset.rs:49-98 | The first input of a session in plain numbers, preset by preset: Off emits everything, Precise 35 percent at once and 65 over 120 ms, Balanced 55 and 45 over 90 ms, Fast 75 and 25 over 60 ms. |
| InputLaws.InputLeavesTrack | src/scroll_dynamics/axis.rs:229-266 | What a non-zero input leaves on record: its time, sign and interval, why it began a session, and what that canceled and why. |
| InputLaws.InputGivesVelocity | src/scroll_dynamics/axis.rs:257-266 | The velocity is the input times the observed rate per second, and known if and only if the window has three intervals. |
| InputLaws.ZeroInputIsASample | src/scroll_dynamics/axis.rs:191-302 | An input of nothing does and answers what a sample does. |
| InputLaws.CancelLeavesRecord | src/scroll_dynamics/axis.rs:304-355 | A cancellation leaves a fresh axis but for its time, its session number, the last boundary and the record of what was canceled. |
| InputLaws.StateShowsWhatIsOwed | src/scroll_dynamics/axis.rs:168-189 | The public state adds up and is current, field by field: momentum and residual are what is accepted and not emitted, an idle axis shows neither, and an observed rate is that of the lower median of the window. |
| CadenceLaws.AdvanceFollowsCurve | src/scroll_dynamics/axis.rs:369-394 | The tail follows the ideal line to its deadline and ends early exactly when no more than 0.25 points are left. |
| CadenceLaws.CurveComposes | src/scroll_dynamics/axis.rs:369-394 | Following the line in two stages is following it in one, early end included. |
| CadenceLaws.SampleFollowsCurve | src/scroll_dynamics/axis.rs:297-302 | State and output of a sample in terms of the line. |
| CadenceLaws.SamplingScheduleIsInvisible | src/scroll_dynamics/axis.rs:297-302 | Any nondecreasing list of sample times ending at t leaves the state, ledger included, of one sample at t and sums to its output. |
| SessionLaws.InputIsExact | src/scroll_dynamics/axis.rs:191-295 | In exact arithmetic an input emits in its own direction, strictly for a non-zero one, and pending + input = emitted + pending after. |
| SessionLaws.SampleIsExact | src/scroll_dynamics/axis.rs:297-302 | In exact arithmetic a sample emits in the session direction and pending = emitted + pending after. |
| RunLaws.SampleThenInput | src/scroll_dynamics/axis.rs:191-302 | A sample on the way to an input changes neither its acceptance nor the state after it. |
| RunLaws.CadenceIsInvisible | src/scroll_dynamics/axis.rs:191-314 | Dropping all samples from a whole run of inputs, samples and cancellations leaves the same state at any later time and the same total emitted or canceled. |
| RunLaws.SessionOutputIgnoresCadence | src/scroll_dynamics/axis.rs:191-314 | Within the current session a run and the same run without its samples have accepted and emitted exactly the same at any later time. |
| RunLaws.SessionNeverOvershoots | src/scroll_dynamics/axis.rs:212-294 | Over every exact run the session output has the session direction, never exceeds what the session accepted, and differs from it by the pending momentum. |
| RunLaws.StaleTailIsNeverEmitted | src/scroll_dynamics/axis.rs:212-244 | After a reversal or a long gap every later answer of the axis is independent of the old tail, ledger and rate window, under any rounding. |
| WindowLaws.WindowHoldsSession | src/scroll_dynamics/axis.rs:257-263 | After any run the rate window is the newest eight normalized intervals of the current session. |
| WindowLaws.InputKeepsLatest | src/scroll_dynamics/axis.rs:246-266 | An input records its interval and its velocity is that of the estimate over the new window. |
| AxisEngine.ScrollDynamics.HandleInput | src/scroll_dynamics/axis.rs:191-295 | The stepwise input refines the axis model: same answer, same new state. |
| AxisEngine.ScrollDynamics.Sample | src/scroll_dynamics/axis.rs:297-302 | The stepwise sample refines the axis model. |
| AxisEngine.ScrollDynamics.CancelExternal | src/scroll_dynamics/axis.rs:304-314 | The stepwise cancellation refines the axis model. |
| AxisEngine.ScrollDynamics.AdvanceTail | src/scroll_dynamics/axis.rs:369-394 | Moves the tail field as the model does, with the same early end and the same rounding errors. |
| AxisEngine.ScrollDynamics.FinishEmission | src/scroll_dynamics/axis.rs:396-412 | Reconciles the ledger and closes it on idle as the model does. |
| AxisEngine.ScrollDynamics.TakeIdleCorrection | src/scroll_dynamics/axis.rs:90-96 | Closes the books: returns exactly what was accepted and neither emitted nor canceled, whatever the residual was, and resets the ledger. |
| AxisEngine.ScrollDynamics.State | src/scroll_dynamics/axis.rs:168-189 | The snapshot of the model. |
| SchedulerLaws.TwoAxesConserve | src/scroll_dynamics.rs:120-158 | Two-axis input is all or nothing: an error on either axis changes neither; otherwise each axis accounts for its own points; a continuous event passes unchanged. |
| SchedulerLaws.TwoAxesSample | src/scroll_dynamics.rs:160-180 | Two-axis sample is all or nothing and each axis accounts for its own points. |
| SchedulerLaws.TwoAxesCancel | src/scroll_dynamics.rs:182-216 | A cancellation applies exactly when the policy allows its trigger, then returns what each axis owed and leaves both idle; otherwise nothing changes. |
| SchedulerEngine.ScrollDynamics2D.HandleEvent | src/scroll_dynamics.rs:120-158 | Cloning, changing and committing both axes refines the facade model; the originals are untouched on error. |
| SchedulerEngine.ScrollDynamics2D.Sample | src/scroll_dynamics.rs:160-180 | Refines the facade model. |
| SchedulerEngine.ScrollDynamics2D.Cancel | src/scroll_dynamics.rs:182-216 | Refines the facade model. |
| SchedulerLaws.SyncGrantsLease | src/scroll_scheduler/schedule.rs:204-258 | Rescheduling fails only by running out of wake ids; otherwise a wake is armed if and only if an axis is active, with the next id, the current generations, and due at the earliest of 2,000 us from now and every active deadline. |
| SchedulerLaws.EventIsSound | src/scroll_scheduler.rs:110-156 | Every event keeps the invariant, and a new wake has the next id, whatever the route. |
| SchedulerLaws.EventRoutesExactly | src/scroll_scheduler.rs:110-156 | Which route every event takes, from the inputs alone: the program's own events first, then a latched fault, then what trips (an unacceptable number, or a discrete event that an axis refuses or no wake can be issued for), then continuous, then discrete. All but a discrete event return the original delta, and only discrete and tripping events change the state; the fault is the first cause. |
| SchedulerLaws.PollIsSound | src/scroll_scheduler.rs:158-243 | A poll changes state only for the armed token once due, then samples with that token's id, generation and a time to live anchored at its due time, or latches a schedule fault, never a dynamics one. |
| SchedulerLaws.PollAnswersExactly | src/scroll_scheduler.rs:158-177 | Which polls wait, are idle, are superseded or go on, from the fault, the armed wake, the token and the time alone. |
| SchedulerLaws.PollFaultsExactlyWhen | src/scroll_scheduler.rs:158-243 | Exactly which polls latch a fault, and which fault with which times: expiry overflow, more than 8 ms late, or wake ids exhausted with an axis still active. |
| SchedulerLaws.ResetIsSound | src/scroll_scheduler.rs:268-277 | A reset acts exactly on a latched fault: fresh dynamics, no wake, and the wake counter kept. |
| SchedulerRuns.FaultsNeverSeen | src/scroll_scheduler.rs:110-243 | Over every call sequence MissingDeadline and DeadlineNotFuture never latch, a healthy poll never latches a dynamics fault, and a wake is armed if and only if an axis is active and nothing is latched. |
| SchedulerRuns.FaultStaysLatched | src/scroll_scheduler.rs:110-243 | A latched scheduler is unchanged by every call but a reset. |
| SchedulerRuns.PointsAreConserved | src/scroll_scheduler.rs:110-304 | Per axis over every run and any rounding: accepted = emitted + sampled + canceled + lost at faults (exactly what was owed then) + still owed. |
| SchedulerRuns.LeasesAreExclusive | src/scroll_scheduler.rs:158-303 | Issued wake ids, and sampled ones, strictly increase over the run, across faults and resets. |
| SchedulerRuns.DeadTokensStayDead | src/scroll_scheduler.rs:158-177 | A token once superseded, consumed or dropped never changes the scheduler again. |
| SchedulerRuns.GenerationsGrow | src/scroll_scheduler.rs:253-258 | Until a reset takes effect, generations never decrease while nothing is latched. |
| SchedulerRuns.HeldSamplesAreSafe | src/scroll_scheduler.rs:260-266 | Until a reset takes effect, whatever faults latch, a held sample judged deliverable is of the current sessions, with nothing latched and within 8 ms of its due time; stale stays stale, expired is never delivered later. |
| SchedulerRuns.SampleIsJudgedExactly | src/scroll_scheduler/schedule.rs:69-87 | A held sample is delivered if and only if its generations are current and it is at most 8 ms past its due time; a stale one is discarded as stale, a late one as expired, with the two generations or times. |
| SchedulerRuns.DeliverIsRightExactly | src/scroll_scheduler.rs:260-277 | Over all runs: of a sample judged deliverable, no axis has begun a session since it was made if and only if no reset has taken effect since. |
| SchedulerRuns.RunAdvances | src/scroll_scheduler.rs:110-277 | Until a reset takes effect the generations are what they were exactly if no session began; a latched scheduler, and a reset one until its first session, has none. |
| SchedulerRuns.ResetRevivesHeldSample | src/scroll_scheduler.rs:268-277 | Counterexample: after a reset generations restart, and a sample held from before is judged deliverable. |
| SchedulerDrain.PollMakesProgress | src/scroll_scheduler.rs:158-243 | A poll within the wake's time to live advances at least a full interval or retires an axis, so fewer polls are left. |
| SchedulerDrain.DrainsInBoundedPolls | src/scroll_scheduler.rs:158-243 | With room in the counters, polling each wake up to 8 ms late disarms within tail / 2000 + 2 polls (tails of 0, 120, 90 and 60 ms) and delivers exactly what each axis owed, under any delays and rounding. |
| SchedulerEngine.TailSchedule.Sync | src/scroll_scheduler/schedule.rs:204-237 | Updates wake and last id as the model does, leaving both alone on an error. |
| SchedulerEngine.ScrollScheduler.HandleEvent | src/scroll_scheduler.rs:110-156 | Refines the scheduler model. |
| SchedulerEngine.ScrollScheduler.Poll | src/scroll_scheduler.rs:158-243 | Refines the scheduler model. |
| SchedulerEngine.ScrollScheduler.ResetAfterFault | src/scroll_scheduler.rs:268-277 | Refines the scheduler model. |
| SchedulerEngine.ScrollScheduler.SampleDisposition | src/scroll_scheduler.rs:260-266 | Judges a held sample by the current generations. |
| StoreModel.OnlyWholeRevisions | src/config/store.rs:242-277 | Whatever fails or crashes, an operation leaves what was there or one whole valid configuration. |
| StoreModel.SaveSwapsExactly | src/config/store.rs:172-192 | A save succeeds only over exactly the expected text and replaces it whole; ConfigChanged means the text differed and stays; a file that is not UTF-8 is refused as such; any change at all was made over the expected text. |
| StoreModel.SavesChain | src/config/store.rs:172-192 | The revision a save returns is the one the next save must expect. |
| StoreModel.AnswersAreTrue | src/config/store.rs:140-277 | Whatever operation and whatever fails, an Ok answer is true of the file it leaves: the revision is its exact text, which reads as the answered configuration. |
| StoreModel.LoadsAnswerExactly | src/config/store.rs:140-159 | A load over an existing file leaves it alone and answers its configuration with its exact text, or why it does not read; with no file, one says so and the other writes and answers the defaults. |
| StoreModel.LoadThenSave | src/config/store.rs:146-192 | Saving with the revision a load returned, nothing in between, succeeds for every valid configuration and every spelling of the loaded file. |
| StoreModel.UpdatesApplyExactly | src/config/store.rs:198-211 | An undisturbed update writes and answers the change of the configuration in the file, or of the defaults where there is none; an unreadable file or an invalid change leaves the file alone. |
| StoreModel.FailuresAreReported | src/config/store.rs:122-277 | A failure before the rename leaves the file as it was, a failing lock or read is named, and an Ok answer is that of an undisturbed operation. |
| StoreModel.ErrAfterChangeExactly | src/config/store.rs:242-277 | An operation answers Err with the file changed if and only if the directory sync failed after the rename of a different text. |
| StoreMachine.StoreIsSerializable | src/config/store.rs:140-211 | For every interleaving, failure and crash of loads, creations, saves and updates, each answer and the final file are those of running the operations one at a time in lock order, each once. |
| StoreMachine.FileIsAlwaysCommitted | src/config/store.rs:242-277 | At every moment the file is the finished operations' result, or that with the lock holder's own write. |
| StoreMachine.InspectionSeesRevisions | src/config/store.rs:122-134 | Every answer to an unlocked reader is what the file was when it looked, or a failed read if and only if its reading failed; from a missing or valid file on never a torn or invalid one, and a file there from the start is never missed. |
| StoreMachine.NoUpdateIsLost | src/config/store.rs:140-211 | After any run of loads, creations, saves and updates with any failures and crashes, the configuration is the committed ones' effects in lock order. |
| StoreMachine.AnswersTellEffects | src/config/store.rs:172-277 | An answered save or update took effect if and only if it answered Ok or failed only in the last directory sync. |
| FileStore.ConfigStore.WriteUnlocked | src/config/store.rs:242-277 | Temp file, sync, rename, directory sync on files with any failing operation: does what the sequential model says and touches no other file that was there. |
| FileStore.ConfigStore.LoadOrCreateSnapshot | src/config/store.rs:146-159 | Refines the sequential model for some luck, the clean one when nothing fails; what that answers is StoreModel.LoadsAnswerExactly. |
| FileStore.ConfigStore.SaveConfigIfUnchanged | src/config/store.rs:172-192 | Refines the sequential model for some luck, the clean one when nothing fails. |
| FileStore.ConfigStore.UpdateConfig | src/config/store.rs:198-211 | Refines the sequential model for some luck, the clean one when nothing fails. |
| FileStore.ConfigStore.RepairWithDefaults | src/config/store.rs:279-321 | After every single file operation, whichever fail, the original bytes are at the config path or in a backup that clobbered nothing and no other file changed; an error leaves the original at the path if and only if it is not a stuck one; and, with new names free, which failing operations end in a repair, in place, rolled back or stuck. |
| FileStore.ConfigStore.ReplaceQuarantined | src/config/store.rs:305-320 | From the quarantine on: the defaults and the backup, or the original back at the path, or stuck, exactly by which operations fail. |
| FileStore.StuckRepair | src/config/store.rs:279-349 | Counterexample: with just two failing operations a failed repair answers with the config path empty of the original. |
| FileStore.ConfigStore.QuarantineInvalidConfig | src/config/store.rs:351-411 | Success moves the config to a name nothing had; on every error the config is still in place. |
| FileStore.ConfigStore.RestoreAfterFailedRepair | src/config/store.rs:323-349 | With the original gone from the config path, it is back there if and only if neither of the next two operations fails, if and only if the answer is not a stuck one; otherwise it is in the backup. |
| RequestText.RequestRoundTrips | src/platform/macos/activation.rs:202-223 | Every published request parses back to itself. |
| RequestText.SignedPidParses | src/platform/macos/activation.rs:202-223 | A process id may carry a plus sign. |
| RequestText.BarePidOpens | src/platform/macos/activation.rs:202-223 | A bare process id still asks to reload and open. |
| RequestText.MalformedIsRefused | src/platform/macos/activation.rs:202-223 | A second word is refused unless it is one of the two actions, a third word always, and so is a process id beyond 32 bits or with anything but digits after its first character. |
| MailboxLaws.NoRequestIsLost | src/platform/macos/activation.rs:133-291 | In every interleaving of writers and polls of one owner, with any failures, a request that returned Ok has a same-owner request still pending or claimed after it began. |
| MailboxLaws.StrengthFallsExactly | src/platform/macos/activation.rs:230-291 | One step weakens the pending request if and only if it is a claim, or a reload-only rename over a pending open. |
| MailboxLaws.PendingOnlyStrengthens | src/platform/macos/activation.rs:238-291 | Without such a rename the pending request only strengthens between claims. |
| MailboxLaws.OpenDominatesReload | src/platform/macos/activation.rs:238-291 | Without such a rename the covering request asks for at least as much as the one that returned Ok. |
| MailboxLaws.NeverWeakensExactly | src/platform/macos/activation.rs:230-291 | Over whole runs the pending request weakens only by being claimed if and only if no reload-only writer renames over a pending open. |
| MailboxLaws.OpenCanBeLost | src/platform/macos/activation.rs:262-291 | Counterexample: with no stale file and no failure a reload-only writer takes the rename fallback after its rival's request vanished, and an open request is lost. |
| MailboxDelivery.NothingIsDeliveredTwice | src/platform/macos/activation.rs:133-180 | In every interleaving no publication is claimed or delivered twice, and only claimed ones are delivered. |
| MailboxDelivery.CoalescesExactly | src/platform/macos/activation.rs:238-291 | A reload-only writer coalesces with the file in place if and only if it is readable and asks this owner for something; a request to another process never counts as pending. |
| MailboxDelivery.AnswersAreRequests | src/platform/macos/activation.rs:133-180 | In every interleaving as many polls answer with an action as files are delivered, and every delivery and every answer is a request that names the owner's process. |
| MailboxDelivery.OkRequestsAreDelivered | src/platform/macos/activation.rs:133-291 | With polls that can read and remove what they claim, once none is in flight and nothing is pending, every Ok request has been delivered by a file claimed after it began, at its own strength absent a downgrade. |
| MailboxEngine.Mailbox.WriteRequest | src/platform/macos/activation.rs:230-260 | Run one file operation at a time with anything in between, an Ok leaves a request for the owner of at least its own strength pending or claimed since the call. |
| MailboxEngine.Mailbox.PublishRequest | src/platform/macos/activation.rs:262-291 | Link, check again, rename: the control flow is a path of the state machine. |
| MailboxEngine.Mailbox.Poll | src/platform/macos/activation.rs:133-180 | A poll claims at most one file, one none claimed before, and answers with its action if and only if it reads as a request to the owner, with none for another process; it fails if and only if a file operation fails or the claimed file does not parse. |
| ConfigSchema.ValidateIsExact | src/config/schema.rs:96-171 | Validation accepts if and only if the version is 1, the step is 0 to 20, every rule's selector, alias (trimmed, at most 64, no control characters) and step are in form, and no two rules share a selector. |
| ConfigSchema.RejectionsAreTrue | src/config/schema.rs:96-171 | What a rejection says is true of the configuration, and the rule it names is the first that is not in form or repeats a selector. |
| ConfigSchema.NewIdentityIsNormal | src/device.rs:39-60 | An identity made by the constructor carries a qualifier that validation accepts: the serial without the white space around it unless it is blank, and the location unless it is zero. |
| ConfigProfiles.WinnerIsMostSpecific | src/config/profiles.rs:106-121 | The resolved rule is at least as specific as every other that matches and sets the field. |
| ConfigProfiles.MatchesExactly | src/config/device_rules.rs:51-64 | A rule in form applies to exactly the devices of its hardware that carry the qualifier it names. |
| ConfigProfiles.FieldsFallBack | src/config/profiles.rs:75-104 | Where no rule sets a field of a device, direction comes from the flag of its own kind (the four written out) and step and smoothing from the global values, each naming its source. |
| ConfigProfiles.FieldsComeFromRules | src/config/profiles.rs:106-131 | A field resolves to the value of the rule that decides it, serial over location over hardware, and names that kind of selector. |
| ConfigProfiles.WinnerDecides | src/config/profiles.rs:106-121 | In a valid configuration every field that some rule sets for a device is decided by exactly one. |
| ConfigProfiles.ResolutionIgnoresOrder | src/config/profiles.rs:66-121 | For a valid configuration every permutation of the rules resolves every field and alias alike. |
| ConfigProfiles.ValidityIgnoresOrder | src/config/schema.rs:110-168 | A permutation of the rules is valid if and only if the original is. |
| ConfigEdits.EditIsIdempotent | src/config/device_rules.rs:186-246 | Repeating an edit changes nothing, for every rule list. |
| ConfigEditLaws.EditWritesExactly | src/config/device_rules.rs:186-246 | What an edit leaves on record, member for member: the edited value and the given name in the one rule with the device's narrowest selector, everything else of it kept, no rule that sets nothing, and every other rule as it was. |
| ConfigEditLaws.DirectionTakesEffect | src/config/device_rules.rs:186-205 | Selecting a direction makes the device resolve to it, whatever the other rules, and name its serial, else its location, else its hardware as the source. |
| ConfigEditLaws.AliasTakesEffect | src/config/device_rules.rs:207-226 | Setting an alias makes the device resolve to it. |
| ConfigEditLaws.EditStaysLocal | src/config/device_rules.rs:228-246 | No field or alias changes for a device the edited selector does not match, for every rule list. |
| ConfigEditLaws.DirectionReachesExactly | src/config/device_rules.rs:186-205 | A device that shares the edited selector takes the new direction if and only if no narrower rule decides for it. |
| ConfigEditLaws.ClearedDirectionInherits | src/config/device_rules.rs:180-205 | Clearing a direction leaves every device to its remaining rules. |
| ConfigEditLaws.DirectionTouchesNothingElse | src/config/device_rules.rs:186-205 | In a valid configuration selecting a direction changes no step, smoothing or alias of any device. |
| ConfigEditLaws.AliasTouchesNothingElse | src/config/device_rules.rs:207-226 | In a valid configuration setting an alias changes no resolved field of any device. |
| ConfigEditLaws.DirectionKeepsValidity | src/config/device_rules.rs:186-205 | Selecting a direction keeps a valid configuration valid if and only if the identity is normalized; clearing always does. |
| ConfigEditLaws.AliasKeepsValidity | src/config/device_rules.rs:207-226 | Likewise for an alias, which must itself be acceptable. |
| ConfigReset.WithDynamicsRollback | src/config/reset.rs:35-45 | The in-place loop computes the rollback. |
| ConfigReset.WithDynamicsDefaults | src/config/reset.rs:15-30 | The in-place loop computes the dynamics reset. |
| ConfigReset.RollbackKeepsMeaning | src/config/reset.rs:35-45 | Direction, step and alias of every device as before, smoothing off everywhere, sources included. |
| ConfigReset.DynamicsResetKeepsMeaning | src/config/reset.rs:15-30 | Direction and alias of every device as before, step 3 and smoothing off from the global default. |
| ConfigReset.ResetsAreIdempotent | src/config/reset.rs:15-45 | Resetting again changes nothing. |
| ConfigReset.ResetsLeaveExactly | src/config/reset.rs:15-45 | Both resets change nothing else in the configuration, and leave exactly the old rules with the cleared fields empty, without those that then set nothing. |
| ConfigReset.ResetsKeepValidity | src/config/reset.rs:7-45 | All three resets keep a valid configuration valid. |
| ConfigReset.RemovalUndoesEdits | src/config/reset.rs:7-13 | Removing a device's rule undoes any edit of it, removes nothing exactly where there is none, and leaves none. |
| ConfigReset.ClearingUndoesEdit | src/config/device_rules.rs:186-246 | For a device with no rule of its own, giving it a direction or an alias and clearing that again restores the whole list. |
| ConfigReset.RemovalStaysLocal | src/config/reset.rs:7-13 | Removing a device's rule changes nothing for devices its selector does not match. |
| ScrollTransform.TransformEvent | src/scroll.rs:51-112 | Updating one copy step by step decides each axis on its own: scale a unit tick, then reverse, both saturating. |
| TransformLaws.DecisionIsExact | src/scroll.rs:51-112 | The whole decision in closed form for every configuration and event: unit ticks of a wheel become plus or minus the step, every other reversed delta its saturating negation, with all four flags. |
| TransformLaws.RuleFreeDecision | src/scroll.rs:51-112 | A device for which no rule gives a direction is reversed on an axis if and only if the policy acts, its own kind's flag is on and the axis flag is on, with that closed form. |
| TransformLaws.ShippedDecision | src/scroll.rs:51-112 | As shipped, mice and Magic Mice reverse vertically, three lines a tick; trackpads, unknown devices and horizontal axes stay as they are. |
| TransformLaws.ShippedPolicy | src/input_policy.rs:50-78 | As shipped the policy acts on every event but the program's own and those of virtual or unknown sources. |
| TransformLaws.PassesThroughExactly | src/input_policy.rs:50-78 | An event passes through unchanged if and only if the policy is off, it is the program's own, its source is virtual or unknown, or it is posted by a process under the guard. |
| TransformLaws.ProvenanceIsExact | src/input_policy.rs:50-78 | Which provenance every event has, from its fields. |
| ScrollTransform.AlikeExactly | src/scroll.rs:74-102 | Two profiles give a delta the same output if and only if the delta is zero, or direction (on a reversing axis) and effective step agree. |
| TapEvents.NormalizedIsFromTap | src/platform/macos/event_tap.rs:350-380 | An attributed event of the tap is a discrete mouse event of the HID system whose source was observed. |
| TapEvents.AttributionIsExact | src/platform/macos/event_tap.rs:350-380 | An event is attributed to the last wheel's device if and only if it is discrete, of the HID system and at most 50 ms after it; the rest of the event is passed on as it came. |
| ScrollTrace.LiveAxis | src/platform/macos/scroll_events.rs:37-171 | The shown motion of wheels (lines) and of continuous scrolling (points, negated on reversed axes) changes by one and the same per-axis decision. |
| ScrollTrace.ShownMotion | src/platform/macos/scroll_events.rs:37-171 | Which motion is shown: lines of a wheel, points of continuous scrolling, each axis its own; a paused tap changes neither, and points are negated on the reversed axes alone. |
| ScrollTrace.UnattributedReplayIsFaithful | src/scroll_trace.rs:38-60 | An unpaused event with no attributed device, wheel or continuous, replays to its observed output and reversal on each axis, from its reason alone. |
| ScrollTrace.ReplayIsFaithfulExactly | src/scroll_trace.rs:38-60 | With a device: faithful if and only if the policy does not act or the two profiles treat the shown delta alike. |
| ScrollTrace.FlagMissesExactly | src/scroll_trace.rs:62-69 | Over all inputs of the pure functions, exactly which unflagged samples replay differently. |
| ScrollTrace.TapFlagMissesExactly | src/scroll_trace.rs:62-69 | Over the events the tap produces: exactly unit wheel ticks that the device's rules reverse and scale differently, with the direction not from a rule or the axis off. |
| ScrollTrace.StepRuleIsNotFlagged | src/scroll_trace.rs:62-69 | Counterexample: for a USB mouse with a rule that sets only the step, the sample is not flagged and replays -3 for -7. |
| ScrollTrace.ReasonKeepsPolicy | src/platform/macos/event_tap.rs:559-636 | The recorded reason alone restores whether the policy acts on the event. |
| ScrollTrace.ReasonsAreExact | src/platform/macos/event_tap.rs:559-636 | What each recorded reason says of the configuration and the event, reason by reason. |
| ScrollTrace.FlaggedExactly | src/scroll_trace.rs:62-69 | Which rows are flagged for omitted context: those of a paused tap, and those whose direction a device rule gives, but for two exceptions. |
| ScrollTrace.RowsAreComplete | src/platform/macos/event_tap.rs:485-553 | The rows of a run are the records of exactly those axes of its events that moved or were moved. |
| ScrollTrace.RowsComeInOrder | src/platform/macos/event_tap.rs:485-553 | Events in order leave rows in order. |
| ScrollTrace.TraceReplays | src/scroll_trace.rs:121-152 | Every row of every unpaused run without devices, wheel or continuous, replays to its observed output. |
| ScrollTrace.ExportReplays | src/ui/debug_console/export.rs:167-187 | Counting times from the first row keeps that, and rows in order make a valid trace if and only if there are at most 10,000. |
| ScrollTrace.ExportKeepsRows | src/ui/debug_console/export.rs:167-187 | The export keeps every row but for its time, starts at zero and keeps the time between rows. |
| ScrollTrace.ValidateTraceIsExact | src/scroll_trace.rs:154-182 | Validation accepts if and only if the version is 1, there are 1 to 10,000 samples, the first is at zero and no time ever goes back. |

## Left out

- IEEE-754 rounding as such, overflow to infinity and the formatting of velocities: reals with arbitrary errors stand for them.
- MailboxDelivery.OkRequestsAreDelivered: assumes that no poll fails to read or remove what it claimed, because the code drops such a request.
- SchedulerDrain.DrainsInBoundedPolls: needs room in the wake-id counter and the clock, because without it the source latches an overflow fault.
- RunLaws.CadenceIsInvisible: totals emitted and canceled are compared as one sum, because points sampled before a cancellation are emitted rather than canceled; within the session SessionOutputIgnoresCadence compares them apart.
- MailboxLaws.NoRequestIsLost: speaks of writers that target one owner, because a request for another owner replaces the file by design.
- MailboxLaws.OpenDominatesReload: assumes that no reload-only rename hits a pending open request, because the code loses one there.
- StoreMachine.InspectionSeesRevisions: an unlocked reader during a repair may also find no file, and repair is not a step of that machine.
- FileStore.ConfigStore.RepairWithDefaults: the lock keeps other cooperating processes out; one that ignores the lock, or writes in place to a file that is hard-linked, is not modelled.
- Symbolic links: a config path that is not a regular file is read as a failed read; following a link to its target is not modelled.
- TOML text: a document stands for any spelling of a configuration, and the library's parser and printer are an inverse pair on it.
- File permissions, directory creation, the lock file and `flock`: locking is mutual exclusion that a crash releases.
- `acquire_or_activate` and the reading of the owner's process id from the lock file.
- Threads, run loops, Core Graphics, AppKit and IOHID calls; the fixed-point field of continuous events, and what macOS derives when a wheel's lines are written.
- The user interface, tray, command line, search, statistics and CSV export; string tables (`label`, `code`, `Display`, summaries).
- Small machines beside the core (pause control, tap watchdog, latency budget, update policy and the like), which would only add easy members.
- The 32-bit width of vendor, product and location ids and of the config version: naturals, since nothing computes on them.
- Custom preset parameters and their validation: only the four built-in presets are modelled.
