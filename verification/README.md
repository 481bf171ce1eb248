# Verification of the system compositor's state cores

This project models the parts of the Unity system compositor that keep state over
long runs, and proves what those runs lead to.  Objects whose methods update their
fields are classes here; each method is proved against a pure step function, and the
theorems are about all runs of those steps.

| part | object | step functions | theorems |
|---|---|---|---|
| session switcher | `SessionSwitcher.dfy` | `Scene.dfy`, `SwitcherModel.dfy` | `SwitcherPicture.dfy`, `SwitcherRuns.dfy`, `SwitcherTheorems.dfy`, `SwitcherHistory.dfy`, `SwitcherLingering.dfy`, `SwitcherLimits.dfy` |
| spinner process | `ExternalSpinner.dfy` | `ExternalSpinner.dfy` | `SwitcherTheorems.dfy` |
| event loop: watches and timers | `DBusEventLoop.dfy` | `EventLoopIndex.dfy` | `EventLoopTheorems.dfy`, `EventLoopHistory.dfy` |
| event loop: action queue, wake-up and stop | interleaved steps of several threads | `EventLoopProtocol.dfy` | `EventLoopProtocol.dfy` |
| screen | `MirScreen.dfy` | `MirScreenModel.dfy` | `MirScreenTheorems.dfy` |
| display service | interleaved steps | `DisplayPipeline.dfy` | `DisplayPipeline.dfy` |
| screen and switcher together | | `DisplaySystem.dfy` | `DisplaySystem.dfy` |
| display manager connection | `AsioDMConnection.dfy` | `DMFraming.dfy`, `DMMessages.dfy` | `DMFraming.dfy`, `DMMessages.dfy` |
| input events | `ScreenEvents.dfy` | `ScreenEvents.dfy` | `ScreenEvents.dfy` |
| input devices | `MirInputConfiguration.dfy` | `InputModel.dfy` | `InputTheorems.dfy` |
| image header printer | `PngHeader.dfy` | `PngHeader.dfy` | `PngHeader.dfy` |

`Options.dfy` and `Histories.dfy` hold two shared notions: an option type, and
conditions that one event brings about and another ends.

## What the environment is asked for

- Session switcher.  A session object has a constant name; it is added at most once,
  after it has entered the scene hidden (`SwitcherRuns.Admissible`).  The session taken
  for the spinner is not also named active or next (`SwitcherRuns.Separate`); a
  concrete run in `SwitcherLimits` shows that without this a picture can be wrong, and
  `SwitcherLingering` says without it, for every run, when the picture is right.  The
  theorems that read the display and the spinner's process off the calls alone
  (`SwitcherHistory.ActiveIsDisplayedExactly`, the two after it and
  `ProcessFollowsHistory`) ask that no session added has an empty name
  (`SwitcherHistory.Named`), since an empty name stands for none.  Each call is one
  atomic step, the handler of output changes included, although that handler takes no
  lock.  The process id that the spinner reports, and the one that fork would return,
  come with each call; the theorems hold for every sequence of such answers, those of
  the modelled spinner among them.  Claims about the display are about tracked sessions:
  an object that is replaced under its name is not hidden by the code and is no longer
  tracked.
- Event loop.  Descriptors of different kinds are different open files
  (`EventLoopTheorems.Fresh`).  Whether the kernel accepts a registration or a timer is
  part of each callback.  Event masks and watch flags are sets of named bits.
- Clock.  Time does not run backwards and starts at or after zero.
- Interleaved steps.  Where a lock orders two steps, the model may allow more orders
  than the code does, never fewer.

## Findings

- The picture is a function of the switcher's state in every reachable state, but the
  spinner's session, if it is also named next, can stay on display after the active
  name has been cleared (`SwitcherLimits.SpinnerNamedNextLingers`).  Whoever is named,
  the display is the picture exactly when no session has been left over in this way
  (`SwitcherLingering.PictureOfEveryRunExactly`).
- Switching outputs off and on is invisible once booting is over.  During boot it can
  leave a trace: exactly when the boot latch now holds back the active session, and at
  some point of the run the active session was ready and the next one ready or unset
  (`SwitcherTheorems.OutputChangesLeaveATraceExactly`,
  `SwitcherLimits.OutputChangesDuringBootLeaveATrace`).
- Watches that share a descriptor are handed each other's events
  (`EventLoopTheorems.FlagsAreShared`).  Every event handed over was asked for by
  some enabled watch on the descriptor, and a watch gets only its own exactly when it
  asks for all that the enabled watches on its descriptor ask for
  (`EventLoopTheorems.FlagsAreOwnExactly`).
- A timeout whose timer the kernel registers and then refuses to arm is reported as not
  added, and stays registered (`EventLoopTheorems.RefusedTimerStays`).  In every other
  case the report is true (`EventLoopTheorems.ReportIsTrueExactly`).
- The display manager's length field has two bytes and is not checked by the sender:
  the frames sent come back if and only if each has a 16-bit id and at most 65535 bytes
  of payload (`DMFraming.RoundTripExactly`).
- A cursor speed that is not a number passes both comparisons of the clamp: the bias
  lies in [-1, 1] if and only if the speed is a number.

## Model

| member | source | states |
|---|---|---|
| `SwitcherRuns.PictureInEveryReachableState` | src/session_switcher.cpp:121-243 | in every reachable state the displayed tracked sessions, bottom to top, are the picture: nothing without outputs, the spinner alone while the active session is awaited, else the active session above the next one or the spinner |
| `SwitcherLingering.PictureOfEveryRunExactly` | src/session_switcher.cpp:121-243 | without any condition on names: after any run the displayed list is the picture if and only if no tracked session outside it has once belonged to the picture and been neither shown nor hidden by every update since |
| `SwitcherLingering.VisibleExactly` | src/session_switcher.cpp:67-191 | after any calls whatever, a session, tracked or not, is visible exactly if it belonged to the picture and since then has not been removed, every update that found it tracked has left it alone, and the scene has not dropped it |
| `SwitcherLingering.RemovedIsHidden` | src/session_switcher.cpp:67-90 | a tracked session that is removed is neither visible nor tracked afterwards |
| `SwitcherLingering.VisibleUntrackedExactly` | src/session_switcher.cpp:56-90 | a session that is not tracked is visible exactly if another one took its name while it was visible, and the scene has not dropped it since; never after a removal |
| `SwitcherLingering.NothingLingersIfSeparate` | src/session_switcher.cpp:142-191 | no session stays visible in this way as long as the spinner's session is named neither active nor next |
| `SwitcherPicture.UpdateMeetsPictureExactly` | src/session_switcher.cpp:121-171 | one update from any scene yields the picture if and only if no session was visible for which the update issues neither show nor hide |
| `SwitcherRuns.StepKeepsInvariant` | src/session_switcher.cpp:56-119 | every call keeps: registered entries, stacked sessions, hidden unready sessions but for the spinner, and the picture |
| `SwitcherHistory.ActiveIsDisplayedExactly` | src/session_switcher.cpp:121-146 | from the calls alone: the active session is displayed exactly when outputs are present, it was last made active, it is tracked and marked ready, and the boot gate has opened; and then it is on top |
| `SwitcherHistory.NextIsDisplayedExactly` | src/session_switcher.cpp:148-165 | from the calls alone: the next session is displayed exactly when it was last made next, is tracked and ready, and an active session is displayed |
| `SwitcherHistory.SpinnerIsDisplayedExactly` | src/session_switcher.cpp:142-171 | from the calls alone: the spinner's session is displayed exactly when there is an output and some session is awaited |
| `SwitcherHistory.TrackedSinceAdded` | src/session_switcher.cpp:56-90 | a session is tracked exactly since it was added, until it is removed or replaced under its name |
| `SwitcherHistory.ReadySinceMarked` | src/session_switcher.cpp:108-119 | a tracked session is ready exactly if marked ready since its name was last added |
| `SwitcherHistory.ActiveIsLastSet` | src/session_switcher.cpp:92-98 | the active name is the one set last |
| `SwitcherHistory.NextIsLastSet` | src/session_switcher.cpp:100-106 | the next name is the one set last |
| `SwitcherHistory.OutputsAreLastReported` | src/session_switcher.cpp:47-53 | outputs count as present unless the last report said there are none |
| `SwitcherHistory.SpinnerIsLastAdded` | src/session_switcher.cpp:60-61 | the spinner is the last session added with the spinner's process id and not removed since |
| `SwitcherTheorems.BootGate` | src/session_switcher.cpp:128-141 | the boot latch is down exactly when some state so far had outputs on, the active session ready, and the next one ready or unset |
| `SwitcherTheorems.BootingNeverReturns` | src/session_switcher.cpp:140 | the boot latch never goes up again |
| `SwitcherTheorems.OnlySpinnerWhileBooting` | src/session_switcher.cpp:128-146 | while booting, no tracked session but the spinner is displayed |
| `SwitcherTheorems.OutputChangesLeaveNoTrace` | src/session_switcher.cpp:47-53 | after boot, deleting all output changes from a run that ends with outputs on does not change what is displayed |
| `SwitcherTheorems.OutputChangesLeaveATraceExactly` | src/session_switcher.cpp:121-141 | at any time, they show at the end exactly when the boot latch now holds back a ready active session although at some point of the run the active session was ready and the next one ready or unset |
| `SwitcherTheorems.UpdateTwice` | src/session_switcher.cpp:121-171 | from any registered state, updating twice leaves switcher, scene and spinner process as updating once does |
| `SwitcherTheorems.UpdateAtRestShowsTheSame` | src/session_switcher.cpp:121-171 | in every state that a run can reach, another update changes nothing displayed |
| `SwitcherTheorems.StaleRemovalIsInert` | src/session_switcher.cpp:67-90 | removing an object that was replaced under its name changes nothing, however much later |
| `SwitcherTheorems.SpinnerProcessIsAccountedFor` | src/external_spinner.cpp:55-83 | with outputs on the process held is the one needed; forks minus terminations is one when a process is held and zero otherwise |
| `SwitcherHistory.ProcessFollowsHistory` | src/session_switcher.cpp:121-171 | from the calls, and whether a process is held: one is forked exactly at an update with outputs present at which a session is awaited, no spinner's session is tracked, none is held and there is an executable; it is terminated exactly at an update with outputs present at which none is awaited; nothing else touches it |
| `SwitcherHistory.NothingToFork` | src/external_spinner.cpp:59-60 | without an executable nothing is ever forked |
| `SwitcherLimits.SpinnerNamedNextLingers` | src/session_switcher.cpp:162-165 | an orderly run that names the spinner's session as the next one leaves it on display |
| `SwitcherLimits.OutputChangesDuringBootLeaveATrace` | src/session_switcher.cpp:123-124 | a legal run that starts and ends with outputs on and displays something else than it does without its output changes |
| `Spinners.ExternalSpinner.EnsureRunning` | src/external_spinner.cpp:55-72 | forks only if none is held and there is an executable |
| `Spinners.ExternalSpinner.Kill` | src/external_spinner.cpp:74-83 | terminates the process held, once |
| `SessionSwitchers.SessionSwitcher.Add` | src/session_switcher.cpp:56-65 | refines the step that the run theorems are about: files the session unready under its name, takes it for the spinner if it has the spinner's process id, then updates |
| `SessionSwitchers.SessionSwitcher.Remove` | src/session_switcher.cpp:67-90 | refines its step: only the tracked object itself is hidden and forgotten, and then the display is updated; for any other object nothing at all changes |
| `SessionSwitchers.SessionSwitcher.MarkReady` | src/session_switcher.cpp:108-119 | refines its step: exactly the entries of this session become ready, in whatever order the loop visits them |
| `SessionSwitchers.SessionSwitcher.SetActiveSession` | src/session_switcher.cpp:92-98 | refines its step: only the active name changes, and the display is updated |
| `SessionSwitchers.SessionSwitcher.SetNextSession` | src/session_switcher.cpp:100-106 | refines its step: only the next name changes, and the display is updated |
| `SessionSwitchers.SessionSwitcher.ActiveOutputsHandler` | src/session_switcher.cpp:47-53 | refines its step: outputs are present unless both counts add up to zero, and the display is updated |
| `SessionSwitchers.SessionSwitcher.UpdateDisplayedSessions` | src/session_switcher.cpp:121-171 | the incremental commands, branch by branch, amount to the update of the model |
| `SessionSwitchers.SessionSwitcher.HideUninterestingSessions` | src/session_switcher.cpp:173-183 | hides exactly the tracked sessions that are neither active nor next, in any order |
| `SessionSwitchers.SessionSwitcher.HideAllSessions` | src/session_switcher.cpp:185-191 | hides exactly the tracked sessions |
| `SessionSwitchers.SessionSwitcher.ShowSession` | src/session_switcher.cpp:207-217 | called for tracked names only, so its lookup never inserts and never finds a null session |
| `SessionSwitchers.SessionSwitcher.HideSession` | src/session_switcher.cpp:219-223 | the same for hiding |
| `SessionSwitchers.SessionSwitcher.EnsureSpinnerWillBeShown` | src/session_switcher.cpp:225-238 | a tracked spinner is shown, raised only if it stands in for the active session, and no process is started; an untracked one is started and the scene left alone |
| `SessionSwitchers.SessionSwitcher.EnsureSpinnerIsNotRunning` | src/session_switcher.cpp:240-243 | terminates the process held, if any |
| `SessionSwitchers.SessionSwitcher.constructor` | src/session_switcher.cpp:27-32 | nothing tracked, no names, booting, outputs taken to be present |
| `SessionSwitchers.SceneStack.Show` | tests/unit-tests/test_session_switcher.cpp:51-54 | the session becomes visible, where it stands |
| `SessionSwitchers.SceneStack.Hide` | tests/unit-tests/test_session_switcher.cpp:56-59 | the session becomes invisible, where it stands |
| `SessionSwitchers.SceneStack.RaiseAndFocus` | tests/unit-tests/test_session_switcher.cpp:61-67 | the session moves on top, visible or not as it was |
| `DisplaySystem.DisplayFollowsPowerAndSessions` | src/mir_screen.cpp:258-283 | for any mix of power calls, configuration changes and session calls after boot: dark exactly when no output is active, else what the session calls alone lead to |
| `EventLoopTheorems.IndexAgreement` | src/dbus_event_loop.cpp:251-391 | after any run of callbacks epoll holds exactly the wake-up pipe, the watched descriptors with the union of their watches' events, and the timers; if no timer was refused, each has its timeout's interval or is disarmed |
| `EventLoopHistory.EpollFollowsHistory` | src/dbus_event_loop.cpp:251-356 | a descriptor is registered exactly if it is the pipe, or a watch or timeout with it was added and not removed since |
| `EventLoopHistory.WatchedSinceAdded` | src/dbus_event_loop.cpp:251-283 | a watch is listed exactly since it was taken, until it is removed: taken if the kernel accepts its descriptor, or some watch on it was taken before and not removed since |
| `EventLoopHistory.TimedSinceAdded` | src/dbus_event_loop.cpp:323-356 | a timeout is listed with its timer exactly since it was accepted, until it is removed |
| `EventLoopHistory.EnabledSinceSet` | src/dbus_event_loop.cpp:285-291 | a watch counts as enabled exactly since it was switched on, or from the beginning, until it is switched off |
| `EventLoopHistory.DueSinceSet` | src/dbus_event_loop.cpp:358-363 | a timeout is enabled with the interval it was last given |
| `EventLoopTheorems.EpollLooksForExactly` | src/dbus_event_loop.cpp:39-54 | after any run, epoll looks for input on a watched descriptor exactly if an enabled watch there wants to read, for output exactly if one wants to write, for hang-up and error exactly if one is enabled |
| `EventLoopTheorems.TimersRunExactly` | src/dbus_event_loop.cpp:323-381 | after any run in which no timer was refused, every listed timeout has a timer that runs with exactly its interval in nanoseconds if it is enabled, and is disarmed if not |
| `EventLoopTheorems.WatchesInOrder` | src/dbus_event_loop.cpp:220-236 | the enabled watches of a descriptor are handled in the order of the list, whatever else is listed |
| `EventLoopTheorems.MaskTranslatesBack` | src/dbus_event_loop.cpp:39-70 | translated back to flags, a descriptor's mask holds exactly what its enabled watches ask for, besides hang-up and error |
| `EventLoopTheorems.FlagsWereRequested` | src/dbus_event_loop.cpp:56-70 | the flags handed over name exactly the events reported, and each was asked for by an enabled watch on the descriptor, or is hang-up or error |
| `EventLoopTheorems.FlagsAreOwnExactly` | src/dbus_event_loop.cpp:185-189 | after any run, an enabled watch is handed no flag but its own, hang-up and error, whatever epoll reports, if and only if no enabled watch on its descriptor asks to read or write where it does not |
| `EventLoopTheorems.FlagsAreShared` | src/dbus_event_loop.cpp:185-189 | a legal run after which a watch is handed a flag that only another one asked for |
| `EventLoopTheorems.ReportIsTrueExactly` | src/dbus_event_loop.cpp:323-339 | after any run, a timeout is reported as added exactly when it is listed, if and only if a timer that is registered is also armed |
| `EventLoopTheorems.RefusedTimerStays` | src/dbus_event_loop.cpp:323-339 | a legal run in which a timeout reported as not added stays listed and in epoll |
| `EventLoopTheorems.TimerEventReachesItsTimeout` | src/dbus_event_loop.cpp:185-196 | a timer event finds no watch, and exactly the timeout that owns the timer if that is enabled |
| `EventLoopTheorems.WatchEventReachesNoTimeout` | src/dbus_event_loop.cpp:185-196 | an event on a watched descriptor finds no timeout |
| `EventLoopTheorems.TimespecIsExact` | src/dbus_event_loop.cpp:72-78 | the conversion is exact, its parts do not differ in sign, and it is valid exactly for intervals that are not negative |
| `DBusEventLoops.DBusEventLoop.AddWatch` | src/dbus_event_loop.cpp:251-270 | refines its step: the watch is appended exactly if true is returned; a refused descriptor changes nothing, one already watched is not registered again |
| `DBusEventLoops.DBusEventLoop.RemoveWatch` | src/dbus_event_loop.cpp:272-283 | refines its step: every entry of the watch goes, and its descriptor leaves epoll only if no other watch shares it |
| `DBusEventLoops.DBusEventLoop.ToggleWatch` | src/dbus_event_loop.cpp:285-291 | refines its step: the descriptor's mask is recomputed over all watches that share it |
| `DBusEventLoops.DBusEventLoop.EpollEventsForWatchFd` | src/dbus_event_loop.cpp:310-321 | the loop computes the mask |
| `DBusEventLoops.DBusEventLoop.EnabledWatchesFor` | src/dbus_event_loop.cpp:220-236 | the enabled watches of a descriptor, in order |
| `DBusEventLoops.DBusEventLoop.IsWatched` | src/dbus_event_loop.cpp:301-308 | the search finds a watch exactly if one is on the descriptor |
| `DBusEventLoops.DBusEventLoop.FindTimerFd` | src/dbus_event_loop.cpp:383-391 | the timer of the first entry for the timeout, or -1 |
| `DBusEventLoops.DBusEventLoop.FindEnabledTimeout` | src/dbus_event_loop.cpp:238-249 | the first enabled timeout with the timer, or none |
| `DBusEventLoops.DBusEventLoop.ToggleTimeout` | src/dbus_event_loop.cpp:358-362 | the timeout's timer follows its current interval and state |
| `DBusEventLoops.DBusEventLoop.constructor` | src/dbus_event_loop.cpp:82-112 | only the wake-up pipe is registered, for input |
| `DBusEventLoops.DBusEventLoop.AddTimeout` | src/dbus_event_loop.cpp:323-339 | refines its step; true exactly if the registration and the timer were both accepted, yet a refused timer leaves the entry registered |
| `DBusEventLoops.DBusEventLoop.RemoveTimeout` | src/dbus_event_loop.cpp:341-356 | refines its step: all entries of the timeout go, and their timers are closed and leave epoll |
| `DBusEventLoops.DBusEventLoop.UpdateTimerFdFor` | src/dbus_event_loop.cpp:365-381 | refines its step: the timeout's timer gets its interval, or is disarmed if the timeout is disabled or unknown to the kernel |
| `EventLoopProtocol.ActionsRunOnceInOrder` | src/dbus_event_loop.cpp:402-423 | under any interleaving: executed, then the batch, then the queue make up the history of enqueued actions |
| `EventLoopProtocol.HistoryIsPushed` | src/dbus_event_loop.cpp:402-407 | the history is what the producers pushed, in order |
| `EventLoopProtocol.NoLostWakeUp` | src/dbus_event_loop.cpp:165-207 | a filled queue has a byte in the pipe, a byte on its way, or a loop about to take it |
| `EventLoopProtocol.BytesAndPassesAddUp` | src/dbus_event_loop.cpp:165-218 | in any interleaving: every push, wake-up request and stop owes one byte, every read takes one; every return from the wait is followed by one swap and one dispatch on the connections before the next wait |
| `EventLoopProtocol.EveryActionRuns` | src/dbus_event_loop.cpp:160-212 | once no new work comes, every schedule ends within a bound; then all actions have run, or the stopped loop has left |
| `EventLoopProtocol.StopTakesEffect` | src/dbus_event_loop.cpp:214-218 | a stop is never overwritten; the loop then waits at most with a byte there or on its way, returns from at most one wait and enters no other |
| `EventLoopProtocol.StopIsKeptExactly` | src/dbus_connection_thread.cpp:23-36 | at any moment of any run, a flag cleared then stays clear whatever follows if and only if the thread has entered run; once the constructor has returned, it has |
| `EventLoopProtocol.RestIsComplete` | src/dbus_event_loop.cpp:165-207 | a reachable state in which no thread can move on its own has no byte owed, and either waits with all actions run or has left |
| `EventLoopProtocol.QuietStepsRunDown` | src/dbus_event_loop.cpp:165-207 | every step that brings no new work lowers a measure |
| `MirScreenTheorems.LastCallWins` | src/mir_screen.cpp:96-122 | after any run of calls each connected and used output has the mode of the last power call concerning it, internal ones being all types but the named; the others are untouched |
| `MirScreenTheorems.DisplayHasItsWay` | src/mir_screen.cpp:205-212 | when the display changes by itself its outputs are what it says, whatever was called before, and power calls go on from there |
| `MirScreenTheorems.InternalAndExternalMakeAll` | src/mir_screen.cpp:96-122 | internal then external is all, in either order |
| `MirScreenTheorems.NamedFiltersMakeAll` | src/unity_display_service.cpp:69-77 | "internal" powers the unnamed types and no others, "external" the named ones, any other name all; the two in turn power all |
| `MirScreenTheorems.KindsCommute` | src/mir_screen.cpp:96-122 | calls on the two kinds of output commute |
| `MirScreenTheorems.CompositorFollowsOutputs` | src/mir_screen.cpp:258-283 | after each power call the counts are a recount, and until the next one the compositor runs exactly if the call left some output connected, used and on |
| `MirScreenTheorems.RunKeepsCurrent` | src/mir_screen.cpp:176-212 | every registered handler was last told the current counts, which are a recount of the display |
| `MirScreenTheorems.RegisteredSince` | src/mir_screen.cpp:176-194 | a handler is registered exactly since its registration, until it is unregistered, whatever others do |
| `MirScreenTheorems.HandlerHearsAll` | src/mir_screen.cpp:176-212 | it is called with the counts at its registration and then with the recount after every power call and configuration change, and with nothing else |
| `MirScreenModel.CountIsCardinality` | src/mir_screen.cpp:67-87 | the counts are the numbers of outputs that are connected, used and on, of the unnamed and of the named types |
| `MirScreens.MirScreen.SetPowerMode` | src/mir_screen.cpp:258-283 | refines its step: exactly the connected, used and covered outputs change mode, the compositor restarts only if some output is active, and all handlers are told the recount |
| `MirScreens.MirScreen.ConfigurationApplied` | src/mir_screen.cpp:205-212 | recounts, and calls every registered handler once |
| `MirScreens.MirScreen.CountActiveOutputs` | src/mir_screen.cpp:67-87 | the loop's counts are the numbers of active outputs of each kind |
| `MirScreens.MirScreen.TurnOn` | src/mir_screen.cpp:164-168 | refines its step: power on for the outputs covered |
| `MirScreens.MirScreen.TurnOff` | src/mir_screen.cpp:170-174 | refines its step: power off for the outputs covered |
| `MirScreens.MirScreen.RegisterActiveOutputsHandler` | src/mir_screen.cpp:176-187 | the new handler, and no other, is called at once with the current counts |
| `MirScreens.MirScreen.UnregisterActiveOutputsHandler` | src/mir_screen.cpp:189-194 | the handler is not called any more |
| `MirScreens.MirScreen.constructor` | src/mir_screen.cpp:126-160 | starts the compositor in any case and counts the current configuration |
| `DisplayPipeline.SignalsAreAPrefix` | src/unity_display_service.cpp:93-102 | the signals emitted are, in order and without gaps, the first of the values notified |
| `DisplayPipeline.HandlerMissesNothing` | src/mir_screen.cpp:176-212 | the values notified are the current one on registering and then every change while registered |
| `DisplayPipeline.ReplicaCatchesUp` | src/unity_display_service.cpp:93-102 | with no action queued or running and no handler due, the service's value is the screen's |
| `DisplayPipeline.ReplicaAtRest` | src/dbus_event_loop.cpp:402-423 | so it is whenever the threads come to rest before a stop |
| `DisplayPipeline.ReplicaCatchesUpInTime` | src/unity_display_service.cpp:93-102 | once no new work comes, every schedule ends within a bound, and the service's value is then the one the screen had |
| `DisplayPipeline.ReplicaNeverInvents` | src/unity_display_service.cpp:96-101 | the service's value is one the screen notified, or the initial zeros |
| `DMFraming.RoundTripExactly` | src/asio_dm_connection.cpp:63-155 | any list of frames comes back exactly, however the stream is cut into chunks, if and only if each has a 16-bit id and a payload of at most 65535 bytes |
| `DMFraming.WireFormat` | src/asio_dm_connection.cpp:137-155 | a frame that fits starts with its id and its length, two bytes each, high byte first, and goes on with the payload |
| `DMFraming.ChunksDoNotMatter` | src/asio_dm_connection.cpp:63-86 | decoding chunk by chunk equals decoding the concatenation |
| `DMMessages.NameIsPayloadsSincePrevious` | src/asio_dm_connection.cpp:108-125 | a message with id 4 hands over the active name, one with id 5 the next name: the concatenation of all payloads since the previous such message; no other message hands anything over |
| `DMMessages.NameIsOwnPayload` | src/asio_dm_connection.cpp:108-125 | so it is the message's own payload if the frames in between are empty, active for id 4 and next for id 5 |
| `DMMessages.PayloadIsConserved` | src/asio_dm_connection.cpp:88-135 | names delivered, then the buffer, are exactly the payload bytes read, in order; so the numbers of bytes add up |
| `DMMessages.OutputDecodes` | src/asio_dm_connection.cpp:44-61 | what is sent decodes to one ready (id 2) and then one pong (id 1) per ping (id 0) |
| `DMMessages.EndToEnd` | src/asio_dm_connection.cpp:63-135 | from byte stream to byte stream: however the frames are cut, their payloads are delivered or buffered once and in order, and each ping is answered |
| `AsioDMConnections.AsioDMConnection.Receive` | src/asio_dm_connection.cpp:63-135 | with the reused header array and payload buffer, the effects are those of the frames decoded so far |
| `AsioDMConnections.AsioDMConnection.OnReadHeader` | src/asio_dm_connection.cpp:72-86 | as many payload bytes are awaited as the header announces, and none at all are no obstacle |
| `AsioDMConnections.AsioDMConnection.OnReadPayload` | src/asio_dm_connection.cpp:88-135 | the frame just completed is handled, and the next header awaited |
| `AsioDMConnections.AsioDMConnection.constructor` | src/asio_dm_connection.cpp:44-61 | ready is sent before anything is read |
| `AsioDMConnections.AsioDMConnection.Send` | src/asio_dm_connection.cpp:137-155 | writes the encoded frame |
| `ScreenEvents.NotificationsAreSpaced` | src/screen_event_handler.cpp:85-105 | notifications of a kind are at least 500 ms apart |
| `ScreenEvents.RateIsBounded` | src/screen_event_handler.cpp:85-105 | a window of length T sees at most T / 500 ms + 1 notifications of a kind |
| `ScreenEvents.SuppressedExactly` | src/screen_event_handler.cpp:85-105 | an activity event is suppressed exactly when one of its own kind was recorded less than 500 ms before |
| `ScreenEvents.NotifiedExactly` | src/screen_event_handler.cpp:39-105 | keys pressed and the pointer notify of changing activity, other key actions and touch of extending activity, unless the same kind was recorded less than 500 ms before; power key, volume keys and all else of neither |
| `ScreenEvents.KindsAreIndependent` | src/screen_event_handler.cpp:34-35 | what is notified of one kind does not depend on the events of the other |
| `ScreenEvents.PowerKeyIsNeverSuppressed` | src/screen_event_handler.cpp:47-57 | every stroke of the power key is reported, in order, and no other key is |
| `ScreenEvents.ScreenEventHandler.HandleEvent` | src/screen_event_handler.cpp:39-83 | refines its step, dispatching each event to the right sink or throttle; no event is consumed |
| `ScreenEvents.ScreenEventHandler.NotifyActivityChangingPowerState` | src/screen_event_handler.cpp:85-94 | refines the throttle of its kind, and leaves the other kind's time alone |
| `ScreenEvents.ScreenEventHandler.NotifyActivityExtendingPowerState` | src/screen_event_handler.cpp:96-105 | refines the throttle of its kind, and leaves the other kind's time alone |
| `InputTheorems.DevicesCarryTheSettings` | src/mir_input_configuration.cpp:61-105 | after any run each tracked mouse and touchpad carries exactly the current settings, and the two sets are disjoint |
| `InputTheorems.OnlyFittingSettings` | src/mir_input_configuration.cpp:68-93 | settings of touchpads go to touchpads only, and nothing is applied to a device that is neither |
| `InputTheorems.AbsentDevicesAreLeftAlone` | src/mir_input_configuration.cpp:61-105 | a device that is not tracked keeps what was last applied to it, over any run in which it is not added |
| `InputTheorems.HotPlugOrderIsIrrelevant` | src/mir_input_configuration.cpp:61-186 | runs with the same settings calls and the same devices present at the end leave the same configuration on every device |
| `InputTheorems.MouseSettingsAreLastAsked` | src/mir_input_configuration.cpp:107-131 | every mouse setting is the one its setter asked for last, button 0 meaning right-handed and any other left-handed |
| `InputTheorems.TouchpadPointerIsLastAsked` | src/mir_input_configuration.cpp:133-157 | the same for the touchpads' pointer settings |
| `InputTheorems.TouchpadSwitchesAreLastAsked` | src/mir_input_configuration.cpp:170-186 | the same for the touchpads' switches |
| `InputTheorems.ScrollModesAreLastAsked` | src/mir_input_configuration.cpp:159-168 | two-finger scrolling is as asked last, other scroll modes are untouched |
| `InputTheorems.BiasIsInRangeExactly` | src/mir_input_configuration.cpp:115-124 | the bias lies in [-1, 1] if and only if the speed is a number |
| `InputTheorems.BiasStaysInRange` | src/mir_input_configuration.cpp:115-124 | over any run of setters without NaN the mouse's bias lies in [-1, 1] |
| `InputTheorems.BiasFollowsSpeed` | src/mir_input_configuration.cpp:115-124 | the bias is on the straight line from -1 at zero to 1 at one, and stays at its ends beyond; a faster speed never gets a lower bias; NaN stays NaN |
| `InputTheorems.MouseAndTouchpadAreIndependent` | src/mir_input_configuration.cpp:107-186 | however the two kinds of call are mixed, mouse and touchpad each have the settings that their own calls alone lead to |
| `MirInputConfigurations.MirInputConfiguration.OnDeviceAdded` | src/mir_input_configuration.cpp:79-93 | refines its step: a touchpad is tracked as such even if it is a pointer too, and is configured at once |
| `MirInputConfigurations.MirInputConfiguration.OnDeviceRemoved` | src/mir_input_configuration.cpp:61-66 | refines its step: the device is tracked no longer, and keeps what was applied to it |
| `MirInputConfigurations.MirInputConfiguration.UpdateMice` | src/mir_input_configuration.cpp:101-105 | the loop reapplies the settings to exactly the mice, in any order |
| `MirInputConfigurations.MirInputConfiguration.UpdateTouchpads` | src/mir_input_configuration.cpp:95-99 | the loop reapplies both configurations to exactly the touchpads, in any order |
| `MirInputConfigurations.MirInputConfiguration.SetMouseCursorSpeed` | src/mir_input_configuration.cpp:115-124 | refines its step: the speed is clamped and scaled, and every mouse is reconfigured |
| `MirInputConfigurations.MirInputConfiguration.SetTwoFingerScroll` | src/mir_input_configuration.cpp:159-168 | refines its step: one scroll mode changes, and every touchpad is reconfigured |
| `MirInputConfigurations.MirInputConfiguration.SetMousePrimaryButton` | src/mir_input_configuration.cpp:107-113 | refines its step: the handedness of the mouse is set, and every mouse reconfigured |
| `MirInputConfigurations.MirInputConfiguration.SetMouseScrollSpeed` | src/mir_input_configuration.cpp:126-131 | refines its step: both scroll scales of the mouse are set, and every mouse reconfigured |
| `MirInputConfigurations.MirInputConfiguration.SetTouchpadPrimaryButton` | src/mir_input_configuration.cpp:133-139 | refines its step: the handedness of the touchpads is set, and every touchpad reconfigured |
| `MirInputConfigurations.MirInputConfiguration.SetTouchpadCursorSpeed` | src/mir_input_configuration.cpp:141-150 | refines its step: the speed is clamped and scaled, and every touchpad reconfigured |
| `MirInputConfigurations.MirInputConfiguration.SetTouchpadScrollSpeed` | src/mir_input_configuration.cpp:152-157 | refines its step: both scroll scales of the touchpads are set, and every touchpad reconfigured |
| `MirInputConfigurations.MirInputConfiguration.SetTapToClick` | src/mir_input_configuration.cpp:170-174 | refines its step: one switch changes, and every touchpad is reconfigured |
| `MirInputConfigurations.MirInputConfiguration.SetDisableTouchpadWhileTyping` | src/mir_input_configuration.cpp:176-180 | refines its step: one switch changes, and every touchpad is reconfigured |
| `MirInputConfigurations.MirInputConfiguration.SetDisableTouchpadWithMouse` | src/mir_input_configuration.cpp:182-186 | refines its step: one switch changes, and every touchpad is reconfigured |
| `MirInputConfigurations.MirInputConfiguration.ConfigureMouse` | src/mir_input_configuration.cpp:68-71 | refines its step: the device, and no other, receives the mouse settings |
| `MirInputConfigurations.MirInputConfiguration.ConfigureTouchpad` | src/mir_input_configuration.cpp:73-77 | refines its step: the device, and no other, receives both touchpad settings |
| `PngHeader.ToCString` | tools/png2header.py:31-51 | reading the printed text as C literals gives back the data, for all bytes; the text is one literal to a line, each of 80 to 83 characters of escapes but for a shorter last one |
| `PngHeader.AdjacentLiteralsJoin` | tools/png2header.py:44-46 | adjacent literals are joined, so line breaks change nothing |

## Left out

- Liveness of blocking calls: the wake-up pipe is unbounded, so a writer that blocks on a full pipe is not modelled.
- Objects of libdbus, Mir and the kernel: sessions, devices, watches and timeouts are values with an identity; what the libraries and the kernel hold about them is a field of a stand-in object.
- Mutual exclusion: calls that the code does not lock, and calls it does, are atomic steps.
- Exceptions inside a power call, and a display configuration that is not ready at construction.
- Failures of fork, process exit, reaping, and a spinner that ends by itself.
- End of file on the display manager's pipe: no further frame is read.
- Rounding of doubles: speeds are reals or one of the special values.
- Leaving a screen: the switcher's destructor, and the unregistering from an earlier screen in set_screen; the handler's first call on registration is an ordinary change of outputs.
- Integer width of the output counts, which are bounded by the number of outputs.
- The numeric values of event bits, watch flags, key codes and touchpad scroll modes, whose headers are not part of this model.
- D-Bus message building, argument parsing and replies.
- Escapes other than octal ones in the reader of C literals: the printer emits none.
- Image loading, `premultiply` and the surrounding text of `export` in tools/png2header.py.
- Drawing, the spinner program, server wiring, option handling, the blacklist, window manager forwarding and the other bus sinks.
