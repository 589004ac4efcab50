# usb-moded: the mode switch and what hangs on it

usb-moded decides which USB mode a device shows to the host it is plugged into, and programs the gadget
accordingly. This project models the parts of it that keep state over time, in Dafny, and proves what they
guarantee over every run:

* **Mode switch protocol.** The main thread decides on a mode and posts it to a worker thread through a mutex
  protected slot and an eventfd; the worker coalesces requests, switches the hardware, may fall back to
  charging, and reports through a second eventfd. `Protocol.dfy` has it as a step system in which the two
  threads interleave wherever one can see what the other does; hardware calls succeed or fail freely.
  `ProtocolInvariant.dfy` proves the inductive invariant, `ProtocolLaws.dfy` what follows from it for all
  reachable states and all runs (agreement at rest, no lost wakeup, the exact meaning of the bailout flag,
  convergence, lock safety, user ownership, enter/leave pairing), `ProtocolLimits.dfy` where the guarantees end,
  `ProtocolOutcomes.dfy` what comes of each event, of an undisturbed worker round and of a failing switch, up to
  what is announced once everything has settled. `Daemon.dfy` writes the two threads as the source does, as
  methods of a class, and proves that they take the steps of the protocol.
* **Decision.** `Policy.dfy` and `Modes.dfy`: which mode `control_rethink_usb_mode` picks, from cable, user,
  device lock, settings and client selection; `PolicyLaws.dfy` says the same once more in terms of the raw
  settings and flags, and proves that the two agree; `Visibility.dfy`: what hiding and whitelisting modes does
  to it; `ModeSettings.dfy`: the stored default mode, and how a change of the whitelist resets it.
* **Application bookkeeping.** `Appsync.dfy` and `ModeSetting.dfy`: units, network and tethering taken when a
  dynamic mode is entered, and given back when it is left. `AppsyncLaws.dfy` proves conservation over all runs,
  `AppsyncStarts.dfy` which units are started and stopped, in which order, and when entering succeeds,
  `AppsyncLimits.dfy` and `AppsyncGroups.dfy` exactly which lists lose a unit, `EndToEnd.dfy` that conservation
  holds for whatever the protocol does.
* **Settings store.** `KeyStore.dfy`, `Config.dfy`, `ConfigLaws.dfy`, `ConfigFacts.dfy`, `UserKeys.dfy`,
  `ModeLists.dfy`, `Tokens.dfy`: merge, purge, save and migration of layered key files, per-user keys, and the
  editor of comma separated lists.
* **Cable debouncer.** `Cable.dfy`: reported and active cable state, the delay between them, the suspend block
  that has to outlast it, and the paired signals; `CableLaws.dfy`: what the udev properties mean, from their
  values alone to the state acted on.
* **White space squeezer.** `Squeeze.dfy`: the in-place two pointer loop, against "the words joined by single
  spaces".

The build modelled is that of the RPM packaging (rpm/usb-moded.spec:306): APP_SYNC, MEEGOLOCK, CONNMAN,
SYSTEMD and SAILFISH_ACCESS_CONTROL on, APP_SYNC_DBUS off. `dafny verify dfyconfig.toml` checks everything.

## Findings

Where the code does not do what its own documentation or a caller would expect, the model follows the code.
Each of these is a lemma.

* Without a known user the daemon always ends in fallback charging, because nobody is permitted any mode; the
  comment at src/usb_moded-control.c:716-720 promises the global default mode
  (`Policy.UnknownUserGetsFallback`).
* The bailout flags are cleared outside the lock. A request that is flagged between the clearing and the copying
  is carried out at once, but its own switch is told to bail out (`ProtocolLimits.FreshRequestBailsOut`; the
  window is reachable). If the mode needs a daemon that is not ready at the first check, the request is lost,
  although no call failed and nothing newer was ever requested (`ProtocolLimits.FreshRequestIsLost`); outside the
  window the switch naps and succeeds (`ProtocolLimits.WaitIsRewarded`). A switch that really has been superseded
  is always told (`ProtocolLaws.BailoutMeaning`), and then waits no longer (`ProtocolLaws.SupersededWaitEnds`).
* A failing switch chooses its fallback in one critical section and commits it in another
  (src/usb_moded-worker.c:817-823 and 844-853), overwriting a request that arrived between the two. The comment
  at 809-816 says a disconnect is distinguished from a failure; a disconnect in that gap is announced as
  charging (`ProtocolLimits.DisconnectIsOverwritten`). "The last request wins" therefore holds exactly as
  `ProtocolLaws.WhichRequestWins` says, and without reservation in failure-free runs.
* `config_set_config_setting` reports SET_CONFIG_UPDATED even when the file could not be written
  (`ConfigLaws.SetPromise`).
* Adding a mode to, or removing one from, an absent whitelist creates a whitelist, so that every other mode
  stops being allowed (`Visibility.WhitelistingDecides`). An edit that changes the whitelist also resets the
  stored mode of the current user to "ask", if that mode can not be used with the whitelist then read back;
  `ModeSettings.WhitelistingResets` has the exact condition. The second reset at
  src/usb_moded-config.c:596-597 can never happen (`ModeSettings.SetModeWhitelist`).
* Application lists can lose track of a unit, which is then started and never stopped. In a list as the loader
  makes it, this happens if and only if some unit is leaky (`AppsyncGroups.GivesBackExactly`): either no entry of
  its name is a unit with a `post` of 0 or 1 (`AppsyncLimits.Leaks`), or the first entry of its name is not one
  and the search for an entry to book it on ends there, because of a dbus launched application earlier in the
  list (`AppsyncGroups.DisagreementLeaks` is an instance with namesakes that disagree on being units).
* With a connection delay above 100 ms there is no bound on how long the daemon acts on something else than
  what is reported: alternating kinds of connection keep restarting the timer
  (`Cable.DivergenceIsBoundedExactly`).

## Assumptions

* A pending timer fires when it is due; its deadline is not passed. The eventfd counters are unbounded.
* Every hardware call succeeds or fails freely; saving a file does so as a `SaveOutcome` says; starting units,
  bringing up the network and pauses as a `Luck` says. Reads of flags of the other thread are atomic.
* The suspend cover is for a daemon not started with `--fallback`.
* The modes known to the program are distinct values; any other name is a `Named` mode. "busy" as a configured
  mode name is allowed, and shown to be what it takes to announce "busy" at rest.
* Application entries loaded from files start out as "don't care" (src/usb_moded-appsync.c:206). Conservation
  assumes that the first entry of each unit's name is a unit with a `post` of 0 or 1, which follows if all
  units have such a `post` and same-named entries agree on `systemd` (`AppsyncLaws.AgreeingFits`); duplicate
  names are allowed. For the exact result entries of one name are neighbours, as the loader sorts by name
  (src/usb_moded-appsync.c:257-264, 308-312), and each entry is a unit or dbus launched (160-163).

## Model

| member | source | states |
|---|---|---|
| `ProtocolInvariant.HandleStartsAtMost` | src/usb_moded-control.c:351-382 | any main loop event either leaves modes, announcements and the worker alone or starts exactly one new request, announced as busy with the target already set |
| `ProtocolInvariant.MainKeepsCounts` | src/usb_moded-worker.c:650-668 | storing, flagging and signalling a request, each a step of its own, keep every request counted and signalled |
| `ProtocolInvariant.MainKeepsAgreement` | src/usb_moded-control.c:351-405 | main's own steps keep its modes in agreement with the worker's slot, or with a reply to come |
| `ProtocolInvariant.WorkerKeepsCounts` | src/usb_moded-worker.c:901-945 | every worker step keeps requests signalled and the bailout flag equal to "flagged since last cleared" |
| `ProtocolInvariant.WorkerKeepsPairing` | src/usb_moded-worker.c:732-807 | every worker step keeps mode data being set and left in alternation, with lists switched only while none is set |
| `ProtocolInvariant.WorkerKeepsData` | src/usb_moded-worker.c:713-860 | in every phase of a switch mode data is that phase's, and the request copied is carried out or replaced |
| `ProtocolInvariant.WorkerKeepsAgreement` | src/usb_moded-worker.c:842-855 | the worker departs from what main believes only by a fallback with a reply to come |
| `ProtocolInvariant.StepKeepsInv` | src/usb_moded-worker.c:650-998 | the invariant is inductive over all steps of both threads |
| `ProtocolInvariant.RunKeepsInv` | src/usb_moded-worker.c:650-998 | the invariant holds over all runs |
| `ProtocolLaws.QuiescentAgreement` | src/usb_moded-control.c:185-405 | when nothing is outstanding, internal, target, external and requested mode agree and the hardware is in the corresponding mode, whatever interleaved or failed before |
| `ProtocolLaws.NoLostWakeup` | src/usb_moded-worker.c:650-707 | an uncopied request is signalled, being signalled or about to be copied; an announced transition has work or a reply outstanding |
| `ProtocolLaws.NeverBusyAtRest` | src/usb_moded-control.c:351-405 | as long as no configured mode is named busy, a settled daemon does not announce it, over all runs |
| `ProtocolLaws.BailoutMeaning` | src/usb_moded-worker.c:160-169 | during a switch the bailout request is seen if and only if the switch is superseded or its request was flagged between the reset of the flag and the snapshot |
| `ProtocolLaws.SupersededWaitEnds` | src/usb_moded-common.c:415-461 | a switch superseded while it waits for a daemon fails at the next check unless the daemon is ready |
| `ProtocolLaws.WaitFailsOnlyIf` | src/usb_moded-common.c:415-461 | a wait fails only when its time is up, or the switch is superseded or was flagged in the reset window |
| `ProtocolLaws.CleanupIsNotInterrupted` | src/usb_moded-worker.c:799-807 | from the start of failure cleanup to the next iteration no run makes the worker bail out |
| `ProtocolLaws.EnterLeavePairing` | src/usb_moded-worker.c:713-860 | mode data is set and left in strict alternation on every path, application lists are switched only in between, and between switches mode data is there exactly when a dynamic mode is active, and then that mode's |
| `ProtocolLaws.QuietStepWorks` | src/usb_moded-worker.c:901-998 | every step that is not a new event decreases the remaining work, for any counter values |
| `ProtocolLaws.QuietRunsEnd` | src/usb_moded-worker.c:901-998 | without events a run has at most as many steps as there is work |
| `ProtocolLaws.Progress` | src/usb_moded-worker.c:901-998 | neither thread is ever stuck while something is outstanding |
| `ProtocolLaws.Converges` | src/usb_moded-worker.c:679-707 | from every state there is a way to rest, of at most 37 steps and the naps of two waits where the main loop is idle |
| `ProtocolLaws.SettlesInAgreement` | src/usb_moded-worker.c:842-998 | every way of leaving a reachable state alone ends, within 58 steps and the naps of three waits, in agreement of both threads and the hardware |
| `ProtocolLaws.WantedIsLastDecision` | src/usb_moded-control.c:351-382 | the mode remembered as wanted is the last one decided on in the run |
| `ProtocolLaws.FailureFreeRunsNeverOverride` | src/usb_moded-worker.c:799-840 | only the failure paths overwrite a request |
| `ProtocolLaws.LastRequestWins` | src/usb_moded-worker.c:633-707 | in a failure-free run that settles the announced and the active mode are those of the last decision, however requests coalesced |
| `ProtocolLaws.WhichRequestWins` | src/usb_moded-worker.c:817-853 | in every run that settles, the last decision is what is announced if and only if no failing switch committed a fallback after the last request was stored, or the last such fallback is that mode; a fallback so committed is announced |
| `ProtocolLaws.RethinkEffect` | src/usb_moded-control.c:563-825 | re-evaluation changes the internal mode to the decision and nothing else about who owns it, or leaves it alone |
| `ProtocolLaws.LockSafety` | src/usb_moded-control.c:563-825 | while exporting stays forbidden, no step of any run makes a mode that is not static the current one; the current one may only be kept |
| `ProtocolLaws.LockedStep` | src/usb_moded-control.c:388-405 | neither a decision nor a worker reply enters a dynamic mode while locked |
| `ProtocolLaws.LockedHardware` | src/usb_moded-worker.c:757-770 | while exporting stays forbidden the worker, unless it has just passed its policy check, puts no mode data in use over any run |
| `ProtocolLaws.OwnedStep` | src/usb_moded-control.c:409-478 | every step keeps dynamic modes owned by the current user, and a change of user leaves no dynamic mode behind |
| `ProtocolLaws.NewUserStartsStatic` | src/usb_moded-control.c:773-808 | right after a change of user only a static mode can be decided on |
| `ProtocolLaws.UserOwnership` | src/usb_moded-control.c:351-360 | ownership holds over all runs outside shutdown, diagnostic and rescue modes |
| `ProtocolLaws.OwnershipFromStart` | src/usb_moded-control.c:351-360 | from start-up on, a dynamic mode was entered under the user who is current |
| `ProtocolLaws.SurvivesUserChange` | src/usb_moded-control.c:454-478 | exactly which current modes survive a change of user: developer mode in rescue, the first mode in diagnosis, any in shutdown |
| `ProtocolLimits.FreshRequestBailsOut` | src/usb_moded-worker.c:919-942 | every dynamic request flagged between flag clearing and copying, whatever mode is in use, is entered while told to bail out |
| `ProtocolLimits.FreshRequestIsLost` | src/usb_moded-worker.c:406-438 | without any failing call, a daemon not ready at the first check then makes the daemon settle on charging, though nothing newer was requested |
| `ProtocolLimits.WaitIsRewarded` | src/usb_moded-common.c:415-461 | where the worker is not told to bail out, the same daemon getting ready during a nap lets the switch succeed |
| `ProtocolLimits.ResetWindowIsReachable` | src/usb_moded-worker.c:936-940 | the window occurs in a run from start-up |
| `ProtocolLimits.DisconnectIsOverwritten` | src/usb_moded-worker.c:809-853 | a disconnect between choosing and committing a fallback is overwritten, in every such state |
| `ProtocolLimits.CommitWindowIsReachable` | src/usb_moded-worker.c:817-853 | such a state occurs in a run from start-up |
| `ProtocolOutcomes.FallbackExactly` | src/usb_moded-worker.c:809-853 | a failing switch commits charging if and only if the request it sees when choosing is not "undefined" and charging can then be activated, and else "undefined", whatever main does in between |
| `ProtocolOutcomes.NoFallback` | src/usb_moded-worker.c:825-840 | without a failure only charging that can not be activated overrides a request |
| `ProtocolOutcomes.UndefinedIsAnnounced` | src/usb_moded-worker.c:809-823 | "undefined" stored before a failing switch has chosen charging is what every run that settles announces, however many calls fail, unless something newer is stored |
| `ProtocolOutcomes.UndefinedIsLost` | src/usb_moded-worker.c:842-853 | stored after that choice it never is: as long as charging works every such run settles on charging |
| `ProtocolOutcomes.DataSetExactly` | src/usb_moded-worker.c:757-767 | mode data is put in use exactly for a configured mode whose check that data may be exported was passed |
| `ProtocolOutcomes.LeavingExactly` | src/usb_moded-worker.c:734-742 | every switch leaves the mode in use, if any, and then takes the latest application lists in use |
| `ProtocolOutcomes.EnteredWithFreshLists` | src/usb_moded-worker.c:734-767 | over all runs, mode data is put in use only right after the lists have been switched |
| `ProtocolOutcomes.DataAtRest` | src/usb_moded-worker.c:734-767 | at rest the announced mode has its mode data in use, unless it is one of the five served by charging, "ask" among them |
| `ProtocolOutcomes.RoundExactly` | src/usb_moded-worker.c:713-945 | what an undisturbed worker round comes to for every request and every behaviour of the hardware |
| `ProtocolOutcomes.EventExactly` | src/usb_moded-control.c:351-825 | for each event: the situation it leaves, whether a mode is decided on, what is then requested, who owns it, and whether a selection is kept |
| `ProtocolOutcomes.DecisionIsReached` | src/usb_moded-control.c:351-405 | from rest, if nothing fails, what an event calls for is what every way of leaving it alone ends in, announced and in hardware |
| `ProtocolOutcomes.SelectionIsReached` | src/usb_moded-control.c:697-712 | a usable selection on an unlocked device ends up announced and active |
| `ProtocolOutcomes.UnlockingEntersDefault` | src/usb_moded-control.c:480-489 | unlocking brings the user's default mode, announced and active |
| `ProtocolOutcomes.UnpluggingIsAnnounced` | src/usb_moded-control.c:601-622 | unplugging at rest settles on "undefined", whatever fails |
| `Daemon.EventIsRun` | src/usb_moded-control.c:351-382 | a main loop event as the code handles it, uninterrupted, is a run of the protocol |
| `Daemon.IterationIsRun` | src/usb_moded-worker.c:901-945 | a worker iteration as the code performs it is a run of the protocol |
| `Daemon.EventKeepsInv` | src/usb_moded-control.c:351-382 | handling a whole event keeps the invariant |
| `Daemon.RoundKeepsInv` | src/usb_moded-worker.c:901-945 | a whole worker round keeps the invariant, consumes all wakeups and always ends in a reply |
| `Daemon.SingleChoiceIsCharging` | src/usb_moded-control.c:725-743 | a mode list without a comma is plain charging, so asking is skipped exactly when no dynamic mode is available |
| `Daemon.RenderedFields` | src/usb_moded-common.c:575-640 | a rendered list, cut at its commas, gives back all names in order |
| `Daemon.GetModeList` | src/usb_moded-common.c:575-640 | the loop builds the supported or the available modes of the user in order, then charging |
| `Daemon.ModeSwitch.constructor` | src/usb_moded-worker.c:1115-1134 | starts in the protocol's initial state |
| `Daemon.ModeSwitch.RequestHardwareMode` | src/usb_moded-worker.c:650-668 | stores, flags and signals a request unless it is the one already stored |
| `Daemon.ModeSwitch.Wakeup` | src/usb_moded-worker.c:1149-1159 | raises the bailout flag before adding to the counter |
| `Daemon.ModeSwitch.NotifyCb` | src/usb_moded-worker.c:948-1011 | takes all replies at once and reports the requested mode |
| `Daemon.ModeSwitch.SetExternalMode` | src/usb_moded-control.c:185-222 | announces a change, and keeps the target mode in step outside transitions |
| `Daemon.ModeSwitch.UpdateExternalMode` | src/usb_moded-control.c:232-240 | announces the internal mode |
| `Daemon.ModeSwitch.SetTargetMode` | src/usb_moded-control.c:249-273 | sets the target mode and nothing else |
| `Daemon.ModeSwitch.SetUsbMode` | src/usb_moded-control.c:351-382 | refines the protocol's request |
| `Daemon.ModeSwitch.ModeSwitched` | src/usb_moded-control.c:388-405 | refines the protocol's handling of a reply |
| `Daemon.ModeSwitch.RethinkUsbMode` | src/usb_moded-control.c:563-825 | refines the protocol's re-evaluation, selection included |
| `Daemon.ModeSwitch.DecideMode` | src/usb_moded-control.c:596-815 | early exits, rescue, diagnosis, start-up and shutdown in their order of priority |
| `Daemon.ModeSwitch.PreferredMode` | src/usb_moded-control.c:697-723 | the valid and permitted selection, else the setting |
| `Daemon.ModeSwitch.PromptedMode` | src/usb_moded-control.c:725-743 | asking needs a user and a choice; proved from the rendered list the code inspects |
| `Daemon.ModeSwitch.FilteredMode` | src/usb_moded-control.c:745-808 | permission, ownership and lock filters in sequence |
| `Daemon.ModeSwitch.GetModeSetting` | src/usb_moded-config.c:394-412 | the stored mode, or "ask" after resetting an unusable one |
| `Daemon.ModeSwitch.SelectMode` | src/usb_moded-control.c:313-325 | accepted exactly if it became the internal mode |
| `Daemon.ModeSwitch.UserChanged` | src/usb_moded-control.c:454-478 | refines the user change event |
| `Daemon.ModeSwitch.PendingUserChangeCb` | src/usb_moded-control.c:409-420 | refines the end of the pending user change |
| `Daemon.ModeSwitch.DeviceLockChanged` | src/usb_moded-control.c:482-491 | refines the lock event |
| `Daemon.ModeSwitch.DeviceStateChanged` | src/usb_moded-control.c:495-501 | refines the device state event |
| `Daemon.ModeSwitch.SettingsChanged` | src/usb_moded-control.c:505-510 | refines the settings event |
| `Daemon.ModeSwitch.SetInitDone` | src/usb_moded.c:667-682 | ends rescue mode and re-evaluates on a change only |
| `Daemon.ModeSwitch.SetEnabled` | src/usb_moded-control.c:530-538 | refines enabling |
| `Daemon.ModeSwitch.SetRescueOff` | src/usb_moded-dbus.c:947-954 | ends rescue mode without re-evaluating the mode |
| `Daemon.ModeSwitch.SetCableState` | src/usb_moded-control.c:831-849 | re-evaluates on a change only |
| `Daemon.ModeSwitch.ThreadRound` | src/usb_moded-worker.c:901-945 | read, clear both flags, execute: refines the worker's steps up to waiting again |
| `Daemon.ModeSwitch.Execute` | src/usb_moded-worker.c:679-707 | copies the request once and switches or just reports |
| `Daemon.ModeSwitch.SwitchToMode` | src/usb_moded-worker.c:713-860 | all paths through leaving, entering, cleanup, charging and commit refine the worker's steps |
| `Daemon.ModeSwitch.EnterMode` | src/usb_moded-worker.c:757-797 | policy check, lookup, mode data and hardware setup in this order |
| `Daemon.ModeSwitch.SetUp` | src/usb_moded-worker.c:770-795 | calls before the wait, the wait, calls after it: refines the worker's steps |
| `Daemon.ModeSwitch.AwaitReady` | src/usb_moded-common.c:415-461 | the loop of checks and naps, ended by readiness, time or bailing out |
| `Daemon.ModeSwitch.CleanUpFailure` | src/usb_moded-worker.c:799-825 | handled flag first, then leaving, then the choice of fallback |
| `Daemon.ModeSwitch.SwitchToCharging` | src/usb_moded-worker.c:827-840 | a failing charging setup overrides whatever was chosen |
| `Daemon.ModeSwitch.Commit` | src/usb_moded-worker.c:842-860 | records the outcome under the lock, then notifies |
| `PolicyLaws.PermittedExactly` | src/usb_moded.c:397-436 | root may use all modes, an unknown user none, and a configured one takes membership in the group set for it or in sailfish-system |
| `PolicyLaws.ListedExactly` | src/usb_moded-common.c:575-640 | which modes are supported and which available, from the raw lists |
| `PolicyLaws.ListedInOrder` | src/usb_moded-common.c:575-640 | in the order configured |
| `PolicyLaws.UnlockedDecision` | src/usb_moded-control.c:697-791 | on an unlocked device the usable selection is decided on, or else the usable stored mode, "ask" for one that is not usable and charging for none, as far as it is granted; all in terms of raw settings |
| `PolicyLaws.LockedDecisionExactly` | src/usb_moded-control.c:786-808 | on a locked device that, if it is static or the current mode and not "ask", and else fallback charging |
| `PolicyLaws.DynamicExactly` | src/usb_moded-control.c:697-791 | exactly when a dynamic mode is decided on while unlocked |
| `PolicyLaws.AskExactly` | src/usb_moded-control.c:725-743 | exactly when the user is asked |
| `PolicyLaws.SelectionIsObeyed` | src/usb_moded-control.c:697-712 | a valid and permitted selection is the decision |
| `PolicyLaws.LookupExactly` | src/usb_moded-config.c:394-412 | the lookup of the default mode writes "ask" under the user's key, if the default is not usable and the user may be asked, and nothing else |
| `PolicyLaws.Priorities` | src/usb_moded-control.c:596-691 | charger, no pc, rescue, diagnosis, start-up and shutdown override users, in this order |
| `Policy.ListedModes` | src/usb_moded-common.c:596-627 | contains exactly the configured modes that are permitted, not hidden and, in the list of available ones, whitelisted |
| `Policy.UnknownUserGetsFallback` | src/usb_moded.c:397-436 | with no known user every connection to a pc ends in fallback charging |
| `Policy.LockedDecision` | src/usb_moded-control.c:786-808 | while locked or during a user change the decision is static or the current mode |
| `Policy.KeptWhileLocked` | src/usb_moded-control.c:773-808 | a dynamic mode stays while locked if and only if the same user still prefers it and is permitted |
| `Policy.InvalidModeIsLeft` | src/usb_moded-control.c:695-724 | a mode taken off the whitelist is not decided on any more, not even kept while locked |
| `Policy.WantedIsKnown` | src/usb_moded-control.c:563-825 | a decision is static, ask, developer mode or a configured mode |
| `Modes.MapModeToHardware` | src/usb_moded-common.c:193-206 | static modes and ask are served by charging, all others by themselves |
| `Modes.NameRoundTrip` | src/usb_moded-modes.h:51-96 | a mode is read back from its name, unless it is a configured one with a name the program itself knows |
| `Modes.MapModeToExternal` | src/usb_moded-common.c:209-222 | no mode is renamed for D-Bus |
| `Visibility.SetModeHidden` | src/usb_moded-config.c:541-585 | readers see the edited hidden list and nothing else changed, if it could be saved; updated means the view would change |
| `Visibility.HidingHides` | src/usb_moded-common.c:575-640 | hiding takes exactly that mode from every user and either list; unhiding returns it to exactly those who may have it |
| `Visibility.WhitelistingDecides` | src/usb_moded-config.c:609-622 | which modes are available after allowing or disallowing one, with and without a previous whitelist |
| `ModeSettings.IsValidMode` | src/usb_moded-common.c:536-565 | charging, or a configured mode that the whitelist read back allows |
| `ModeSettings.IsPermitted` | src/usb_moded.c:397-436 | root, no unknown user, and for configured modes membership in the configured group |
| `ModeSettings.SetModeSetting` | src/usb_moded-config.c:462-476 | refuses unknown and forbidden modes without writing, else stores under the user's key |
| `ModeSettings.GetModeSetting` | src/usb_moded-config.c:394-412 | the stored mode or charging; one that can not be used is replaced by "ask", and the file rewritten only if the user may choose "ask" |
| `ModeSettings.AcceptedModeIsDefault` | src/usb_moded-config.c:462-478 | a mode that is accepted is from then on the user's default mode |
| `ModeSettings.LookupIsVisible` | src/usb_moded-config.c:394-412 | what readers see after such a lookup is what the decision code assumes |
| `ModeSettings.SetModeWhitelist` | src/usb_moded-config.c:587-607 | both writes in order: the whitelist and, only if that was updated, the reset of the mode setting; re-evaluation exactly if updated; the second reset is never reached |
| `ModeSettings.SetModeInWhitelist` | src/usb_moded-config.c:609-622 | the same for the edited whitelist |
| `ModeSettings.WhitelistingIsVisible` | src/usb_moded-config.c:587-622 | nothing if the whitelist stays the same; else readers see the edited whitelist, if it could be written, and no other change but the reset mode setting of the current user |
| `ModeSettings.WhitelistingResets` | src/usb_moded-config.c:587-622 | exactly what allowing or disallowing a mode makes of the stored mode on disk, for every outcome of the two writes |
| `Appsync.AppLists.SwitchConfiguration` | src/usb_moded-appsync.c:328-343 | takes a pending list in use, else changes nothing |
| `Appsync.AppLists.LoadConfiguration` | src/usb_moded-appsync.c:380-415 | replaces an empty current list at once, otherwise sets the new list aside |
| `Appsync.AppLists.MarkActiveLocked` | src/usb_moded-appsync.c:630-670 | the loop with its early exits; -1 exactly if no entry has the name |
| `Appsync.AppLists.ActivatePre` | src/usb_moded-appsync.c:426-540 | prepares all entries, then starts units until one fails |
| `Appsync.AppLists.ActivatePost` | src/usb_moded-appsync.c:551-617 | starts the units of the second phase until one fails |
| `Appsync.AppLists.StopApps` | src/usb_moded-appsync.c:768-793 | stops the active units of a phase |
| `Appsync.AppLists.DeactivatePost` | src/usb_moded-appsync.c:806-811 | stops the second phase only |
| `Appsync.AppLists.DeactivateAll` | src/usb_moded-appsync.c:824-855 | second phase first, then the first; all entries if forced |
| `ModeSetting.EnterDynamicMode` | src/usb_moded-modesetting.c:703-872 | what entering takes up to the point it fails, network retries included |
| `ModeSetting.LeaveDynamicMode` | src/usb_moded-modesetting.c:874-972 | what leaving gives back, in order |
| `AppsyncLaws.MarkedEffect` | src/usb_moded-appsync.c:630-670 | marking activates entries of that name only, and the first of them even where the search is cut short |
| `AppsyncLaws.PreActivatedEffect` | src/usb_moded-appsync.c:426-540 | after the first phase, failed or not, every running unit has an active entry |
| `AppsyncLaws.PostLaunchedEffect` | src/usb_moded-appsync.c:551-617 | the same for the second phase |
| `AppsyncLaws.StoppedFromEffect` | src/usb_moded-appsync.c:768-793 | a unit loses its last active entry only with a stop issued, and no entry of the phase stays active |
| `AppsyncLaws.StoppedAllRests` | src/usb_moded-appsync.c:824-855 | afterwards no application of either phase is active |
| `AppsyncLaws.OpKeepsInv` | src/usb_moded-appsync.c:328-855 | the bookkeeping invariant is kept by every operation of either thread |
| `AppsyncLaws.DroppedSince` | src/usb_moded-appsync.c:768-793 | a resource taken and not held any more has a later event that dropped it |
| `AppsyncLaws.Conservation` | src/usb_moded-modesetting.c:874-972 | over all runs, once a mode is left every unit, network and tethering taken has been told to stop since, and no application of either phase, unit or not, is active; none at all if all loaded entries have a phase |
| `AppsyncLaws.ReloadForgetsNothing` | src/usb_moded-appsync.c:328-415 | a reload or switch of lists, at any moment of any run, discards no active application of either phase, and none at all if all loaded entries have a phase |
| `AppsyncLaws.EnterIsRun` | src/usb_moded-modesetting.c:703-872 | entering, however far it gets, is a run of those operations |
| `AppsyncLaws.LeaveIsRun` | src/usb_moded-modesetting.c:874-972 | leaving is a run that completes the teardown |
| `AppsyncStarts.FirstPhaseStarts` | src/usb_moded-appsync.c:426-540 | before enumeration exactly the units of the mode with post 0 are started, in list order, up to the first that fails |
| `AppsyncStarts.FirstPhaseBooks` | src/usb_moded-appsync.c:426-540 | and the states of all entries afterwards: the first entry of every name handled is active, only entries of such names are, and inactive or "don't care" the others by mode |
| `AppsyncStarts.SecondPhaseStarts` | src/usb_moded-appsync.c:551-617 | after enumeration exactly the units of the mode with any other post |
| `AppsyncStarts.StartsAreDue` | src/usb_moded-appsync.c:488-540 | a start is issued for a name if and only if a due unit of the mode and phase has it |
| `AppsyncStarts.PhaseStops` | src/usb_moded-appsync.c:768-793 | stopping a phase stops its active units in order and leaves all other entries alone |
| `AppsyncStarts.EnteringSucceeds` | src/usb_moded-modesetting.c:703-872 | exactly when entering succeeds: units of the second phase do not matter |
| `AppsyncStarts.EnteringExactly` | src/usb_moded-modesetting.c:703-872 | every event of a successful entering, in order |
| `AppsyncStarts.LeavingExactly` | src/usb_moded-modesetting.c:874-972 | every event of leaving, in order |
| `AppsyncStarts.LeavingMassStorage` | src/usb_moded-modesetting.c:874-972 | leaving a mass storage mode gives nothing back, as it took nothing |
| `AppsyncStarts.NetworkTries` | src/usb_moded-modesetting.c:803-827 | the network is tried up to four times, as long as it fails and pauses are not cut short |
| `AppsyncStarts.ReloadTakesEffect` | src/usb_moded-appsync.c:328-415 | the list loaded last is the one in use after the next switch |
| `AppsyncGroups.GivesBackExactly` | src/usb_moded-appsync.c:426-670 | of a list in the loader's order, every enter and leave gives everything back if and only if none of its units is leaky |
| `AppsyncGroups.MarkedWhole` | src/usb_moded-appsync.c:637-659 | with nothing inactive of the phase before them, all entries of a name are marked |
| `AppsyncGroups.MarkedFirst` | src/usb_moded-appsync.c:637-659 | with something inactive of the phase before them, only the first is |
| `AppsyncGroups.EnteredIsCovered` | src/usb_moded-modesetting.c:703-872 | without leaky units, however far entering gets, every unit started has an active entry that gets it stopped |
| `AppsyncGroups.LeakyLeaks` | src/usb_moded-appsync.c:551-670 | a leaky unit is started and never stopped when its mode is entered and left |
| `AppsyncLimits.GivesBackWhenOrderly` | src/usb_moded-appsync.c:551-617 | of a list in any order whose namesakes are orderly, everything is given back if and only if the first entry of each unit's name is a unit whose post setting is 0 or 1 |
| `AppsyncLimits.GivesBackWithoutDuplicates` | src/usb_moded-appsync.c:551-617 | without duplicate names, if and only if each unit's post setting is 0 or 1 |
| `AppsyncLimits.Leaks` | src/usb_moded-appsync.c:768-793 | a unit of which no namesake is scheduled for either phase is started and never stopped |
| `AppsyncGroups.DisagreementLeaks` | src/usb_moded-appsync.c:643-658 | in the loader's order, namesakes that disagree on being units leave one running, though it has an entry with a phase |
| `EndToEnd.HistoryIsRun` | src/usb_moded-worker.c:732-770 | the enter and leave procedures, driven by the worker's history of mode data and list switches, make a bookkeeping run with that history |
| `EndToEnd.NothingLeftBehind` | src/usb_moded-worker.c:713-860 | in every reachable state of the protocol without mode data in use, every bookkeeping run with the same changes of mode data and list switches, reloads anywhere, has dropped all it took and has no application of either phase active |
| `KeyStore.MergeKey` | src/usb_moded-config.c:724-735 | copies one value if there is one |
| `KeyStore.MergeGroup` | src/usb_moded-config.c:744-755 | overrides one group |
| `KeyStore.MergeData` | src/usb_moded-config.c:763-774 | the nested loops compute the override, without creating empty groups |
| `KeyStore.PurgeData` | src/usb_moded-config.c:776-803 | the nested loops remove exactly the shared values |
| `KeyStore.PurgeEmptyGroups` | src/usb_moded-config.c:805-821 | removes exactly the empty groups |
| `KeyStore.ViewOfMerged` | src/usb_moded-config.c:763-774 | a reader sees the source on top of the destination |
| `KeyStore.ViewOfPurged` | src/usb_moded-config.c:776-803 | a reader sees the difference |
| `KeyStore.CanonicalByView` | src/usb_moded-config.c:963-995 | files without empty groups are determined by what they say |
| `Config.Store.LoadStaticConfig` | src/usb_moded-config.c:859-881 | built-in default, then the files in order |
| `Config.Store.LoadLegacyConfig` | src/usb_moded-config.c:883-936 | used only if readable and there is no dynamic file; a mode of "ask" is dropped |
| `Config.Store.LoadDynamicConfig` | src/usb_moded-config.c:956-961 | the dynamic file on top |
| `Config.Store.RemoveLegacyConfig` | src/usb_moded-config.c:938-954 | removes the legacy file if the file system lets it |
| `Config.Store.SaveDynamicConfig` | src/usb_moded-config.c:963-995 | writes unless the text is the same; the legacy file goes only after a successful write |
| `Config.Store.GetSettings` | src/usb_moded-config.c:1038-1046 | static files overridden by the dynamic one |
| `Config.Store.GetConfString` | src/usb_moded-config.c:269-280 | what the layered view says |
| `Config.Store.SetConfigSetting` | src/usb_moded-config.c:414-450 | new disk contents and result in all cases, failures to write included |
| `Config.Store.Init` | src/usb_moded-config.c:1003-1036 | new disk contents after start-up |
| `Config.EffectiveIsLayered` | src/usb_moded-config.c:1038-1046 | the view of all settings is the static view overridden by the dynamic file |
| `ConfigLaws.SetPromise` | src/usb_moded-config.c:414-450 | a saved set is read back as the old view with that key updated and nothing else; updated is reported exactly if that differs, also where nothing could be written and nothing changes |
| `ConfigLaws.SettingIsLeast` | src/usb_moded-config.c:776-821 | what is written is the least difference, in canonical form |
| `ConfigLaws.SetIsMinimal` | src/usb_moded-config.c:963-995 | the saved file is contained in every dynamic content with the same effect |
| `ConfigLaws.SavedFileIsCanonical` | src/usb_moded-config.c:963-995 | the saved file depends only on the view wanted, not on how it came about |
| `ConfigLaws.SetTwice` | src/usb_moded-config.c:414-450 | setting twice saves the same file as once |
| `ConfigLaws.SetsCommute` | src/usb_moded-config.c:414-450 | sets of different keys in either order save the same file |
| `ConfigLaws.MigratedIsLeast` | src/usb_moded-config.c:1003-1036 | start-up writes the least file with the intended effect |
| `ConfigLaws.InitPromise` | src/usb_moded-config.c:883-1036 | start-up makes static overridden by legacy (minus an "ask" mode) effective, or keeps the view where a dynamic file exists |
| `ConfigLaws.InitTwice` | src/usb_moded-config.c:1003-1036 | a second start-up changes nothing |
| `ConfigFacts.StaticIsLastFile` | src/usb_moded-config.c:859-881 | of each setting the static view has the value of the last readable file that has one; without one "ask" for the mode and nothing else |
| `ConfigFacts.EffectiveIsLastFile` | src/usb_moded-config.c:1038-1046 | the same of all settings, with the dynamic file before the static ones |
| `ConfigFacts.InitIsTakenOver` | src/usb_moded-config.c:883-1036 | what start-up makes of each setting, value by value |
| `ConfigFacts.SaveExactly` | src/usb_moded-config.c:938-995 | when the dynamic file is written and the legacy one removed, for every outcome of the file system |
| `ConfigFacts.InitLosesNothing` | src/usb_moded-config.c:938-1036 | whatever fails, the legacy file goes only once its values are in effect |
| `ConfigFacts.DecimalReadsBack` | src/usb_moded-config.c:282-293 | the suffix of a user's key reads back as the uid and has no leading zero |
| `ConfigFacts.KeysOfUsers` | src/usb_moded-config.c:282-293 | uids 100001 to 999999 have a key of their own, all others share one |
| `UserKeys.DecimalInjective` | src/usb_moded-config.c:282-293 | different uids have different decimal suffixes |
| `UserKeys.UserKeysDiffer` | src/usb_moded-config.c:282-293 | keys of additional users differ from each other and from the shared key |
| `UserKeys.GetUserConfString` | src/usb_moded-config.c:295-308 | own value, else the shared one |
| `UserKeys.SetUserConfigSetting` | src/usb_moded-config.c:452-460 | stores under the user's key, or the shared one for everybody else |
| `UserKeys.UserClear` | src/usb_moded-config.c:1119-1140 | refuses other uids, removes the user's key from the dynamic file |
| `UserKeys.SetIsolation` | src/usb_moded-config.c:452-460 | an additional user's setting is read back by that user and changes no other user's |
| `UserKeys.SharedSetting` | src/usb_moded-config.c:452-460 | a shared setting reaches exactly the users without one of their own |
| `UserKeys.ClearPromise` | src/usb_moded-config.c:1119-1140 | clearing restores the static or shared value for that user and nobody else's changes |
| `ModeLists.MakeModesString` | src/usb_moded-config.c:480-539 | the loop with its flipping flag computes the edited list |
| `ModeLists.ModeInList` | src/usb_moded-common.c:480-495 | found exactly if it is one of the tokens |
| `ModeLists.ReadBack` | src/usb_moded-config.c:480-539 | splitting the stored string gives the edited tokens |
| `ModeLists.EditPromise` | src/usb_moded-config.c:480-539 | the other nonempty tokens in order, with the mode exactly once, where it was first or else at the end, or never |
| `ModeLists.EditsCompose` | src/usb_moded-config.c:480-539 | including is idempotent, and excluding after including is excluding |
| `ModeLists.IncludedModeIsFound` | src/usb_moded-common.c:480-495 | exactly which names are found again after being added |
| `ModeLists.OddNames` | src/usb_moded-config.c:480-539 | what editing does with an empty name or one with a comma |
| `Tokens.FieldsOfJoin` | src/usb_moded-config.c:497-528 | splitting undoes joining of comma-free tokens |
| `Cable.Debounced` | src/usb_moded-udev.c:865-976 | reported and active state differ only while a timer runs; a disconnect is acted on at once |
| `Cable.SuspendCoversDelay` | src/usb_moded-udev.c:1062-1214 | suspend stays blocked beyond the deadline of a connection waiting to be acted on, for any delay setting, by the daemon's timer and by the kernel's wakelock |
| `Cable.SignalsArePaired` | src/usb_moded-udev.c:887-930 | connect and disconnect signals alternate and their difference tells the active state, per kind |
| `Cable.DivergenceIsUnbounded` | src/usb_moded-udev.c:932-976 | with a longer delay, runs of any length in which a connection is never acted on |
| `Cable.DivergenceIsBoundedExactly` | src/usb_moded-udev.c:932-976 | divergence is bounded by 100 ms for delays up to that, and by nothing for longer ones |
| `Cable.Clamped` | src/usb_moded.c:456-471 | the delay lies between 0 and 4000 ms and is kept if it already did |
| `Cable.StepKeepsInv` | src/usb_moded-udev.c:796-976 | the debouncer's invariant is inductive |
| `Cable.Listener.SetCableConnectionDelay` | src/usb_moded.c:456-471 | stores the clamped delay |
| `Cable.Listener.StartTimer` | src/usb_moded-udev.c:823-839 | a timer with the same delay keeps its deadline, another one is replaced |
| `Cable.Listener.StopTimer` | src/usb_moded-udev.c:810-821 | no timer afterwards |
| `Cable.Listener.TimerCb` | src/usb_moded-udev.c:796-808 | a due timer makes the reported state active |
| `Cable.Listener.Set` | src/usb_moded-udev.c:865-885 | stops the timer, and on a change signals and tells the control code |
| `Cable.Listener.Changed` | src/usb_moded-udev.c:887-930 | disconnect signal of the previous state, then connect signal of the new one |
| `Cable.Listener.FromUdev` | src/usb_moded-udev.c:932-976 | disconnects act at once, connections after the delay for their kind |
| `Cable.Listener.EvaluateState` | src/usb_moded-udev.c:1062-1214 | the chain of overrides means what `Meaning` says, and blocks suspend first if the connection is news |
| `Cable.Listener.OverriddenProps` | src/usb_moded-udev.c:1090-1120 | android state overrides extcon state overrides charger properties |
| `Cable.Listener.AcquireWakelock` | src/usb_moded-common.c:324-337 | the kernel ends the block after 10000 ms at the latest |
| `Cable.Listener.DelaySuspend` | src/usb_moded.c:540-556 | suspend is blocked for 5000 ms from now, and the wakelock renewed |
| `Cable.Listener.AllowSuspend` | src/usb_moded.c:515-528 | suspend is not blocked |
| `CableLaws.PropsDecide` | src/usb_moded-udev.c:1087-1214 | from which values of the four properties a pc, a charger, a disconnect or nothing is concluded |
| `CableLaws.SuspendExactly` | src/usb_moded-udev.c:1132-1149 | suspend is blocked anew exactly if the values contradict what the control code was told |
| `CableLaws.DelayExactly` | src/usb_moded-udev.c:932-976 | when a new conclusion takes effect |
| `CableLaws.NothingNewExactly` | src/usb_moded-udev.c:932-976 | being told the same again leaves a running timer alone |
| `CableLaws.EvaluationIsActedOn` | src/usb_moded-udev.c:796-1214 | over all runs: once the values say so and the delay is over, the daemon acts on a pc, charger or disconnect |
| `Squeeze.Strip` | src/usb_moded-modesetting.c:160-178 | in place, the string becomes its words joined by single spaces, and bytes behind it stay |
| `Squeeze.UdevStrip` | src/usb_moded-udev.c:199-218 | the same, and nothing for no string |
| `Squeeze.CopyBlack` | src/usb_moded-modesetting.c:160-178 | one word is moved down, the write index never passing the read index |
| `Squeeze.SqueezeIsIdempotent` | src/usb_moded-modesetting.c:160-178 | squeezing keeps the words, and twice is once |
| `Squeeze.SqueezeFixesTidy` | src/usb_moded-udev.c:199-218 | a text is left alone if and only if it has no leading, trailing or repeated white space and none but spaces |
| `Squeeze.SqueezedBytes` | src/usb_moded-modesetting.c:160-178 | every byte other than control characters and spaces is kept, in order; of those only single spaces between such bytes are left |
| `Squeeze.OutIsSqueezed` | src/usb_moded-modesetting.c:160-178 | what the two pointer loop emits byte by byte is the specification |

## Left out

- ProtocolLaws.LastRequestWins: for failure-free runs only; in general a later request can be overwritten by the fallback of a failing switch, and ProtocolLaws.WhichRequestWins says exactly when.
- ProtocolOutcomes.DecisionIsReached: from rest and without failures, as ProtocolOutcomes.SelectionIsReached and ProtocolOutcomes.UnlockingEntersDefault; what failures make of it is ProtocolOutcomes.FallbackExactly and ProtocolLaws.WhichRequestWins.
- ProtocolLaws.LockSafety: not for rescue and diagnostic modes, which enter modes while locked by design; ProtocolLaws.LockedHardware, on what the worker does, includes diagnosis.
- ProtocolLaws.UserOwnership: not during shutdown, diagnosis and rescue; ProtocolLaws.SurvivesUserChange lists what happens there.
- AppsyncGroups.GivesBackExactly: for lists whose entries of one name are neighbours; names that differ only in letter case compare as equal when the loader sorts, so three such entries can be interleaved.
- AppsyncLaws.Conservation: over runs with reloads it asks the first entry of each unit's name to be a unit with a phase; the exact condition is proved for entering and leaving a mode with one list.
- Daemon.ModeSwitch.ThreadRound: the class runs one thread at a time; interleavings are those of the step system, which its methods refine.
- Daemon.ModeSwitch.EnterMode: kernel module, mounting and gadget setup are calls that succeed or fail, before and after one wait of at most 120 s (src/usb_moded-worker.c:298); pauses while the network is brought up are in ModeSetting.EnterDynamicMode.
- Daemon.ModeSwitch.SetEnabled: only enabling, as the program never disables mode changes (src/usb_moded.c:1287 is the only call).
- ModeSettings.SetModeWhitelist: re-evaluation is reported, not performed; as an event it is Daemon.ModeSwitch.SettingsChanged. Signals sent on the way are not modelled.
- Daemon.ModeSwitch.GetModeSetting: works on the settings a reader sees; ModeSettings.GetModeSetting has the files behind them, and ModeSettings.LookupIsVisible connects the two.
- Config.Store.SaveDynamicConfig: key files are maps; comments, key order, escaping and the discovery of static files by globbing are not modelled. Whether the file already holds the text to be written is an input, as it depends on formatting.
- Squeeze.Strip: bytes are unbounded integers; signed and unsigned chars differ only in which of them count as black.
- D-Bus plumbing, introspection and argument checks of the D-Bus methods; signals are kept as traces only where paired.
- Writes to sysfs, configfs, android_usb, kernel modules, mounting, iptables and dhcp: success or failure.
- `network_update`: it replaces the worker's mode data from the main thread, outside the protocol.
- `umudev_quit` and a second `umudev_init`: they cancel the cable timer without resetting the reported state; the debouncer is modelled for one listener lifetime, without `--fallback`.
- The session bus launcher (APP_SYNC_DBUS): not built, and marked in the source as needing revision for threads.
- Saturation of the eventfd counters, thread start and cancellation, memory management, logging, option parsing.
- Listeners for lock, user session, device state, MAC address and triggers: only what they tell the control code.
