# Autoscaler, call graph and averages: a verified model

This project models the parts of the platform that decide when a function runs and when it
does not, and the statistics those decisions rest on.

- **The autoscaler** (`autoscaler/autoscaler.go`). One entry per function with its five
  lifecycle states, its in-flight counter, its rotating `changed` channel and its one-shot
  `unregistered` channel. `Lifecycle` states each critical section as a function on values;
  `EntryObject` is the entry as a class whose methods update it in place, each proved equal
  to its section; `Protocol` lets any number of threads run these sections, channel
  operations and host calls in any order against a registry that maps names to entries.
  `Invariant` holds in every state of every run, and `Safety`, `Settling`, `HostRuntime`,
  `NamedRuntime`, `IdleWindow`, `Tokens` and `Callbacks` say what follows. `Answers` and
  `Requests` say what each caller is told, in terms of the containers, the requests in flight
  and the transitions under way, without naming the sections. `ScanPool` adds the
  monitor, its bounded workers, `Start` and `Stop`, and projects every run with them onto a
  run of the protocol; `ScanPoolSafety`, `ScanPoolJobs`, `ScanPoolProgress`,
  `ScanPoolRuns` and `ScanPoolNames` say what holds with them. `Limits` holds concrete runs for the hypotheses
  the theorems carry.
- **The call-graph tracker** (`callgraph/tracker.go`, `callgraph/types.go`). `CallGraph` is
  the tracker as a state machine on values; `Tracker` is the class with the loops of the
  source, each method proved equal to its operation. `Attribution` reads off the reported
  events alone which execution is known and what a call or an end is charged; with it
  `TrackerHistory`, `EdgeHistory`, `FunctionHistory`, `ExportImport`, `ExportHistory` and
  `Prewarm` prove what the tables, the exported graph and the prewarm targets mean after any
  sequence of operations. `EdgeKeys` is about the concatenated edge key.
- **The averages** (`callgraph/averaging.go`): `Averaging`, with 64-bit wrap-around written
  out for the ring buffer and real arithmetic for the exponential average.
- **Two loops**: the prime sieve of the IoT workflow (`Sieve`) and the worklist search of
  the benchmark evaluation (`Reachability`).

## How the autoscaler is modelled

A step is one critical section, one channel operation, one clock reading outside a lock, or
the return of a host call. Between two steps a thread is only its program counter: what it
has looked up, the generation of the channel it captured, and what it does next. Host calls
succeed or fail as they like. The clock only moves forward. Where the source offers a choice
(which ready channel a `select` takes, the order of a map iteration, which worker gets a
job) the model allows every choice. Threads and entries are never forgotten, so a thread can
still hold an entry that is no longer registered, as in the source.

## What the proofs bring to light

The code is modelled as it is. Where a promise needs a hypothesis, the hypothesis is a named
predicate and a run or an equivalence shows why it is there.

- `EndInvocation` looks the entry up again by name. All counts stay exact exactly while
  every callback finds the admitting entry (`Callbacks.CountsExactIffEndsAtHome`); replacing
  a name under an outstanding invocation loses its end (`Limits.ReplacementLosesAnEnd`).
  Waiting for the outstanding callbacks is not enough: an invocation that has looked its
  entry up is still admitted after the entry was unregistered, and when the name is
  registered again its end is lost as well (`Limits.AdmissionAfterRemoval`). So the
  discipline in `Tokens` also covers admissions under way.
- `RecordActivityBatch` reads the clock before it locks. That is the only way an activity
  stamp goes back (`IdleWindow.StampAfterStep`), and it can make the monitor stop a function
  inside its idle window (`Limits.BatchDefeatsTheWindow`). It does so exactly when the batch
  moves the stamp across the beginning of the window (`IdleWindow.IdleWindowIffNoCrossing`).
- The host knows names only, so whoever still holds a replaced entry can move the containers
  of the new registration: a scaling call that looked the entry up before
  (`Limits.StaleScaleDownStopsSuccessor`), or the monitor, which still has the entry in its
  queue (`Limits.QueuedScanStopsSuccessor`). It is not enough that nothing is replaced during
  a host call. `NamedRuntime.AgreementIffHarmless` says exactly when registrations and
  containers keep agreeing, and `ScanPoolNames.CarefulRegistry` what it takes of those who
  register and remove names.
- A first `Start` after `Stop` closes `doneChan` twice (`ScanPoolSafety.TwoClosersIffLateStart`,
  `ScanPoolProgress.LateStartCanCloseTwice`, `Limits.LateStartClosesTwice`).
- The edge key is not injective when a caller contains "->". The indexes and the edge table
  agree all the time exactly if no two edges of different names meet under one key
  (`TrackerHistory.AgreementIffNoCollision`). Callers without an arrow never do; a single
  caller with one is enough (`TrackerHistory.ArrowCallerBreaksAgreement`).
- The least execution time of a function uses zero for "not set yet", so an execution of
  zero time makes it forget what came before; starting from zero or an imported positive
  figure, it is a minimum exactly if no execution took zero time or the last one did (`FunctionHistory.MinimumExactIffNoZero`).

Where code and comments disagree the model follows the code:

- `RegisterFunctionWithState` says that the waiters of an older entry are released before
  the new entry is installed; the code installs first (autoscaler/autoscaler.go:240-241, 276-285).
- `waitForChange` mentions cancellation by a context; there is none (autoscaler/autoscaler.go:128-146).
- `SMACalculator.Count` is described as the number of samples added; it stops at the window
  size (callgraph/averaging.go:93-96).
- `FromJSON` says it replaces all current data; execution contexts and their access times
  survive (callgraph/tracker.go:957-973).

## Model

| member | source | states |
|---|---|---|
| `EntryObject.Channel.Close` | autoscaler/autoscaler.go:107-112 | a `changed` or `unregistered` channel is closed at most once; closing it again would panic and is excluded |
| `EntryObject.FunctionEntry.constructor` | autoscaler/autoscaler.go:255-274 | a registered entry starts scaled down exactly if that was asked for and active otherwise (over runs: `Requests.RegistrationTakesEffect`), with an open `changed` and an open `unregistered` channel that nobody else holds |
| `EntryObject.FunctionEntry.NotifyLocked` | autoscaler/autoscaler.go:107-112 | notifying closes the current channel and installs a fresh open one; a channel captured at any earlier time is closed exactly if a notification happened since |
| `EntryObject.FunctionEntry.Capture` | autoscaler/autoscaler.go:138-145 | a waiter selects on the channel of the current generation, which is still open, and on the one-shot channel |
| `EntryObject.FunctionEntry.StartInvocation` | autoscaler/autoscaler.go:350-373 | in place equal to the admission step of the protocol: admits exactly an active or blocked entry, refuses exactly a scaled-down one, parks otherwise (over runs: `Answers.StartAnswers`) |
| `EntryObject.FunctionEntry.EndInvocation` | autoscaler/autoscaler.go:387-398 | in place equal to the end step: the counter never goes below zero and the last end of a blocked entry makes it active and stamps it |
| `EntryObject.FunctionEntry.ScaleUpWhenReady` | autoscaler/autoscaler.go:416-448 | in place equal to the scale-up step: ready exactly from active or blocked, begins the transition exactly from scaled down, parks otherwise (over runs: `Answers.ScaleUpAnswers`) |
| `EntryObject.FunctionEntry.TryScaleUp` | autoscaler/autoscaler.go:467-479 | in place equal to the opportunistic step, whatever the clock: it begins a transition or returns, and never parks |
| `EntryObject.FunctionEntry.BeginScaleUp` | autoscaler/autoscaler.go:485-488 | performScaleUp, called only when scaled down, publishes the scaling-up state before the lock is released |
| `EntryObject.FunctionEntry.CommitScaleUp` | autoscaler/autoscaler.go:490-505 | the host result decides between active with fresh stamps and scaled down again; both are notified |
| `EntryObject.FunctionEntry.ScaleDownWhenIdle` | autoscaler/autoscaler.go:524-541 | in place equal to the forced scale-down step: waits on blocked and transient states, begins from active whatever the stamps say |
| `EntryObject.FunctionEntry.CommitScaleDown` | autoscaler/autoscaler.go:543-559 | after the host call: scaled down with the counter reset, or active again with a fresh stamp |
| `EntryObject.FunctionEntry.RecordAt` | autoscaler/autoscaler.go:579-585 | activity moves both stamps of an active entry and only the access stamp of any other, and notifies nobody |
| `EntryObject.FunctionEntry.ScanIfIdle` | autoscaler/autoscaler.go:790-822 | in place equal to the monitor step: only an active entry with scale-to-zero enabled and a window strictly exceeded begins to go down |
| `EntryObject.FunctionEntry.RevertScan` | autoscaler/autoscaler.go:826-834 | a scan that sees the stop signal puts the entry back to active and notifies |
| `EntryObject.FunctionEntry.IsUnregistered` | autoscaler/autoscaler.go:120-122 | the check half of closeUnregistered |
| `EntryObject.FunctionEntry.CloseUnregistered` | autoscaler/autoscaler.go:123-125 | the close half; it needs the channel to be open, which the protocol has to guarantee |
| `Invariant.SectionKeepsWellFormed` | autoscaler/autoscaler.go:340-565 | every critical section keeps "blocked if and only if in flight", never touches a transition of another owner, notifies whenever it changes the state, and never finds an invalid state |
| `Invariant.StepKeepsInv` | autoscaler/autoscaler.go:107-850 | one inductive invariant is kept by every step of every thread, registration, removal, host return, wake-up and stop included |
| `Invariant.RunKeepsInv` | autoscaler/autoscaler.go:107-850 | the invariant holds in every state of every run with any number of threads and entries |
| `Safety.OneOwnerPerTransition` | autoscaler/autoscaler.go:485-559 | in every state of every run: blocked exactly if something is in flight; a transient state has exactly one owning thread, other states none; whoever is in the host call works in the direction the state says |
| `Safety.NoStopUnderLiveRequest` | autoscaler/autoscaler.go:538-559 | from the decision to scale down to its commit nothing is in flight and nothing can be admitted, so resetting the counter at the commit changes nothing |
| `Safety.NonBlockingCalls` | autoscaler/autoscaler.go:450-479 | TryScaleUp, EndInvocation, activity records and scans never park, and no call ever reports an invalid lifecycle state |
| `Safety.OneShotClose` | autoscaler/autoscaler.go:114-126 | check-then-close without a lock closes at most once, and an entry outside the registry is closed or has exactly one thread bound to close it |
| `Safety.NoLostWakeup` | autoscaler/autoscaler.go:107-152 | a parked thread whose channel is still open sees a state its loop has to wait on, with either one other owner that can move or a request in flight |
| `Safety.StateChangeWakesEveryone` | autoscaler/autoscaler.go:107-112 | a step that changes the state of an entry enables the wake-up of every thread that was parked on it |
| `Safety.OnlyScaleDownsUnderLoadAreStuck` | autoscaler/autoscaler.go:350-438 | if no thread can move, every call has returned except forced scale-downs of registered entries with a request in flight |
| `Safety.StoppedWaiterReturns` | autoscaler/autoscaler.go:138-152 | after Stop every waiting call can return at once and then reports that the autoscaler was stopped |
| `Safety.StopReleasesEveryWaiter` | autoscaler/autoscaler.go:204-211 | in a state after Stop in which no thread can move, every call has returned |
| `Answers.StateMeans` | autoscaler/autoscaler.go:485-559 | in every state of every run the lifecycle state of an entry says exactly whether its runtime is up, whether some thread is moving it, and whether anything is in flight; the theorems below speak of these three only |
| `Answers.StartAnswers` | autoscaler/autoscaler.go:350-373 | StartInvocation admits if and only if the runtime is up and nobody is moving it, refuses if and only if it is down and nobody is moving it, and waits otherwise; an admission counts one request, gives one token and stamps the access only, anything else changes nothing |
| `Answers.AdmittedMeansToken` | autoscaler/autoscaler.go:330-373 | a call is told that it was admitted only in a StartInvocation section, and with a new token for the entry |
| `Answers.EndAnswers` | autoscaler/autoscaler.go:387-398 | EndInvocation takes one request off and never goes below none, stamps the access, and stamps the activity exactly if that was the last request |
| `Answers.ScaleUpAnswers` | autoscaler/autoscaler.go:416-448 | ScaleUpWhenReady reports a function ready without a host call if and only if its runtime is up and nobody is moving it, starts it if and only if it is down and nobody is moving it, and waits otherwise |
| `Answers.TryScaleUpAnswers` | autoscaler/autoscaler.go:467-479 | TryScaleUp starts the function if and only if its runtime is down and nobody is moving it, and otherwise returns at once with nothing changed |
| `Answers.ScaleDownAnswers` | autoscaler/autoscaler.go:524-541 | ScaleDownWhenIdle has nothing to do if and only if the runtime is down and nobody is moving it, stops it if and only if it is up and idle and nobody is moving it, and waits otherwise |
| `Answers.ScanAnswers` | autoscaler/autoscaler.go:790-822 | a scan decides to stop an entry if and only if it may go to zero, its runtime is up, nobody is moving it, nothing is in flight and the window is strictly exceeded; otherwise it changes nothing |
| `Answers.ScanHeedsStop` | autoscaler/autoscaler.go:826-834 | after that decision a scan goes to the host unless the stop signal was given; then the entry is running and idle again with its old stamps, and the stop is reported |
| `Answers.CommitAnswers` | autoscaler/autoscaler.go:490-559 | after a host call nobody is moving the entry, its runtime is up exactly after a successful start or a failed stop, a success is reported as performed and a failure as the host's error, and the stamps follow |
| `Answers.ReadyMeansRunning` | autoscaler/autoscaler.go:401-448 | a ScaleUpWhenReady that returns ready, with or without a host call, leaves the function running at that moment |
| `Answers.HostDecides` | autoscaler/autoscaler.go:490-543 | the answer of the host decides the outcome and is recorded; the entry waits for the commit |
| `Answers.RecordAnswers` | autoscaler/autoscaler.go:569-607 | a record stamps the access, and the activity if and only if the function is up, idle and nobody is moving it; a batch does the same with its own stamp; nothing else changes |
| `Requests.RegistrationTakesEffect` | autoscaler/autoscaler.go:242-288 | from the call of a registration to its effect: a new entry of that name, scaled down if and only if that was asked for and active otherwise, its containers down exactly in the first case, nothing in flight, both stamps at the time of the call, window and flag of the call; no other entry and no other name is touched |
| `Requests.RemovalTakesEffect` | autoscaler/autoscaler.go:293-310 | an unregistration takes that name out and nothing else |
| `Requests.LookupAnswers` | autoscaler/autoscaler.go:340-348 | an unknown name: ends and records do nothing and scaling calls and invocations report it; a known name leads to the registered entry |
| `Requests.WakeAnswers` | autoscaler/autoscaler.go:138-152 | a waiter that is notified looks again, one whose entry is gone or that is stopped reports that, and nothing else happens |
| `Requests.ThreadServesItsRequest` | autoscaler/autoscaler.go:313-610 | from its call to its return a thread runs the operation that was called, on the name that was given, whatever it waits for in between |
| `Requests.ReadyCallFoundItRunning` | autoscaler/autoscaler.go:406-448 | between the call of a ScaleUpWhenReady and its answer "ready" there was a moment at which the entry it found was running |
| `Requests.BatchVisitsInOrder` | autoscaler/autoscaler.go:589-607 | a batch record goes through its names in order, each once, all with the time of the call |
| `Requests.BatchStep` | autoscaler/autoscaler.go:589-607 | it leaves a name only when the name is not registered or the entry found has been stamped |
| `Settling.EveryMoveSettles` | autoscaler/autoscaler.go:340-565 | every move of a thread lowers a well-founded measure, so the retry loops come to rest when no new call arrives |
| `Settling.CallFreeStretchIsBounded` | autoscaler/autoscaler.go:340-565 | a stretch of a run without new calls has at most (2n + 1)(c + 1) thread moves, for n threads and c of five per thread plus four per name left in a batch |
| `HostRuntime.StatesMatchRuntime` | autoscaler/autoscaler.go:485-559 | in every run an active or blocked entry has its runtime up, a scaled-down one has it down, with the runtime changed by successful host calls only |
| `HostRuntime.HostOperationsAlternate` | autoscaler/autoscaler.go:406-565 | successful host operations on one entry strictly alternate between up and down |
| `HostRuntime.FirstHostOperation` | autoscaler/autoscaler.go:242-274 | the first successful operation is a scale-up exactly if the entry was registered scaled down |
| `HostRuntime.OnePerformerPerOperation` | autoscaler/autoscaler.go:401-448 | a returned call made exactly one successful scale-up if it reports performed=true and none otherwise; likewise for scale-downs |
| `NamedRuntime.HostReturnAgreesIff` | autoscaler/autoscaler.go:485-565 | a successful host call keeps the agreement between a registration and the containers of its name if and only if it was made for the registered entry or left the containers where that entry already is |
| `NamedRuntime.InstallAgreesIff` | autoscaler/autoscaler.go:242-291 | a registration establishes that agreement if and only if it names the state the containers are in |
| `NamedRuntime.AgreementIffHarmless` | autoscaler/autoscaler.go:242-565 | over whole runs with any replacements and removals: every registration agrees with the containers of its name all the time if and only if every step is harmless in that sense |
| `NamedRuntime.RegistryMatchesContainers` | autoscaler/autoscaler.go:242-317 | what callers can do: if names are registered as their containers are, not replaced or removed while a scaling call holds the entry, and scans look at registered entries, the state reported under a name tells whether its containers are up |
| `ScanPoolNames.PoolAgreementIffHarmless` | autoscaler/autoscaler.go:677-850 | the same equivalence over runs with the monitor and its workers |
| `ScanPoolNames.EffectIsCareful` | autoscaler/autoscaler.go:705-776 | if names are replaced or removed only while no scaling call holds the entry and no worker is still going to examine it, the monitor only scans registered entries |
| `ScanPoolNames.MonitoredRegistryMatchesContainers` | autoscaler/autoscaler.go:242-317 | with the monitor running and that condition on registrations and removals alone, the state reported under a name tells whether its containers are up |
| `IdleWindow.StampAfterStep` | autoscaler/autoscaler.go:389-398 | a step moves the activity stamp of an entry back if and only if it is a batch record with an older stamp on an active entry; recorded activity sets the stamp to its moment |
| `IdleWindow.StampIsMonotone` | autoscaler/autoscaler.go:579-607 | without such a step the stamp never decreases over a run and the idle window never changes |
| `IdleWindow.BlockedLeavesStamp` | autoscaler/autoscaler.go:387-398 | once a request was in flight, the entry is still blocked or was stamped after that |
| `IdleWindow.IdleWindowIffNoCrossing` | autoscaler/autoscaler.go:569-607 | exactly when the idle window is respected: the entry that the monitor decides to stop had no request in flight, no recorded activity and no registration in the whole of its window, if and only if no batch record moved its stamp from inside the window to before it |
| `IdleWindow.IdleForTheWholeWindow` | autoscaler/autoscaler.go:784-850 | the part of it that needs no crossing since a given state of the run: nothing was in flight there and nothing recorded next, if that is in the window |
| `Tokens.AdmitKeepsTokenInv` | autoscaler/autoscaler.go:363-369 | an admission adds exactly one token and one in flight on the same entry, and the counts stay exact |
| `Tokens.ClaimKeepsTokenInv` | autoscaler/autoscaler.go:330-335 | the first call of a callback claims its token; a later one returns and changes nothing |
| `Tokens.EndKeepsTokenInv` | autoscaler/autoscaler.go:377-398 | the end of a callback settles its own token and finds the counter positive, so the guard against going below zero is never needed |
| `Tokens.InFlightCountsTokens` | autoscaler/autoscaler.go:319-399 | in every disciplined run the counter of each entry is the number of admissions on it whose callback has not taken effect |
| `Tokens.CountSurvivesIffSameEntry` | autoscaler/autoscaler.go:382-398 | when a callback ends an invocation on the entry it found by name, all counts stay exact if and only if that is the admitting entry |
| `Callbacks.OneEndPerToken` | autoscaler/autoscaler.go:330-335 | in every run, disciplined or not, at most one EndInvocation section runs for a callback, however often and from whichever threads it is called |
| `Callbacks.CountsExactIffEndsAtHome` | autoscaler/autoscaler.go:377-398 | over whole runs without bare EndInvocation calls, all counters are exact all the time if and only if every callback ended its invocation on the entry that admitted it |
| `ScanPool.PoolRunsProject` | autoscaler/autoscaler.go:677-776 | every run of the monitor, its workers, Start and Stop projects onto one run of the protocol, state by state and step by step, so theorems that relate several states of a run carry over |
| `ScanPool.PlaceOfStep` | autoscaler/autoscaler.go:677-776 | every step of that protocol run is the effect of a step of the pool run, found between the same two states |
| `ScanPoolRuns.CommitIsOfWorker` | autoscaler/autoscaler.go:749-757 | only a worker decides to stop an entry in a scan, and the entry is that of the job it holds |
| `ScanPoolRuns.WorkerWindowIffNoCrossing` | autoscaler/autoscaler.go:569-607 | the same equivalence for what a worker decides to stop, in runs with the monitor, its workers, Start and Stop |
| `ScanPoolRuns.WorkersStopOnlyIdle` | autoscaler/autoscaler.go:784-850 | the part of it that needs no crossing since a given state, in runs with the monitor |
| `ScanPoolSafety.RunKeepsPoolInv` | autoscaler/autoscaler.go:677-776 | the invariant of the pool (who closed what, where each job is, which thread belongs to which worker) holds in every run |
| `ScanPoolSafety.HostCallsBounded` | autoscaler/autoscaler.go:734-747 | at most min(MaxConcurrentScaleDowns, entries in the snapshot) scans are in the host call at once |
| `ScanPoolSafety.ExaminedAtMostOnce` | autoscaler/autoscaler.go:725-757 | a worker starts to examine a job only if nobody examined or dropped it, and no other job is for the same entry |
| `ScanPoolSafety.CompleteUnlessStopped` | autoscaler/autoscaler.go:747-775 | a scan that ends without a stop signal has examined every entry of its snapshot |
| `ScanPoolJobs.EveryRegisteredIsExamined` | autoscaler/autoscaler.go:702-776 | from the beginning of a scan to its end: every name registered when it began has had its entry examined and that examination is over, unless the stop signal was given |
| `ScanPoolJobs.ExaminesRegisteredOnce` | autoscaler/autoscaler.go:705-757 | a scan examines only entries that were registered when it began, and no entry in two different steps |
| `ScanPoolSafety.ScansNeverOverlap` | autoscaler/autoscaler.go:683-695 | when a tick fires the guard is free, and when a snapshot is taken no worker and no scan host call is left |
| `ScanPoolSafety.TwoClosersIffLateStart` | autoscaler/autoscaler.go:190-232 | both the monitor and Stop are bound to close doneChan if and only if some first Start came after Stop had found the monitor not started; a double close needs exactly that |
| `ScanPoolSafety.StopReturnsToQuiet` | autoscaler/autoscaler.go:204-232 | when Stop returns, doneChan was closed exactly once, the monitor is gone, and no worker and no scan is alive, unless a first Start came late |
| `ScanPoolProgress.StopCannotDeadlock` | autoscaler/autoscaler.go:212-232 | in every run of the pool, once no stopper, worker, monitor step or protocol thread can move, every call of Stop has returned; ticks are not needed for that |
| `ScanPoolProgress.MonitorCanExit` | autoscaler/autoscaler.go:677-699 | from every state after the stop signal the started monitor can get to its exit, whatever its workers are doing |
| `ScanPoolProgress.LateStartCanCloseTwice` | autoscaler/autoscaler.go:190-232 | every state after a late first Start has a continuation in which doneChan is closed twice |
| `Limits.ReplacementLosesAnEnd` | autoscaler/autoscaler.go:377-398 | a run in which replacing a name leaves the old counter at one with no token to end it |
| `Limits.AdmissionAfterRemoval` | autoscaler/autoscaler.go:345-398 | a run that removes and replaces names only while no token of their entry is outstanding, in which an invocation is admitted on an entry removed after its lookup, and the old counter is left at one with no token to end it |
| `Limits.BatchDefeatsTheWindow` | autoscaler/autoscaler.go:589-607 | a run in which a batch stamp makes the monitor commit five time units after activity under a window of ten |
| `Limits.StaleScaleDownStopsSuccessor` | autoscaler/autoscaler.go:519-543 | a run in which a forced scale-down that looked its entry up before the replacement stops the containers of the new registration |
| `Limits.QueuedScanStopsSuccessor` | autoscaler/autoscaler.go:710-757 | a run in which a name is registered again in the state its containers are in and while no scaling call holds its entry, and a worker that has the old entry in its queue stops the containers of the new registration |
| `Limits.LateStartClosesTwice` | autoscaler/autoscaler.go:212-232 | a run in which doneChan is closed twice |
| `Averaging.SMACalculator.constructor` | callgraph/averaging.go:34-47 | a window size that is not positive becomes ten; no samples yet |
| `Averaging.SMACalculator.Add` | callgraph/averaging.go:50-69 | the ring buffer with its running 64-bit sum refines the list of samples: the result is the truncated average of the last W of them |
| `Averaging.SMACalculator.Average` | callgraph/averaging.go:72-82 | the same average, zero without samples |
| `Averaging.SMACalculator.Reset` | callgraph/averaging.go:85-91 | forgets all samples and takes a new window |
| `Averaging.SMACalculator.Count` | callgraph/averaging.go:93-96 | the number of samples in the window, at most its size |
| `Averaging.RingOkAfterAdd` | callgraph/averaging.go:50-66 | one Add keeps the tie between index, full flag, count, wrapped sum and the last W samples |
| `Averaging.WrapAdd` | callgraph/averaging.go:51-58 | a partial result that wraps early does not change the wrapped result, so a wrap in the middle of Add is repaired by its end |
| `Averaging.AverageExactIffSumFits` | callgraph/averaging.go:50-82 | the reported average is the truncated quotient of the exact sum of the window if and only if that sum fits in 64 bits, whatever wrapped on the way |
| `Averaging.QuotientTruncates` | callgraph/averaging.go:72-82 | the division drops the fraction toward zero, for negative sums as well |
| `Averaging.WindowIsSuffix` | callgraph/averaging.go:50-69 | the window is the longest end of the samples of at most W elements, in order |
| `Averaging.MovingAverageWithin` | callgraph/averaging.go:72-82 | while the window sum fits, the average lies between the least and the greatest of the last W samples, negative ones included |
| `Averaging.NoOverflowInAdd` | callgraph/averaging.go:50-58 | samples of at most B with W*B below 2^63 never wrap, neither between calls nor between the subtraction and the addition of one Add |
| `Averaging.EMACalculator.constructor` | callgraph/averaging.go:107-119 | a smoothing factor outside (0, 1] becomes the default |
| `Averaging.EMACalculator.Add` | callgraph/averaging.go:122-132 | the running value is the exponential average of all samples, the first taken as it is, and is truncated toward zero |
| `Averaging.EMACalculator.Average` | callgraph/averaging.go:135-137 | the truncated running value |
| `Averaging.EMACalculator.Reset` | callgraph/averaging.go:140-143 | forgets all samples |
| `Averaging.ExponentialIsWeightedSum` | callgraph/averaging.go:122-132 | the recursion is the closed-form weighted sum with weight (1-a)^(n-1) on the first sample and a(1-a)^(n-i) on sample i |
| `Averaging.ExponentialWithin` | callgraph/averaging.go:122-137 | for 0 < a <= 1 the average and its truncation lie between the least and the greatest sample |
| `Averaging.TruncatesTowardZero` | callgraph/averaging.go:130-137 | the conversion of the running value keeps its sign and drops the fraction |
| `Averaging.WeightsSumToOne` | callgraph/averaging.go:122-132 | the weights sum to one |
| `CallGraph.AverageByCalculator` | callgraph/averaging.go:151-160 | the average that all theorems on the tables use is the one that a calculator of the configured kind, given the samples one by one, reports |
| `Sieve.CompositeHasSmallPrime` | tests/workflows/faasd/IoT/CW/handler.js:8-14 | why stopping at the square root is enough: a composite number has a prime divisor whose square does not exceed it |
| `Sieve.StandingIffPrime` | tests/workflows/faasd/IoT/CW/handler.js:8-24 | striking from p*p with the primes up to a bound that covers the square root leaves exactly the primes |
| `Sieve.Strike` | tests/workflows/faasd/IoT/CW/handler.js:15-17 | the inner loop turns "struck by the primes below p" into "struck by the primes up to p", in place |
| `Sieve.Eratosthenes` | tests/workflows/faasd/IoT/CW/handler.js:6-26 | the result holds exactly the primes up to the limit, in increasing order, for every limit |
| `Reachability.ClosedContainsPath` | benchmark/eval/src/bench_eval/ingest.py:482-490 | a set that is closed under calls contains whatever a path from a member meets |
| `Reachability.ReachableFunctions` | benchmark/eval/src/bench_eval/ingest.py:479-490 | the search ends on every finite graph and returns exactly the functions reachable from the entry |
| `EdgeKeys.KeysCollideIff` | callgraph/types.go:318-321 | two edges share a key if and only if they are equal or one caller continues the other past an arrow that the other edge has in its callee |
| `EdgeKeys.KeyIsInjective` | callgraph/types.go:318-321 | between callers without "->" the key determines the edge |
| `EdgeKeys.UncleanCollides` | callgraph/types.go:318-321 | every caller with an arrow in it is one half of a collision whose other half is a caller without |
| `TrackerHistory.NewEdgeKeepsGraph` | callgraph/tracker.go:305-314 | recording an edge adds exactly that edge to the table and both indexes, for calls and imports alike, if no edge of other names holds its key |
| `TrackerHistory.AgreementIffNoCollision` | callgraph/tracker.go:275-314 | whatever the names: callee in callerToCallees[caller], caller in calleeToCallers[callee] and the edge of those names in the table are the same thing after every one of the events, if and only if no accepted call finds its key held by an edge of other names and no import has two edges that share a key |
| `TrackerHistory.IndexesAgree` | callgraph/tracker.go:275-314 | in particular after any operations with callers free of "->" |
| `TrackerHistory.ArrowCallerBreaksAgreement` | callgraph/tracker.go:275-314 | an arrow in any one caller is enough: with it and a second caller that has none, two recordings make the indexes and the edge table disagree |
| `TrackerHistory.ContextsStayPaired` | callgraph/tracker.go:173-186 | under any operations the two request maps have equal domains and no request has an empty table |
| `TrackerHistory.ClearContextsIsFilter` | callgraph/tracker.go:836-847 | deleting a function removes exactly its executions, keeps the others, and drops a request exactly when nothing is left of it |
| `TrackerHistory.DeletionIsFilter` | callgraph/tracker.go:801-849 | after any events without a collision of keys, ClearFunctionData removes the statistics, the edges and adjacencies in both directions and the executions of the function, and changes nothing else |
| `Attribution.ExecutionsFollowEvents` | callgraph/tracker.go:157-193 | after any events the tracker knows under two identifiers exactly the execution last started under them, with its function, its start and its reported end, unless it was deleted, cleared, or a cleanup came later than the expiry after the last use of its request |
| `Attribution.ChargedIsAccepted` | callgraph/tracker.go:206-270 | a call counts if and only if tracking is on, the callee is named and is not the caller, and the call comes from outside or without a request or under an execution of its caller; the time it adds is zero in the first two cases and otherwise the time since that execution was started, all read off the events |
| `Attribution.CallIsCharged` | callgraph/tracker.go:206-314 | a call that does not count changes nothing; one that does adds one call and that time to its edge, or begins the edge with it, and touches no other edge, statistic or execution |
| `Attribution.CollisionIsCharged` | callgraph/tracker.go:274-287 | whether a call collides is decided by the events and the names in the edge table |
| `Attribution.EndIsRun` | callgraph/tracker.go:348-438 | the end of an execution counts if and only if the events leave that execution known, it is of the named function, and the time since its start is known and not negative; that time and that start are recorded |
| `Attribution.TrackedIffListed` | callgraph/tracker.go:348-566 | a function has statistics if and only if an execution of it was counted, a scale-up was reported or an import brought it, and it was not deleted or cleared since |
| `EdgeHistory.EdgeIsFoldOfHistory` | callgraph/tracker.go:206-314 | read off the events alone: after any of them without a collision of keys, imports included, an edge exists exactly if it was in the last import or a call was accepted since it was last deleted; count, sum, least, greatest and kind go on from the imported figures, and the averaged samples are those since the import |
| `EdgeHistory.EdgeSummarizesCalls` | callgraph/tracker.go:206-314 | without imports they are the number, the sum, the least, the greatest and the last definite kind of the accepted calls |
| `EdgeHistory.ExportedAverage` | callgraph/tracker.go:595-609 | after any events without a collision of keys, the exported average of an edge under a moving average is that of the last W times accepted since the last import |
| `FunctionHistory.StatsAreFoldOfHistory` | callgraph/tracker.go:348-438 | read off the events alone: after any of them, imports included, the statistics of a function are those it started from (zero, a redeployment or the last import) and its accepted executions, scale-ups and scale-downs since: numbers, sum, greatest, last ones, samples, and the least since the last execution of zero time |
| `FunctionHistory.EveryScaleUpIsColdOrPrewarm` | callgraph/tracker.go:531-566 | the tracker never adds a scale-up that is neither a cold start nor a prewarm: the difference is the one the statistics started from, and zero without imports |
| `FunctionHistory.MinimumExactIffNoZero` | callgraph/tracker.go:406-415 | the reported minimum is the least of the one at the start, if there was one, and the execution times since, if and only if the start was negative, no execution took zero time, or the last one did |
| `ExportImport.SortedIsUnique` | callgraph/tracker.go:611-617 | the caller-then-callee order admits one sorted list of given edges |
| `ExportImport.ExportIsUnique` | callgraph/tracker.go:595-634 | the exported graph does not depend on the order in which the maps are iterated |
| `ExportImport.KeysAlwaysMatch` | callgraph/tracker.go:274-287 | every stored edge sits under the key of its own names, after any operations at all |
| `ExportImport.RoundTrip` | callgraph/tracker.go:959-1010 | importing an export rebuilds every edge and statistic but for the samples behind the averages, keeps the executions, and makes both indexes agree with the table |
| `ExportImport.RoundTripKeepsIndexes` | callgraph/tracker.go:985-999 | both indexes come back as they were if and only if they agreed with the edge table |
| `ExportImport.ReexportErasesAveragesOnly` | callgraph/tracker.go:595-634 | the graph exported after a round trip differs from the first one in its averages only, which are zero |
| `ExportImport.SecondRoundTripIsIdentity` | callgraph/tracker.go:959-1010 | a second round trip changes nothing |
| `ExportHistory.BaseFollowsOrigin` | callgraph/tracker.go:754-796 | what the statistics of a function start from, field by field: every imported counter, total, extreme and last time until it is redeployed, zero in all of them otherwise, the name kept, the redeployments counted on, no samples |
| `ExportHistory.ImportTakesFiguresOver` | callgraph/tracker.go:1001-1007 | an import takes over every figure of every listed function, and the time of recording, and drops the samples |
| `ExportHistory.ImportTakesEdgesOver` | callgraph/tracker.go:975-999 | an import takes over every figure of an edge whose key no later edge has, and drops the samples |
| `ExportHistory.ExportFollowsHistory` | callgraph/tracker.go:595-634 | after any events without a collision of keys the exported graph lists exactly the edges with a past and the tracked functions; count, total, extremes, kind and average of an edge and all figures and both averages of a function are those that follow from the events |
| `ExportHistory.ExportedOrder` | callgraph/tracker.go:611-617 | the exported edges are ordered by caller and then by callee |
| `ExportHistory.BeforeIffFirstDifference` | callgraph/tracker.go:611-617 | the order of strings is decided by the first difference, a proper beginning coming first |
| `Prewarm.TargetIffCalledAndCold` | callgraph/tracker.go:871-947 | after any events without a collision of keys, imports included: g is a target of f if and only if prewarming is on, calls from f to g are counted since either was deleted, g has cold starts since it was redeployed or deleted, and the scale-ups reported since then and since the last import do not average to zero |
| `Prewarm.TargetsFollowHistory` | callgraph/tracker.go:871-947 | after any events without a collision of keys every list of targets names each function that qualifies and no other, and all its figures follow from the events: lead time the average charged time but never negative, the last definite kind, the average of the target's own reported scale-ups, and that of the caller's |
| `Prewarm.NoTargetUntilCold` | callgraph/tracker.go:754-852 | a redeployed or deleted function is no target of any caller until a cold scale-up is recorded, whatever else happens except an import, which may bring cold starts with it |
| `Prewarm.NoTargetAfterImport` | callgraph/tracker.go:1001-1007 | an import leaves no target until a scale-up of it is recorded |
| `Prewarm.TargetAgainIffCold` | callgraph/tracker.go:531-566 | after a redeployment of g and any later events, without a collision of keys, the callee of an edge with counted calls is a target if and only if there are cold starts of g since the redeployment and the scale-ups reported since then do not average to zero |
| `Prewarm.OneScaleUpDecides` | callgraph/tracker.go:531-566 | with a single scale-up directly after the redeployment, imports and any names allowed, that one has to be cold and to take time |
| `Tracker.CallGraphTracker.constructor` | callgraph/tracker.go:20-40 | a new tracker is empty |
| `Tracker.CallGraphTracker.StartExecution` | callgraph/tracker.go:157-193 | in place equal to the operation the history theorems speak of: an incomplete identification changes nothing |
| `Tracker.CallGraphTracker.RecordEdgeWithKind` | callgraph/tracker.go:206-270 | in place equal to the operation: self-calls, missing callees and calls without a matching execution of the caller are skipped (what is charged: `Attribution.CallIsCharged`) |
| `Tracker.CallGraphTracker.AddSample` | callgraph/tracker.go:273-314 | in place equal to adding one accepted sample to the table and both indexes |
| `Tracker.CallGraphTracker.EndExecution` | callgraph/tracker.go:348-438 | in place equal to the operation: only an execution of that function is ended, and only a nonnegative duration is counted |
| `Tracker.CallGraphTracker.CleanupStaleContexts` | callgraph/tracker.go:463-489 | the loop, in any map order, removes exactly the requests last used before the cutoff from both maps |
| `Tracker.CallGraphTracker.RecordScaleDown` | callgraph/tracker.go:510-529 | counts a scale-down of a known function only |
| `Tracker.CallGraphTracker.RecordScaleUp` | callgraph/tracker.go:531-566 | in place equal to the operation: cold starts and prewarms are counted apart, both feed the scale-up average |
| `Tracker.CallGraphTracker.ResetFunctionStats` | callgraph/tracker.go:754-796 | everything but the name, the number of resets and the time of the last one starts over |
| `Tracker.CallGraphTracker.Clear` | callgraph/tracker.go:738-749 | all tables become empty |
| `Tracker.TwoLoopsClearEdges` | callgraph/tracker.go:811-834 | the two deletion loops, one after the other, remove what the filter theorem says, a self-edge included |
| `Tracker.CallGraphTracker.ClearOutgoing` | callgraph/tracker.go:811-821 | the loop over the callees, in any order |
| `Tracker.CallGraphTracker.ClearIncoming` | callgraph/tracker.go:824-834 | the loop over the callers, in any order |
| `Tracker.CallGraphTracker.ClearExecutions` | callgraph/tracker.go:836-847 | the nested loops over requests and executions, in any order, deleting while they iterate |
| `Tracker.CallGraphTracker.ClearFunctionData` | callgraph/tracker.go:801-852 | in place equal to the deletion that the filter theorem speaks of |
| `Tracker.SortEdges` | callgraph/tracker.go:611-617 | a sorted list of the same edges |
| `Tracker.CallGraphTracker.AggregatedEdges` | callgraph/tracker.go:599-609 | the copying loop, in any map order, yields each edge of the table and nothing else |
| `Tracker.CallGraphTracker.TotalCalls` | callgraph/tracker.go:621-624 | the loop adds up the calls of all functions, in any order |
| `Tracker.CallGraphTracker.GetAllFunctionStats` | callgraph/tracker.go:661-671 | the statistics of every function with their averages filled in |
| `Tracker.CallGraphTracker.GetCallGraph` | callgraph/tracker.go:595-634 | returns the one graph that the export theorems speak of |
| `Tracker.CallGraphTracker.GetPrewarmTargets` | callgraph/tracker.go:871-947 | lists exactly the targets, each once, in any order, nothing when prewarming is off (the figures: `Prewarm.TargetsFollowHistory`) |
| `Tracker.CallGraphTracker.FromGraph` | callgraph/tracker.go:959-1010 | in place equal to the import that the round-trip theorems speak of |

## Left out

- NamedRuntime.RegistryMatchesContainers: the care it asks of callers is sufficient; the exact condition is that of `NamedRuntime.AgreementIffHarmless`.
- Tokens.InFlightCountsTokens: the discipline is sufficient; the exact condition is that of `Callbacks.CountsExactIffEndsAtHome`.
- Tracker.CallGraphTracker.GetCallGraph: asks for edges stored under their own keys, which `ExportImport.KeysAlwaysMatch` shows for every history.
- Tracker.SortEdges: an insertion sort stands for `sort.Slice`; the order of a sorted list does not depend on the method.
- Averaging.EMACalculator.Add: `float64` is modelled as an exact real, so rounding is not captured.
- Sieve.Eratosthenes: the result of `Math.sqrt` is a parameter of which only the order with natural numbers is asked.
- Tracker.CallGraphTracker.AddSample: totals and durations are unbounded integers; overflow of 64-bit totals and the saturation of time differences are not captured.
- Statistics records sit in the tracker's maps as values and their calculators as the samples they were given, so pointer sharing between a record and its users is not captured; the `Averaging` classes give the calculators in place.
- The disabled autoscaler (every call returns at once), label parsing, status getters and logging.
- Real time, tickers and the Go memory model: the clock is a number that never decreases and a critical section is atomic.
- Liveness of forced scale-downs: new invocations can keep an entry blocked for ever; only call-free activity is shown to come to rest.
- In `Protocol` alone a scan may examine any entry that was ever registered; in `ScanPool` scans come from snapshots of the registry.
- JSON text: export and import are modelled on the graph structure.
- The goroutine of the tracker's `Start` and `Stop`; its cleanup is an operation of its own.
- Getters that only copy one table, the sum of calls that GetPrewarmTargets computes and does not use, and the other workflow handlers and evaluation code.
