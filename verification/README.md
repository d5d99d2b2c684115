# Verification of the Darwin platform layer of Open Files

A Dafny model of the parts of this repository in which behaviour depends on order,
on arithmetic, or on two pieces of code agreeing: the wait set and the events that
wake it, the conversion between seconds and calendar dates, and the enumeration of
network interfaces. `dafny verify dfyconfig.toml` checks all of it.

The wait set is modelled twice, and the two models are tied together.

* `WaitProtocol.dfy` is a transition system with one step for each mutex section,
  pipe read and pipe write: one waiter going through purge, scan, poll and
  `PollEvent`, and any number of other threads that set, reset, enqueue, register,
  wake and delete in any interleaving, over a pipe that drops tokens when full.
  `WaitTheorems.dfy` proves what every run keeps. The central one: once the scan has
  found a handle not ready, and until `PollEvent` first reads, a handle that has
  become ready either has its event's token in the pipe, or the pipe is full, or a
  thread is still on its way to write. So poll never sleeps on a ready handle, even
  when tokens were dropped and even when the handle was registered after the scan.
* `WaitSet.dfy` is the code: objects with a pipe, a handle queue, two arrays that
  grow together, and the loops over them, proved against the pure specification in
  `WaitSpec.dfy`. `WaitLaws.dfy` proves what that specification promises.
* `WaitCalls.dfy` says what each call of another thread comes to in the transition
  system from its first step to its last: which event it raises, registers and writes
  a token for.
* `WaitRefinement.dfy` ties the two together: the undisturbed waiter of the
  transition system purges, scans and drains exactly as the imperative code does.
* `WaitTimeouts.dfy` says exactly when a wait can still sleep out its timeout, and what
  that makes of a wake and of a thread delete.

`EventMonitor.dfy` is the event itself, as an object and, statement by statement, as a
monitor with any number of threads. `Sockets.dfy` holds the poll masks of a socket.
`Calendar.dfy` and `Interfaces.dfy` are independent of the rest; the first states its
results against the closed form of section 4.16, "Seconds Since the Epoch", of the
Base Definitions volume of POSIX.1-2017.

## Assumptions

* The core library is not part of this model. Its handle queue is a first-in first-out
  sequence without null entries; locking a handle pins the object and excludes nobody;
  a wait-queue producer enqueues first and sets the queue's event afterwards; the core
  queues a handle before it calls `ofc_waitset_add_impl`, and gives up an association
  only after unlinking the handle.
* A wait set has one waiter. Memory is sequentially consistent. Writing a token is
  all-or-nothing, and the pipe holds at least one.
* Poll may fail, time out or report at any moment, but it reports the pipe exactly
  when it holds a token, and first. In the imperative model everything other threads
  do during a call happens while it is inside poll, and is a parameter: the tokens they
  write, the new value of each flag they set or reset, and the sockets' conditions. So
  are the timers' wait times.
* A failed lock is modelled where the source gives it a meaning: an event that cannot
  be locked tests as signalled and counts as AUTO.
* `OFC_FS_DARWIN` is defined. Poll and socket event flags are sets of names; their
  numeric values play no part.
* Direct waiters in `ofc_event_wait_impl` appear in the transition system as resets.

## False as one might state it

* A set of an AUTO event does not always release at most one direct waiter, because
  set broadcasts and the wait sits under an `if`. It does exactly when no thread is
  parked or woken as the set begins (`ReleasesAtMostOneIff`): one waiting thread and a
  newcomer are enough for two returns (`NewcomerAndWoken`).
* A return from a wait need not follow a set: a spurious wake-up is enough
  (`SpuriousReturn`), and nothing else is (`NoReturnUnprompted`).
* A wake or a thread delete does not always end the wait it is aimed at.
  `TimesOutExactlyUnlessSure` says of every reachable state whether the call can still
  sleep out its timeout. A wake rules that out exactly past the purge
  (`WakeProtectsPastThePurge`); a delete does so exactly past the purge if the thread's
  wait set is recorded, and otherwise changes nothing (`DeleteProtectsExactly`).
* The seconds of a date are exact only up to 2106-02-07 06:28:15 (`ExactBound`).

## Model

| member | source | states |
|---|---|---|
| WaitProtocol.EnvKeepsInv | src/event_darwin.c:46-77 | every step of any other thread keeps the invariant: a passed handle that is ready is announced by its token, a full pipe or a thread in flight |
| WaitProtocol.OwnKeepsInv | src/waitset_darwin.c:172-319 | so does every step of the waiter, from purge to return |
| WaitProtocol.AnnouncedKept | src/waitset_darwin.c:420-440 | a setter that finds no association leaves the announcement to the adder that has still to register the handle |
| WaitTheorems.PipeStaysBounded | src/waitset_darwin.c:73-84 | no run of any threads puts more tokens into the pipe than it holds: a write to a full pipe is dropped |
| WaitTheorems.NoLostWakeup | src/waitset_darwin.c:172-317 | in every reachable state, a handle the scan has passed that is ready with nobody in flight has its token in the pipe or the pipe is full, and poll cannot time out or report a socket instead |
| WaitTheorems.RegistrationRaceClosed | src/waitset_darwin.c:420-440 | the same for a handle added while the waiter was already in poll, for every interleaving of add with sets |
| WaitTheorems.FinishOne | src/event_darwin.c:52-63 | the other threads never deadlock: some thread can finish its call by its own steps |
| WaitTheorems.Quiesces | src/event_darwin.c:46-65 | from every reachable state all calls in progress can run to completion, and then every ready passed handle has its token in the pipe or the pipe is full |
| WaitTheorems.AwakeUntilReturn | src/waitset_darwin.c:315-337 | once a token is in the pipe past the purge, no continuation of the call times out before it returns |
| WaitTheorems.DeleteWakes | src/thread_darwin.c:113-152 | a delete called past the purge on a thread whose wait set stays recorded: the call cannot time out once the delete is over, and the thread sees itself being deleted |
| WaitTheorems.NextScanFinds | src/waitset_darwin.c:181-311 | whatever the purge discarded, a handle ready when the scan starts and consumed by nobody else ends the call with a result that is not null |
| WaitTheorems.DeliveriesNeverExceedSets | src/waitset_darwin.c:285-289 | over any run, from any state of the invariant, an AUTO event that no other queued handle waits on is returned at most once for each set and each delivery already owed at the start |
| WaitTheorems.NoSetForgotten | src/waitset_darwin.c:114-117 | after a set and with no explicit reset, an event that no other queued handle waits on is still up, or the waiter has lowered it after that set in a call that has returned it or is about to |
| WaitTheorems.OneClearPerCall | src/waitset_darwin.c:285-289 | within a call of any run the waiter lowers at most one flag, of the AUTO event whose handle it then returns |
| WaitTheorems.ResultsAreObserved | src/waitset_darwin.c:181-337 | over every interleaving, a result that is not null was queued, and the waiter saw it ready in the scan, its event up behind a token, reported by poll, or its timer due |
| WaitRefinement.PurgeAndScanAgree | src/waitset_darwin.c:172-311 | the undisturbed waiter of the protocol ends its scan where the imperative scan does, at the same handle with the same flags, a scanned AUTO event lowered, or at poll with the same event queue |
| WaitRefinement.PollEventAgrees | src/waitset_darwin.c:90-126 | and drains the pipe as the imperative PollEvent does: same tokens, same handle, same flags |
| WaitRefinement.ReadyHandleEndsTheCall | src/waitset_darwin.c:315-337 | from every reachable state in poll with a ready handle queued, the calls in progress can finish and the waiter then leaves poll by the pipe and ends its call |
| WaitTimeouts.TimesOutExactlyUnlessSure | src/waitset_darwin.c:172-319 | in every reachable state, some run of all threads times out before the call returns if and only if the call is neither awake (past its purge with a token in the pipe, draining it, or ending) nor scanning towards a handle whose setter is about to write its token |
| WaitTimeouts.WakeProtectsPastThePurge | src/waitset_darwin.c:86-88 | from every reachable state, after a wake the timeout can be reached if and only if the waiter was not past its purge |
| WaitTimeouts.DeleteProtectsExactly | src/thread_darwin.c:113-123 | from every reachable state, the same after a delete on a thread whose wait set is recorded; with none recorded the delete only marks the thread and the timeout can be reached exactly as before |
| WaitCalls.SetRun | src/event_darwin.c:46-65 | a set raises its event and, exactly if that is associated with this wait set and the pipe has room, appends its token; nothing else changes |
| WaitCalls.EnqueueRun | src/waitset_darwin.c:420-425 | an enqueue puts one entry on its wait queue and then raises and announces the queue's own event, as the registration of the queue relies on |
| WaitCalls.AddRun | src/waitset_darwin.c:420-447 | an add queues the handle, associates the event it waits on, and writes that event's token exactly if the wait queue holds an entry, or the event of any other handle is up |
| WaitCalls.WakeRun | src/waitset_darwin.c:86-88 | a wake appends the null token unless the pipe is full |
| WaitCalls.EnqueueSetsItsEvent | src/waitset_darwin.c:420-425 | whatever all other threads do after the enqueue, the enqueuing thread's next step raises the event of that wait queue and no other |
| WaitCalls.AddRegistersItsEvent | src/waitset_darwin.c:420-440 | whatever all other threads do after the handle is queued, the adding thread's next step associates exactly the event the handle waits on, if any |
| WaitSets.WaitSet.Wait | src/waitset_darwin.c:128-352 | result, pipe, flags and socket revents are those of the specification: first ready handle in queue order, else PollEvent on the pipe, else the first reported socket, else the chosen timer, else null; only the socket returned has its revents written |
| WaitSets.WaitSet.Scan | src/waitset_darwin.c:181-311 | stops at the first handle that triggers, or gathers both arrays, the event queue, the timeout and the timer |
| WaitSets.WaitSet.PollEvent | src/waitset_darwin.c:90-126 | triggered handle, remaining pipe and flags are those of reading token by token; terminates on the pipe |
| WaitSets.WaitSet.Add | src/waitset_darwin.c:401-458 | associates a wait queue's or overlapped operation's own event, or the event itself, with this set, and writes that event's token exactly when the handle is already ready, a wait queue being judged by its content |
| WaitSets.RegisterThenSet | src/waitset_darwin.c:420-440 | after the registration of a handle of any of the three kinds, a set of the event behind it reaches this wait set: the token is in the pipe or the pipe is full |
| WaitSets.Core.EventSet | src/event_darwin.c:46-65 | raises the flag and puts the event's token into the associated set's pipe and no other; no pipe grows past its capacity |
| WaitSpec.GatherIs | src/waitset_darwin.c:218-256 | the poll array and the handle array are aligned at every length and hold the pipe and then the sockets in queue order |
| WaitLaws.PollEventContract | src/waitset_darwin.c:103-125 | PollEvent consumes exactly the shortest prefix ending in a null token or in the token of a listed event that is up, and lowers only that event, only if AUTO |
| WaitLaws.StaleTokensDeliverNothing | src/waitset_darwin.c:109-119 | tokens whose event is not listed or not up deliver nothing and change no flag |
| WaitLaws.TimerBound | src/waitset_darwin.c:298-308 | the timeout is the minimum of the cap and all wait times; the reported timer is the first to attain it strictly below the cap |
| WaitLaws.WaitIsSoundAndMinimal | src/waitset_darwin.c:128-352 | a result that is not null was queued and ready, announced and signalled, reported by poll, or due; at most one flag is lowered, of an AUTO event whose handle is returned |
| WaitLaws.TriggersMeans | src/waitset_darwin.c:181-311 | what stops the scan at a handle, for each type: an event that is up or cannot be locked, a wait queue by its entries, a timer by its wait time |
| WaitLaws.ReadyHandleReturned | src/waitset_darwin.c:285-289 | the first handle in queue order that triggers is returned with the pipe purged, and every flag stays as it was except that of the AUTO event returned, which is lowered |
| WaitLaws.TokenDelivers | src/waitset_darwin.c:103-125 | of the tokens that arrive during poll, the first whose event is up and waited on returns the first queued handle that waits on it, lowers it if AUTO and leaves the later tokens |
| WaitLaws.StaleOrWakeReturnsNull | src/waitset_darwin.c:102-123 | tokens that are all stale, or stale up to a wake, return null, change no flag and leave what follows the wake |
| WaitLaws.ReportedSocketReturned | src/waitset_darwin.c:320-337 | with no token, the first socket in queue order that poll reports is returned |
| WaitLaws.TimeoutReturnsTimer | src/waitset_darwin.c:317-319 | with nothing reported, the first timer with the least wait below the cap is returned, and null if every timer waits longer |
| WaitLaws.FailedPollReturnsNull | src/waitset_darwin.c:317-320 | a failed poll returns null and reads no token |
| EventMonitor.DarwinEvent.WaitBegin | src/event_darwin.c:110-118 | parks exactly when the flag is down, otherwise takes it if AUTO |
| EventMonitor.NobodyParkedOnSignalled | src/event_darwin.c:46-120 | in every run of any threads, with or without spurious wake-ups, a free mutex and a raised flag mean nobody is parked |
| EventMonitor.NoReturnUnprompted | src/event_darwin.c:105-120 | from a lowered flag, no wait gets past its test without a set or a spurious wake-up |
| EventMonitor.SpuriousReturn | src/event_darwin.c:112-118 | from any state with the flag down and the mutex free, a spurious wake-up lets a wait return with no set |
| EventMonitor.SetSection | src/event_darwin.c:46-65 | as a run of the monitor, a set releases every parked thread whatever the event type, and shows what the object's Set shows |
| EventMonitor.ResetSection | src/event_darwin.c:67-77 | as a run of the monitor, a reset lowers the flag and leaves every thread where it was |
| EventMonitor.ParkSection | src/event_darwin.c:110-114 | a wait that finds the flag down parks, as the object's WaitBegin does |
| EventMonitor.TakeSection | src/event_darwin.c:110-118 | a wait that finds the flag up returns at once and takes an AUTO event, as the object's WaitBegin does |
| EventMonitor.WokenSection | src/event_darwin.c:112-118 | a woken wait returns without another look at the flag and leaves an AUTO event down, as the object's WaitEnd does |
| EventMonitor.OneSetTwoReturns | src/event_darwin.c:55-116 | with two threads parked on an AUTO event, one set lets both return with nobody else entering |
| EventMonitor.NewcomerAndWoken | src/event_darwin.c:54-116 | with one thread parked or woken, one set and a newcomer make two returns |
| EventMonitor.ReleasesAtMostOneIff | src/event_darwin.c:46-120 | over every run that begins with a set of an AUTO event and has no other set and no spurious wake-up, at most one wait returns, if and only if nobody is parked or woken as the set begins |
| Sockets.SocketImpl.Enable | src/socket_darwin.c:754-786 | the stored mask holds exactly the flags of the wanted types, flag by flag: POLLOUT for write, POLLIN for accept and read, and so on |
| Sockets.SocketImpl.Test | src/socket_darwin.c:726-752 | the result holds exactly the types whose flags meet the reported ones, type by type |
| Sockets.TestDualToEnable | src/socket_darwin.c:726-786 | the test meets the wanted types if and only if the reported flags meet their mask |
| Sockets.NothingUnasked | src/socket_darwin.c:726-786 | after a poll the test shows only types that share a flag with a wanted one, or closed, or address changed |
| Calendar.MakeTime | src/time_darwin.c:33-67 | the closed-form second count of POSIX modulo 2^32, for every field value with a month in range |
| Calendar.LocalTime | src/time_darwin.c:69-130 | the one valid date whose closed-form count is the given second |
| Calendar.LoopIsClosedForm | src/time_darwin.c:56-59 | the year loop counts the days of the POSIX closed form for every year from 1970 |
| Calendar.SecondsAreClosedForm | src/time_darwin.c:33-64 | hence the untruncated count of every date from 1970 on is the closed form |
| Calendar.SecondsMonotone | src/time_darwin.c:28-67 | the count orders valid dates as their fields do |
| Calendar.Odometer | src/time_darwin.c:69-130 | the next second is the same date advanced by one with carries through month lengths and leap days |
| Calendar.OrderPreserved | src/time_darwin.c:69-130 | seconds and their dates are in the same order, both ways |
| Calendar.EveryDateHasItsSecond | src/time_darwin.c:69-130 | every valid date from 1970 on is the date of its own second count |
| Calendar.GregorianPeriod | src/time_darwin.c:28-31 | 146097 days later only the year differs, by 400 |
| Calendar.ExactBound | src/time_darwin.c:33-64 | the 32-bit count is exact if and only if the date is not past 2106-02-07 06:28:15, and is 2^32 too small from there through 2107 |
| Calendar.FieldsRoundTrip | src/time_darwin.c:33-130 | fields to seconds to fields is the identity if and only if the date is not past that second |
| Calendar.ThroughFields | src/time_darwin.c:33-130 | seconds to fields to seconds gives the second modulo 2^32, for every second |
| Calendar.MonthsAddUp | src/time_darwin.c:24-28 | the cumulative table with its leap correction is the running sum of the Gregorian month lengths, by the printed year |
| Calendar.DosToSeconds | src/time_darwin.c:216-245 | on the printed fields of a FAT date, the POSIX second count modulo 2^32 |
| Calendar.SecondsToDos | src/time_darwin.c:188-214 | the printed fields are a proper date and time of day whose POSIX second count is the given second |
| Calendar.DosRoundTrip | src/time_darwin.c:188-245 | a FAT date survives the trip through seconds if and only if it is not past that second, and otherwise comes back 2^32 seconds early |
| Interfaces.Count | src/net_darwin.c:58-96 | the number of eligible interfaces, 0 when the list cannot be had |
| Interfaces.Search | src/net_darwin.c:126-174 | stops at the index-th eligible interface if and only if the index is between 0 and the count; terminates |
| Interfaces.SelectsExactlyEligible | src/net_darwin.c:58-96 | the selected list positions are exactly the eligible ones |
| Interfaces.SelectedInOrder | src/net_darwin.c:131-174 | later indices select positions strictly further down, so none repeats |
| Interfaces.Enumerate | src/net_darwin.c:58-174 | counting and then asking for every index yields, in list order, exactly the interfaces that are up, of an enabled family, and neither an ignored en5 nor an unwanted loopback |

## Left out

- Calendar.LocalTime: starts at second 0; earlier times, and the width of `tm_year` for times beyond the year 2^31, are not modelled.
- Interfaces.Search: stops at the chosen entry; copying its address, mask and broadcast address is not modelled, and every entry is taken to have an address.
- `OFC_HANDLE_FILE` in the wait: polled with no wanted events, its result goes through the socket setter.
- `OFC_HANDLE_FSSMB_OVERLAPPED`: the scan waits on the event of its wait queue and registration on another accessor's event; whether they are one is decided outside this repository's files.
- Removal of a handle from a wait set, and creation and destruction of wait sets, events, sockets and threads: decided by the core's handle reference counting.
- WaitSets.WaitSet.Wait: other threads act only while it is inside poll; their steps during purge, scan and drain are in the transition system, whose undisturbed waiter agrees with it.
- WaitLaws.WaitIsSoundAndMinimal: covers the imperative wait alone; every interleaving is covered by ResultsAreObserved and OneClearPerCall.
- Fair scheduling: results about runs are safety results and the existence of completing runs.
- Packing of FAT dates into 16-bit words and FILETIME conversion: in the core.
- Socket system calls and address conversion, name resolution, time zone, run-time clock, `ofc_waitset_debug`, and the console, environment, backtrace, process and lock files: no property beyond the calls they wrap.
