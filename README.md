# Alarm list of New_Alarm_Mutex.c, modelled in Dafny

New_Alarm_Mutex.c runs three threads: a main thread, an alarm thread and a display thread.
- The main thread reads `Start_Alarm(id): seconds message` and `Change_Alarm(id): seconds message` requests.
- The alarm thread repeatedly takes the head of the alarm list and waits for it to expire.
- The display thread prints messages.

All of them share one linked list, `alarm_list`, kept sorted by alarm id. They also share a global cursor, `globalNext`, which Change_Alarm searches from.

This project models that shared state, the three critical sections that update it, and the unlocked step that follows the third:
- Start_Alarm's sorted insert;
- Change_Alarm's search-and-update, which starts from the cursor;
- the locked part of one alarm-thread iteration: take the head, compute `sleep_time`, and do the display bookkeeping;
- the end of that iteration, where the taken alarm is freed after the mutex has been released (lines 202-223).

Each section is modelled once as a pure transition function on a `Registry` value (`alarm_spec.dfy`). It is modelled again as a method of the class `AlarmMonitor`, whose fields are updated in place and whose loops walk the list as the C code does (`alarm_mutex.dfy`). Every method's `ensures` ties the new state to the transition function. `alarm_facts.dfy` proves what the transition functions do. `alarm_scenarios.dfy` works through concrete request sequences.

The C code calls `time(NULL)`; each operation here takes the current time `now` as a parameter instead.

## The cursor, as the code has it

`globalNext` is modelled as the code uses it. The header comment (lines 17-21) says alarms can be accessed and changed by id; the code only ever searches from `globalNext`.
- **Change scans from the cursor, never from the head.** The cursor advances as Change scans and stays on the alarm it matched.
- **The cursor starts out NULL.** Only the alarm thread resets it (lines 149-150). So every Change before the first dispatch reports "not found" (`ChangesFailBeforeFirstDispatch`), and so does every Change after a failed one, until the next dispatch that takes an alarm (`ChangesFailUntilDispatch`); a dispatch on an empty list (lines 146-147) leaves the cursor alone. So Start(10) followed by Change(10), with no dispatch in between, reports not found (`ChangeBeforeDispatchIsRejected`).
- **The reset points at the head before it is unlinked** (line 150, then 151). So the cursor designates the alarm the dispatcher has just taken off the list. That alarm's link is the new head. `Cursor.OnTaken(link)` models this. A Change that matches the taken alarm updates it and leaves the list alone.
- **A Start splices in a node; the cursor keeps pointing at the same node.** Its position is shifted (`ShiftCursor`), so a new alarm inserted at or before the cursor is not seen by Change.
- **The dispatcher frees the taken alarm at line 222 without moving the cursor.** A later Change through that cursor would read freed memory. The model reports `DanglingCursor` and changes nothing (`ChangeAfterReleaseDangles`).
- **Change never sets `changed`.** Lines 328-331 overwrite seconds, time, request word and message only. The only place that sets it is line 181, on the alarm the dispatcher takes when the display record already exists; the display thread clears it at line 106, which is not modelled (see "## Left out").

## Model

| member | source | states |
|---|---|---|
| AlarmSpec.InsertPos | New_Alarm_Mutex.c:276-287 | the splice position is within the list; every alarm before it has a smaller id; the alarm at it, if any, has an id >= the new id |
| AlarmSpec.ScanFrom | New_Alarm_Mutex.c:320-342 | the scan stops at or after the cursor; no alarm it passes has the id; if it stops inside the list, the alarm there has the id |
| AlarmSpec.Handle | New_Alarm_Mutex.c:256-365 | after any request the cursor still designates a list position or NULL |
| AlarmSpec.Start | New_Alarm_Mutex.c:256-297 | Start_Alarm grows the list by one, puts the new record (time = now + seconds, request word Start_Alarm) at InsertPos, keeps the cursor in range and leaves the held alarm and display bookkeeping alone |
| AlarmSpec.ChangeOnList | New_Alarm_Mutex.c:320-342 | the scan from a list position reports changed if and only if an alarm with the id lies at or after it, and otherwise not found; not found changes nothing but setting the cursor to NULL; length, held alarm and display bookkeeping are kept; the cursor ends on the list |
| AlarmSpec.Change | New_Alarm_Mutex.c:312-349 | Change_Alarm reports changed, not found or a dangling cursor; it dangles exactly when the cursor is on the taken alarm and that alarm was freed, and then changes nothing; length, cursor range and display bookkeeping are kept |
| AlarmSpec.SleepFor | New_Alarm_Mutex.c:153-156 | sleep_time is never negative, is 0 exactly when the alarm is due, and otherwise reaches the alarm's time from now |
| AlarmSpec.Dispatch | New_Alarm_Mutex.c:131-185 | an empty list changes nothing and gives sleep_time 1; otherwise the head is taken off the list, the rest kept in order, and held, with sleep_time 0 exactly when it is due; thread_id goes up exactly when the first display record is created; a display record exists afterwards once the list was non-empty |
| AlarmSpec.Release | New_Alarm_Mutex.c:214-223 | freeing the held alarm leaves the list and the cursor as they were and keeps the invariant |
| AlarmFacts.SpliceKeepsSorted | New_Alarm_Mutex.c:273-297 | inserting at InsertPos keeps a list sorted ascending by id |
| AlarmFacts.InsertSortedFacts | New_Alarm_Mutex.c:279-297 | Start_Alarm's splice adds exactly one element, the new alarm, at InsertPos; removing it gives back the old list in its old order, and the multiset gains exactly that alarm |
| AlarmFacts.InsertSortedPlace | New_Alarm_Mutex.c:279-297 | every alarm before the new one has a smaller id; on a sorted list every alarm after it has an id at least as large, so the newest alarm is first among equal ids |
| AlarmFacts.StartKeepsCursorTarget | New_Alarm_Mutex.c:276-297 | after Start_Alarm the cursor designates the same alarm or NULL as before, stays in range, and never designates the new alarm |
| AlarmFacts.ChangeOnListFacts | New_Alarm_Mutex.c:320-349 | the scan succeeds if and only if an alarm with the id lies at or after the cursor; on success only the first such alarm is changed (seconds, time = now + seconds, message) and the cursor stays on it; on failure the list is unchanged and the cursor is NULL; length and ids never change |
| AlarmFacts.ChangeFacts | New_Alarm_Mutex.c:312-349 | Change_Alarm keeps length, ids and display bookkeeping; through a cursor on the held alarm whose id matches it revises that alarm and nothing else, the cursor included; through a cursor on a held alarm whose id differs it succeeds if and only if the id lies at or after the held alarm's link, and leaves the held alarm alone; from a cursor on the list it succeeds if and only if the id lies at or after the cursor; it reports a dangling cursor exactly when the held alarm was freed, and then changes nothing; not found leaves list and held alarm unchanged with the cursor NULL |
| AlarmFacts.HandleAtEnd | New_Alarm_Mutex.c:256-349 | with the cursor NULL, a Start inserts and keeps it NULL, a Change reports not found, and any other word is a bad request |
| AlarmFacts.ChangesFailUntilDispatch | New_Alarm_Mutex.c:320-349 | once the cursor is NULL, every later Change_Alarm in any series of requests reports not found, until a dispatch that takes an alarm |
| AlarmFacts.ChangesFailBeforeFirstDispatch | New_Alarm_Mutex.c:51-52 | since globalNext starts NULL, no Change_Alarm succeeds or dangles before the first dispatch |
| AlarmFacts.DispatchFacts | New_Alarm_Mutex.c:146-185 | on an empty list nothing changes and sleep_time is 1; otherwise exactly the head leaves the list and the tail keeps its order; the cursor is set to the taken alarm; sleep_time is 0 if and only if the alarm is due, and otherwise the seconds left; sleep_time is never negative; the display record is created and thread_id incremented exactly when display_list was empty; otherwise the taken alarm is marked changed |
| AlarmFacts.StartKeepsValid | New_Alarm_Mutex.c:256-311 | Start_Alarm keeps the list sorted, the cursor in range and `changed` clear on listed alarms |
| AlarmFacts.ChangeKeepsValid | New_Alarm_Mutex.c:312-361 | Change_Alarm keeps the same invariant |
| AlarmFacts.HandleKeepsValid | New_Alarm_Mutex.c:253-365 | every request keeps the invariant |
| AlarmFacts.DispatchKeepsValid | New_Alarm_Mutex.c:131-185 | the dispatcher step keeps the invariant; thread_id never exceeds 2, so at most one display record is ever created |
| AlarmFacts.ReleaseKeepsValid | New_Alarm_Mutex.c:214-223 | freeing the held alarm keeps the invariant and the list |
| AlarmMutex.AlarmMonitor.constructor | New_Alarm_Mutex.c:43-126 | the program starts with both lists empty, globalNext NULL and thread_id 1 |
| AlarmMutex.AlarmMonitor.StartAlarm | New_Alarm_Mutex.c:256-311 | the list walk and splice yield exactly Start and keep the list sorted; the list grows by one; the alarm at InsertPos has the requested id, seconds and message, and time = now + seconds; the multiset gains exactly the new record; the cursor designates the same alarm as before |
| AlarmMutex.AlarmMonitor.ChangeAlarm | New_Alarm_Mutex.c:312-361 | the scan from the cursor yields exactly Change; not found leaves the list unchanged with the cursor NULL; the length never changes |
| AlarmMutex.AlarmMonitor.HandleRequest | New_Alarm_Mutex.c:256-365 | dispatch on the request word yields exactly Handle |
| AlarmMutex.AlarmMonitor.DispatchStep | New_Alarm_Mutex.c:131-185 | yields exactly Dispatch; sleep_time >= 0; an empty list is left as it was with sleep_time 1; otherwise the list loses its head, which is now the held alarm |
| AlarmMutex.AlarmMonitor.ReleaseAlarm | New_Alarm_Mutex.c:214-223 | the held alarm is dropped and nothing else changes, the cursor included |
| AlarmScenarios.IdOrderIgnoresDuration | New_Alarm_Mutex.c:276-297 | alarms 1 and 2 end up in order [1, 2] whatever their durations and arrival order |
| AlarmScenarios.ZeroSecondsNeverSleeps | New_Alarm_Mutex.c:146-156 | an alarm of 0 seconds gives sleep_time 0 on the next dispatch |
| AlarmScenarios.ChangeBeforeDispatchIsRejected | New_Alarm_Mutex.c:312-349 | Start(10, 20, "hello") then Change(10, 5, "bye") before any dispatch reports not found and leaves "hello" |
| AlarmScenarios.ChangeAfterDispatch | New_Alarm_Mutex.c:149-151 | after alarm 1 is taken: Change(1) updates the taken alarm only; Change(2) updates alarm 2 in the list; a later Change(1) is rejected |
| AlarmScenarios.ChangeAfterReleaseDangles | New_Alarm_Mutex.c:214-223 | after the taken alarm is freed, the next Change would go through the freed node |

## Left out

- The display thread (lines 55-113) is not modelled. It waits on a condition variable, reads `alarm_list` without a meaningful critical section, and loops on `sleep(5)`. So `changed` is never cleared (line 106 is not modelled) and `display_list` is never emptied in the model.
- Locking, condition signalling, thread creation, `sleep` and `sched_yield` are not modelled; only `sleep_time` is computed. StartAlarm, ChangeAlarm and DispatchStep are each one critical section; ReleaseAlarm is the unlocked free (see the ReleaseAlarm line). A sequence of calls stands for one interleaving of these steps up to the point where the program deadlocks (see the DispatchStep line).
- `time(NULL)` is a parameter `now`. One critical section reads one `now`, although the C code may call `time` several times.
- Not modelled: `fgets`, the empty-line check, `sscanf` parsing and its "Bad command" path. The model takes an already-parsed request; an unrecognised word gives `BadRequest`.
- `printf` output and the `DEBUG` list dumps are not modelled.
- `malloc`/`free` and the `err_abort`/`errno_abort` fatal paths are not modelled. The `free(alarm)` at line 364, on an unrecognised request word, is not modelled either (see `AlarmSpec.Handle` below).
- Messages and request words are unbounded strings. The 128- and 20-byte buffers and their copies are not modelled.
- Integers are unbounded. `seconds` is a C `int` and `time` a `time_t`. Wrap-around of `now + seconds` is not modelled. Neither is the truncation of `alarm->time - now` into the `int` sleep_time.
- A new alarm's `changed` is false in the model. In the source, `malloc` leaves it uninitialised.
- ChangeFacts: where the source reads an alarm it has already freed, the model returns `DanglingCursor` and changes nothing. The source's behaviour there is undefined.
- DispatchFacts: requires that the previous iteration has released its alarm. The loop always runs lines 214-223 before the next iteration.
- DispatchStep: where display_list already exists, line 182 locks `alarm_mutex` a second time while the alarm thread still holds it from line 132. The mutex is a default one (line 43), so this is undefined and on common implementations the alarm thread blocks forever there, and the main thread then blocks at its next lock (line 258 or 314). The model completes that step (it marks the taken alarm changed) and accepts later calls, so every sequence of calls that contains a second non-empty dispatch goes beyond what the program can reach.
- AlarmSpec.Handle: on an unrecognised request word the source frees main's `alarm` pointer (line 364), which still designates the record of the last Start_Alarm (line 263). That record may still be in `alarm_list`, may be the one the alarm thread holds, or may already have been freed at line 222 (a double free); with no earlier Start_Alarm the pointer is uninitialised. The model reports `BadRequest` and leaves the state unchanged.
- ReleaseAlarm: the `printf` at line 215 and the `free(alarm)` at line 222 run after the mutex is released at line 202 and before it is taken again at line 132. A Change_Alarm holding the mutex may at that moment be reading (line 322) or writing (lines 328-331) the same node through `globalNext`, which is a data race and may write into freed memory. The model makes the release one atomic step, so it shows only the two orderings, the whole release before a Change or after it, and not their overlap.
