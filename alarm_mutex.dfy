/**
 * The alarm list of New_Alarm_Mutex.c as an object whose fields the main thread
 * (Start_Alarm, Change_Alarm) and the alarm thread (one loop iteration) update in
 * place.  Each method is one critical section; its result is tied to the
 * transition function of AlarmSpec that the lemmas of AlarmFacts are about.
 */
module AlarmMutex {
  import opened AlarmSpec
  import opened AlarmFacts

  class AlarmMonitor {
    var alarms: seq<Alarm>        // alarm_list, head first
    var cursor: Cursor            // globalNext
    var current: Option<Alarm>    // the alarm thread's `alarm`, from taking it to freeing it
    var display: Option<Display>  // display_list
    var threadId: int             // the alarm thread's thread_id counter

    function State(): Registry
      reads this
    {
      Registry(alarms, cursor, current, display, threadId)
    }

    predicate Valid()
      reads this
    {
      AlarmSpec.Valid(State())
    }

    /** Program start: both lists empty, globalNext NULL, thread_id 1. */
    constructor ()
      ensures Valid() && State() == Initial()
    {
      alarms := [];
      cursor := OnList(0);
      current := None;
      display := None;
      threadId := 1;
    }

    /**
     * Start_Alarm: build the record, walk the list to the first alarm whose id is
     * >= the new id and splice the record in before it, or at the tail.
     */
    method StartAlarm(id: int, seconds: int, message: string, now: int)
      requires Valid()
      modifies this
      ensures Valid()
      ensures State() == Start(old(State()), id, seconds, message, now)
      ensures |alarms| == |old(alarms)| + 1
      ensures var p := InsertPos(old(alarms), id);
              alarms[p].id == id && alarms[p].seconds == seconds && alarms[p].message == message
              && alarms[p].time == now + seconds
      ensures multiset(alarms) == multiset(old(alarms)) + multiset{NewAlarm(id, seconds, message, now)}
      ensures At(alarms, CursorPos(cursor)) == old(At(alarms, CursorPos(cursor)))
    {
      ghost var before := State();
      var alarm := NewAlarm(id, seconds, message, now);
      var i := 0;
      while i < |alarms| && alarms[i].id < id
        invariant i <= InsertPos(alarms, id)
        invariant forall k :: 0 <= k < i ==> alarms[k].id < id
      {
        i := i + 1;
      }
      assert i == InsertPos(alarms, id);
      alarms := alarms[..i] + [alarm] + alarms[i..];
      cursor := ShiftCursor(cursor, i);
      assert State() == Start(before, id, seconds, message, now);
      InsertSortedFacts(before.alarms, alarm);
      StartKeepsCursorTarget(before, id, seconds, message, now);
      StartKeepsValid(before, id, seconds, message, now);
    }

    /**
     * Change_Alarm: starting where globalNext points, advance it node by node to
     * the first alarm with the id and overwrite its seconds, time and message;
     * report not found when it runs off the end.
     */
    method ChangeAlarm(id: int, seconds: int, message: string, now: int) returns (outcome: Outcome)
      requires Valid()
      modifies this
      ensures Valid()
      ensures (State(), outcome) == Change(old(State()), id, seconds, message, now)
      ensures outcome == NotFound ==> alarms == old(alarms) && cursor == OnList(|alarms|)
      ensures |alarms| == |old(alarms)|
    {
      ghost var before := State();
      if cursor.OnTaken? {
        if current.None? {
          return DanglingCursor;
        }
        if current.value.id == id {
          current := Some(Revise(current.value, seconds, message, now));
          return Changed;
        }
        cursor := OnList(cursor.link);
      }
      ghost var from := cursor.pos;
      while cursor.pos < |alarms| && alarms[cursor.pos].id != id
        invariant cursor.OnList? && from <= cursor.pos <= |alarms|
        invariant State() == before.(cursor := cursor)
        invariant ScanFrom(alarms, cursor.pos, id) == ScanFrom(alarms, from, id)
        decreases |alarms| - cursor.pos
      {
        cursor := OnList(cursor.pos + 1);
      }
      if cursor.pos < |alarms| {
        alarms := alarms[cursor.pos := Revise(alarms[cursor.pos], seconds, message, now)];
        outcome := Changed;
      } else {
        outcome := NotFound;
      }
      ChangeKeepsValid(before, id, seconds, message, now);
      ChangeFacts(before, id, seconds, message, now);
    }

    /** The main thread's choice between the two request words. */
    method HandleRequest(req: Request, now: int) returns (outcome: Outcome)
      requires Valid()
      modifies this
      ensures Valid()
      ensures (State(), outcome) == Handle(old(State()), req, now)
    {
      if req.reqType == StartAlarmWord {
        StartAlarm(req.id, req.seconds, req.message, now);
        outcome := Inserted;
      } else if req.reqType == ChangeAlarmWord {
        outcome := ChangeAlarm(req.id, req.seconds, req.message, now);
      } else {
        outcome := BadRequest;
      }
    }

    /**
     * The locked part of one alarm-thread iteration.  Returns sleep_time, which
     * is 1 for an empty list and otherwise the seconds until the taken alarm is
     * due, never negative.
     */
    method DispatchStep(now: int) returns (sleepTime: int)
      requires Valid() && current.None?
      modifies this
      ensures Valid()
      ensures (State(), sleepTime) == Dispatch(old(State()), now)
      ensures sleepTime >= 0
      ensures old(alarms) == [] ==> State() == old(State()) && sleepTime == 1
      ensures old(alarms) != [] ==> alarms == old(alarms)[1..] && current.Some? && current.value.id == old(alarms)[0].id
    {
      if alarms == [] {
        sleepTime := 1;
      } else {
        var alarm := alarms[0];
        cursor := OnTaken(0);
        alarms := alarms[1..];
        current := Some(alarm);
        sleepTime := SleepFor(alarm.time, now);
        if display.None? {
          display := Some(Display(1, now));
          threadId := threadId + 1;
        } else {
          current := Some(alarm.(changed := true));
        }
      }
    }

    /**
     * The end of the iteration, after the mutex is released: the taken alarm is
     * freed; globalNext is not touched.
     */
    method ReleaseAlarm()
      requires Valid()
      modifies this
      ensures Valid()
      ensures State() == Release(old(State()))
    {
      if current.Some? {
        current := None;
      }
    }
  }
}
