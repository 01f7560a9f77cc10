/**
 * Concrete request sequences and what the code does with them, stated on the
 * transition functions of AlarmSpec.
 */
module AlarmScenarios {
  import opened AlarmSpec

  /** Alarms 1 and 2 end up in id order whatever their durations and arrival order. */
  lemma IdOrderIgnoresDuration(d1: int, d2: int, t1: int, t2: int)
    ensures var r := Start(Start(Initial(), 1, d1, "a", t1), 2, d2, "b", t2);
            |r.alarms| == 2 && r.alarms[0].id == 1 && r.alarms[1].id == 2
    ensures var r := Start(Start(Initial(), 2, d2, "b", t2), 1, d1, "a", t1);
            |r.alarms| == 2 && r.alarms[0].id == 1 && r.alarms[1].id == 2
  {
    var r1 := Start(Initial(), 1, d1, "a", t1);
    assert InsertPos(r1.alarms, 2) == 1;
    var r2 := Start(Initial(), 2, d2, "b", t2);
    assert InsertPos(r2.alarms, 1) == 0;
  }

  /** An alarm of zero seconds is due at once: the dispatcher does not sleep for it. */
  lemma ZeroSecondsNeverSleeps(t: int, later: int)
    requires t <= later
    ensures var (r, sleep) := Dispatch(Start(Initial(), 5, 0, "x", t), later);
            sleep == 0 && r.alarms == [] && r.current.Some? && r.current.value.id == 5
  {
  }

  /**
   * Change_Alarm right after Start_Alarm, before any dispatch, reports not found
   * and the alarm keeps its first duration and message: globalNext is still NULL.
   */
  lemma ChangeBeforeDispatchIsRejected(t1: int, t2: int)
    ensures var (r, o) := Change(Start(Initial(), 10, 20, "hello", t1), 10, 5, "bye", t2);
            o == NotFound && r.alarms == [NewAlarm(10, 20, "hello", t1)]
  {
  }

  /**
   * After the dispatcher takes alarm 1, a Change of 1 revises the taken alarm
   * (not the list), a Change of 2 revises alarm 2 in the list, and after that a
   * Change of 1 is rejected because globalNext has moved past the taken alarm.
   */
  lemma ChangeAfterDispatch(t: int, later: int)
    ensures var r := Dispatch(Start(Start(Initial(), 1, 10, "a", t), 2, 10, "b", t), t).0;
            var (r1, o1) := Change(r, 1, 3, "c", later);
            var (r2, o2) := Change(r, 2, 5, "bye", later);
            var (r3, o3) := Change(r2, 1, 3, "c", later);
            && o1 == Changed && r1.alarms == r.alarms && r1.current.value.message == "c"
            && o2 == Changed && r2.alarms[0].message == "bye" && r2.alarms[0].time == later + 5
            && o3 == NotFound && r3.alarms == r2.alarms
  {
    var r0 := Start(Initial(), 1, 10, "a", t);
    assert InsertPos(r0.alarms, 2) == 1;
  }

  /**
   * Once the dispatcher has freed the alarm globalNext points at, the next
   * Change_Alarm would read freed memory.
   */
  lemma ChangeAfterReleaseDangles(t: int, later: int)
    ensures var r := Release(Dispatch(Start(Initial(), 1, 0, "a", t), t).0);
            Change(r, 1, 5, "b", later).1 == DanglingCursor
  {
  }
}
