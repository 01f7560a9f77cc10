/**
 * Properties of the transition functions of AlarmSpec: what Start_Alarm,
 * Change_Alarm and the dispatcher step do to the alarm list, the cursor and the
 * display bookkeeping, that every step keeps the state Valid, and a few
 * concrete request sequences.
 */
module AlarmFacts {
  import opened AlarmSpec

  /** The alarm at position i, or None for the NULL end of the list. */
  function At(s: seq<Alarm>, i: nat): Option<Alarm> {
    if i < |s| then Some(s[i]) else None
  }

  /** The position in the list a cursor reaches next: itself, or the taken alarm's link. */
  function CursorPos(c: Cursor): nat {
    match c
    case OnList(pos) => pos
    case OnTaken(link) => link
  }

  lemma SpliceKeepsSorted(s: seq<Alarm>, a: Alarm)
    requires Sorted(s)
    ensures Sorted(InsertSorted(s, a))
  {
    var p := InsertPos(s, a.id);
    var t := InsertSorted(s, a);
    forall i, j | 0 <= i < j < |t| ensures t[i].id <= t[j].id {
      if j < p {
        assert t[i] == s[i] && t[j] == s[j];
      } else if j == p {
        assert t[i] == s[i];
      } else if i < p {
        assert t[i] == s[i] && t[j] == s[j - 1];
        assert s[i].id < a.id <= s[p].id <= s[j - 1].id;
      } else if i == p {
        assert t[j] == s[j - 1];
        assert a.id <= s[p].id <= s[j - 1].id;
      } else {
        assert t[i] == s[i - 1] && t[j] == s[j - 1];
      }
    }
  }

  /**
   * Start_Alarm's splice grows the list by exactly the new alarm: removing it
   * gives back the old list, in its old order.
   */
  lemma InsertSortedFacts(s: seq<Alarm>, a: Alarm)
    ensures var t := InsertSorted(s, a);
            var p := InsertPos(s, a.id);
            && |t| == |s| + 1
            && t[p] == a
            && t[..p] + t[p + 1..] == s
            && multiset(t) == multiset(s) + multiset{a}
  {
    var p := InsertPos(s, a.id);
    assert InsertSorted(s, a) == s[..p] + [a] + s[p..];
    Splice(s, p, a);
  }

  /**
   * The new alarm lands before the first alarm whose id is >= its id (at the
   * tail if there is none): every alarm before it has a smaller id and, on a
   * sorted list, every alarm after it an id at least as large, so it comes
   * first among the alarms with its id.
   */
  lemma InsertSortedPlace(s: seq<Alarm>, a: Alarm)
    ensures var t := InsertSorted(s, a);
            var p := InsertPos(s, a.id);
            && |t| == |s| + 1
            && (forall k :: 0 <= k < p ==> t[k].id < a.id)
            && (Sorted(s) ==> forall k :: p < k < |t| ==> t[k].id >= a.id)
  {
    var p := InsertPos(s, a.id);
    var t := InsertSorted(s, a);
    assert t == s[..p] + [a] + s[p..];
    forall k | 0 <= k < p ensures t[k].id < a.id {
      assert t[k] == s[k];
    }
    if Sorted(s) {
      forall k | p < k < |t| ensures t[k].id >= a.id {
        assert t[k] == s[k - 1];
        assert s[p].id <= s[k - 1].id;
      }
    }
  }

  /** Splicing one element into a sequence removes nothing and reorders nothing. */
  lemma Splice(s: seq<Alarm>, p: nat, a: Alarm)
    requires p <= |s|
    ensures var t := s[..p] + [a] + s[p..];
            && |t| == |s| + 1 && t[p] == a
            && t[..p] + t[p + 1..] == s
            && multiset(t) == multiset(s) + multiset{a}
  {
    var t := s[..p] + [a] + s[p..];
    assert t[..p] == s[..p];
    assert t[p + 1..] == s[p..];
    assert s[..p] + s[p..] == s;
    assert multiset(t) == multiset(s[..p]) + multiset{a} + multiset(s[p..]);
    assert multiset(s[..p] + s[p..]) == multiset(s[..p]) + multiset(s[p..]);
  }

  /**
   * The cursor designates the same alarm (or NULL) after Start_Alarm as before,
   * and never the new alarm: an alarm spliced in at or before globalNext is not
   * seen by Change_Alarm until the next dispatcher step.
   */
  lemma StartKeepsCursorTarget(r: Registry, id: int, seconds: int, message: string, now: int)
    requires CursorInRange(r.cursor, |r.alarms|)
    ensures var r' := Start(r, id, seconds, message, now);
            && r'.cursor.OnList? == r.cursor.OnList?
            && CursorInRange(r'.cursor, |r'.alarms|)
            && At(r'.alarms, CursorPos(r'.cursor)) == At(r.alarms, CursorPos(r.cursor))
            && CursorPos(r'.cursor) != InsertPos(r.alarms, id)
  {
    var p := InsertPos(r.alarms, id);
    var s := r.alarms;
    var t := InsertSorted(s, NewAlarm(id, seconds, message, now));
    var c := CursorPos(r.cursor);
    if p <= c && c < |s| {
      assert t[c + 1] == s[c];
    } else if c < p {
      assert t[c] == s[c];
    }
  }

  /**
   * The scan of Change_Alarm from position pos: it succeeds exactly when an alarm
   * with the id sits at or after pos; then it revises the first such alarm only
   * and leaves globalNext on it; otherwise the list is untouched and globalNext
   * is NULL.
   */
  lemma ChangeOnListFacts(r: Registry, pos: nat, id: int, seconds: int, message: string, now: int)
    requires pos <= |r.alarms|
    ensures var (r', o) := ChangeOnList(r, pos, id, seconds, message, now);
            var k := ScanFrom(r.alarms, pos, id);
            && (o == Changed <==> exists j :: pos <= j < |r.alarms| && r.alarms[j].id == id)
            && (o == Changed || o == NotFound)
            && |r'.alarms| == |r.alarms|
            && (forall j :: 0 <= j < |r.alarms| ==> r'.alarms[j].id == r.alarms[j].id)
            && (forall j :: 0 <= j < |r.alarms| && j != k ==> r'.alarms[j] == r.alarms[j])
            && (o == Changed ==>
                  && k < |r.alarms| && r.alarms[k].id == id
                  && (forall j :: pos <= j < k ==> r.alarms[j].id != id)
                  && r'.alarms[k] == Revise(r.alarms[k], seconds, message, now)
                  && r'.alarms[k].time == now + seconds
                  && r'.cursor == OnList(k))
            && (o == NotFound ==> r'.alarms == r.alarms && r'.cursor == OnList(|r.alarms|))
            && r'.current == r.current && r'.display == r.display && r'.threadId == r.threadId
  {
    var k := ScanFrom(r.alarms, pos, id);
    if exists j :: pos <= j < |r.alarms| && r.alarms[j].id == id {
      var j :| pos <= j < |r.alarms| && r.alarms[j].id == id;
      assert k <= j;
    }
  }

  /**
   * Change_Alarm as a whole.  Through a cursor on the alarm the dispatcher holds
   * it revises that alarm when the id matches (the list is untouched), reports a
   * dangling cursor when that alarm was freed, and otherwise scans the list from
   * the held alarm's link.  It never changes ids, order, length or the display
   * bookkeeping.
   */
  lemma ChangeFacts(r: Registry, id: int, seconds: int, message: string, now: int)
    requires Valid(r)
    ensures var (r', o) := Change(r, id, seconds, message, now);
            && |r'.alarms| == |r.alarms|
            && (forall j :: 0 <= j < |r.alarms| ==> r'.alarms[j].id == r.alarms[j].id)
            && r'.display == r.display && r'.threadId == r.threadId
            && (o == DanglingCursor <==> r.cursor.OnTaken? && r.current.None?)
            && (o == DanglingCursor ==> r' == r)
            && (r.cursor.OnTaken? && r.current.Some? && r.current.value.id == id ==>
                  (r', o) == (r.(current := Some(Revise(r.current.value, seconds, message, now))), Changed))
            && (r.cursor.OnTaken? && r.current.Some? && r.current.value.id != id ==>
                  && (o == Changed <==> exists j :: r.cursor.link <= j < |r.alarms| && r.alarms[j].id == id)
                  && r'.current == r.current)
            && (r.cursor.OnList? ==>
                  && (o == Changed <==> exists j :: r.cursor.pos <= j < |r.alarms| && r.alarms[j].id == id)
                  && r'.current == r.current)
            && (o == NotFound ==> r'.alarms == r.alarms && r'.current == r.current
                                  && r'.cursor == OnList(|r.alarms|))
            && o != Inserted && o != BadRequest
  {
    match r.cursor
    case OnList(pos) =>
      ChangeOnListFacts(r, pos, id, seconds, message, now);
    case OnTaken(link) =>
      if r.current.Some? && r.current.value.id != id {
        ChangeOnListFacts(r, link, id, seconds, message, now);
      }
  }

  /** What a request yields while globalNext is NULL. */
  function OutcomeAtEnd(req: Request): Outcome {
    if req.reqType == StartAlarmWord then Inserted
    else if req.reqType == ChangeAlarmWord then NotFound
    else BadRequest
  }

  /** With globalNext NULL, Start_Alarm leaves it NULL and Change_Alarm reports not found. */
  lemma HandleAtEnd(r: Registry, req: Request, now: int)
    requires r.cursor == OnList(|r.alarms|)
    ensures Handle(r, req, now).0.cursor == OnList(|Handle(r, req, now).0.alarms|)
    ensures Handle(r, req, now).1 == OutcomeAtEnd(req)
  {
    if req.reqType != StartAlarmWord && req.reqType == ChangeAlarmWord {
      ChangeOnListFacts(r, |r.alarms|, req.id, req.seconds, req.message, now);
    }
  }

  /**
   * Once globalNext is NULL (after a failed Change_Alarm, or at start-up) every
   * later Change_Alarm fails, whatever Start_Alarm requests come in between,
   * until a dispatcher step resets the cursor.
   */
  lemma {:induction false} ChangesFailUntilDispatch(r: Registry, subs: seq<Submission>)
    requires r.cursor == OnList(|r.alarms|)
    ensures |Run(r, subs).1| == |subs|
    ensures Run(r, subs).0.cursor == OnList(|Run(r, subs).0.alarms|)
    ensures forall i :: 0 <= i < |subs| ==> Run(r, subs).1[i] == OutcomeAtEnd(subs[i].req)
    decreases |subs|
  {
    if subs != [] {
      var h := Handle(r, subs[0].req, subs[0].now);
      HandleAtEnd(r, subs[0].req, subs[0].now);
      ChangesFailUntilDispatch(h.0, subs[1..]);
      var rest := Run(h.0, subs[1..]);
      assert Run(r, subs) == (rest.0, [h.1] + rest.1);
      forall i | 0 <= i < |subs| ensures ([h.1] + rest.1)[i] == OutcomeAtEnd(subs[i].req) {
        if i > 0 {
          assert subs[1..][i - 1] == subs[i];
        }
      }
    }
  }

  /** globalNext starts out NULL, so before the first dispatch no Change_Alarm succeeds. */
  lemma ChangesFailBeforeFirstDispatch(subs: seq<Submission>)
    ensures |Run(Initial(), subs).1| == |subs|
    ensures forall i :: 0 <= i < |subs| ==>
              Run(Initial(), subs).1[i] != Changed && Run(Initial(), subs).1[i] != DanglingCursor
  {
    ChangesFailUntilDispatch(Initial(), subs);
  }

  /**
   * One dispatcher step.  On an empty list nothing changes and the thread
   * sleeps one second.  Otherwise exactly the head leaves the list (the tail
   * keeps its order), globalNext is set to it, the sleep time is the time left
   * until it is due and never negative, and either the display record is
   * created (thread_id counted up) or the taken alarm is marked changed.
   */
  lemma DispatchFacts(r: Registry, now: int)
    requires Valid(r) && r.current.None?
    ensures var (r', sleep) := Dispatch(r, now);
            && sleep >= 0
            && (r.alarms == [] ==> r' == r && sleep == 1)
            && (r.alarms != [] ==>
                  && r'.alarms == r.alarms[1..]
                  && [r.alarms[0]] + r'.alarms == r.alarms
                  && r'.cursor == OnTaken(0)
                  && r'.current == Some(r.alarms[0].(changed := r.display.Some?))
                  && (sleep == 0 <==> r.alarms[0].time <= now)
                  && (sleep > 0 ==> r.alarms[0].time == now + sleep)
                  && (r.display.None? ==> r'.display == Some(Display(1, now)) && r'.threadId == r.threadId + 1)
                  && (r.display.Some? ==> r'.display == r.display && r'.threadId == r.threadId))
  {
    if r.alarms != [] {
      assert !r.alarms[0].changed;
    }
  }

  lemma StartKeepsValid(r: Registry, id: int, seconds: int, message: string, now: int)
    requires Valid(r)
    ensures Valid(Start(r, id, seconds, message, now))
  {
    var a := NewAlarm(id, seconds, message, now);
    SpliceKeepsSorted(r.alarms, a);
    StartKeepsCursorTarget(r, id, seconds, message, now);
    var p := InsertPos(r.alarms, id);
    var t := InsertSorted(r.alarms, a);
    forall k | 0 <= k < |t| ensures !t[k].changed {
      if k < p { assert t[k] == r.alarms[k]; }
      else if k > p { assert t[k] == r.alarms[k - 1]; }
    }
  }

  lemma ChangeKeepsValid(r: Registry, id: int, seconds: int, message: string, now: int)
    requires Valid(r)
    ensures Valid(Change(r, id, seconds, message, now).0)
  {
    ChangeFacts(r, id, seconds, message, now);
    var r' := Change(r, id, seconds, message, now).0;
    var k := ScanFrom(r.alarms, CursorPos(r.cursor), id);
    if r.cursor.OnList? || (r.current.Some? && r.current.value.id != id) {
      ChangeOnListFacts(r, CursorPos(r.cursor), id, seconds, message, now);
      forall j | 0 <= j < |r'.alarms| ensures !r'.alarms[j].changed {
        if j != k { assert r'.alarms[j] == r.alarms[j]; }
      }
    }
  }

  lemma HandleKeepsValid(r: Registry, req: Request, now: int)
    requires Valid(r)
    ensures Valid(Handle(r, req, now).0)
  {
    if req.reqType == StartAlarmWord {
      StartKeepsValid(r, req.id, req.seconds, req.message, now);
    } else if req.reqType == ChangeAlarmWord {
      ChangeKeepsValid(r, req.id, req.seconds, req.message, now);
    }
  }

  /** The dispatcher step keeps the invariant; in particular thread_id only goes from 1 to 2. */
  lemma DispatchKeepsValid(r: Registry, now: int)
    requires Valid(r) && r.current.None?
    ensures Valid(Dispatch(r, now).0)
    ensures Dispatch(r, now).0.threadId <= 2
  {
  }

  lemma ReleaseKeepsValid(r: Registry)
    requires Valid(r)
    ensures Valid(Release(r)) && Release(r).alarms == r.alarms && Release(r).current.None?
  {
  }
}
