/**
 * The state shared by the main thread and the alarm thread of New_Alarm_Mutex.c,
 * as a value, and one pure transition function per critical section:
 * Start_Alarm, Change_Alarm, one dispatcher iteration and the release of the
 * alarm the dispatcher held.  Time is a parameter `now` (seconds since the epoch).
 */
module AlarmSpec {

  datatype Option<T> = None | Some(value: T)

  /** One node of alarm_list (alarm_t) without its link: the list order is the link. */
  datatype Alarm = Alarm(
    id: int,          // alarm_id, the sort and lookup key
    seconds: int,     // duration the user asked for
    time: int,        // absolute expiry: the time of the last Start or Change plus seconds
    message: string,
    changed: bool,
    reqType: string)  // the request word that last wrote this node

  /** The single node of display_list. */
  datatype Display = Display(threadId: int, creationTime: int)

  /**
   * Where the global cursor globalNext points.
   * OnList(pos): at alarms[pos], or NULL when pos == |alarms|.
   * OnTaken(link): at the alarm the dispatcher took off the list; that node's
   * link is alarms[link], or NULL when link == |alarms|.
   */
  datatype Cursor = OnList(pos: nat) | OnTaken(link: nat)

  /**
   * alarm_list, globalNext, the alarm held by the alarm thread between taking it
   * off the list and freeing it (`alarm` in alarm_thread), display_list and the
   * alarm thread's thread_id counter.
   */
  datatype Registry = Registry(
    alarms: seq<Alarm>,
    cursor: Cursor,
    current: Option<Alarm>,
    display: Option<Display>,
    threadId: int)

  /** What a request did; DanglingCursor marks a Change that would read freed memory. */
  datatype Outcome = Inserted | Changed | NotFound | DanglingCursor | BadRequest

  /** An already-parsed command line: request word, id, seconds and message. */
  datatype Request = Request(reqType: string, id: int, seconds: int, message: string)

  /** A request together with the clock reading taken while handling it. */
  datatype Submission = Submission(req: Request, now: int)

  const StartAlarmWord: string := "Start_Alarm"
  const ChangeAlarmWord: string := "Change_Alarm"

  predicate Sorted(s: seq<Alarm>) {
    forall i, j :: 0 <= i < j < |s| ==> s[i].id <= s[j].id
  }

  predicate CursorInRange(c: Cursor, n: nat) {
    match c
    case OnList(pos) => pos <= n
    case OnTaken(link) => link <= n
  }

  /**
   * What every reachable state satisfies: the list is sorted by id, the cursor
   * is in range, `changed` is set only on the alarm the dispatcher holds, and the
   * thread_id counter has moved past 1 exactly when the display record exists.
   */
  predicate Valid(r: Registry) {
    && Sorted(r.alarms)
    && CursorInRange(r.cursor, |r.alarms|)
    && (forall k :: 0 <= k < |r.alarms| ==> !r.alarms[k].changed)
    && (r.display.None? ==> r.threadId == 1)
    && (r.display.Some? ==> r.threadId == 2 && r.display.value.threadId == 1)
  }

  /** The state before any request: empty lists, globalNext NULL, thread_id 1. */
  function Initial(): Registry {
    Registry([], OnList(0), None, None, 1)
  }

  /** The record Start_Alarm builds. */
  function NewAlarm(id: int, seconds: int, message: string, now: int): Alarm {
    Alarm(id, seconds, now + seconds, message, false, StartAlarmWord)
  }

  /** The position Start_Alarm splices a new alarm with this id into. */
  function InsertPos(s: seq<Alarm>, id: int): (p: nat)
    ensures p <= |s|
    ensures forall k :: 0 <= k < p ==> s[k].id < id
    ensures p < |s| ==> s[p].id >= id
  {
    if s == [] || s[0].id >= id then 0 else 1 + InsertPos(s[1..], id)
  }

  /**
   * Where a cursor points after a node was spliced in at position p: it keeps
   * designating the same node (or NULL), whose position moves up when the new
   * node lands at or before it.
   */
  function ShiftCursor(c: Cursor, p: nat): Cursor {
    match c
    case OnList(pos) => OnList(if p <= pos then pos + 1 else pos)
    case OnTaken(link) => OnTaken(if p <= link then link + 1 else link)
  }

  /** The list after Start_Alarm's splice of alarm a. */
  function InsertSorted(s: seq<Alarm>, a: Alarm): seq<Alarm> {
    var p := InsertPos(s, a.id);
    s[..p] + [a] + s[p..]
  }

  /** Start_Alarm: sorted insert before the first alarm whose id is >= the new id. */
  function Start(r: Registry, id: int, seconds: int, message: string, now: int): (r': Registry)
    ensures |r'.alarms| == |r.alarms| + 1
    ensures r'.alarms[InsertPos(r.alarms, id)] == NewAlarm(id, seconds, message, now)
    ensures CursorInRange(r.cursor, |r.alarms|) ==> CursorInRange(r'.cursor, |r'.alarms|)
    ensures r'.current == r.current && r'.display == r.display && r'.threadId == r.threadId
  {
    r.(alarms := InsertSorted(r.alarms, NewAlarm(id, seconds, message, now)),
       cursor := ShiftCursor(r.cursor, InsertPos(r.alarms, id)))
  }

  /** The position of the first alarm with this id at or after position c, or |s|. */
  function ScanFrom(s: seq<Alarm>, c: nat, id: int): (k: nat)
    requires c <= |s|
    ensures c <= k <= |s|
    ensures forall j :: c <= j < k ==> s[j].id != id
    ensures k < |s| ==> s[k].id == id
    decreases |s| - c
  {
    if c == |s| || s[c].id == id then c else ScanFrom(s, c + 1, id)
  }

  /** The fields Change_Alarm overwrites; `changed` and the id are left alone. */
  function Revise(a: Alarm, seconds: int, message: string, now: int): Alarm {
    a.(seconds := seconds, time := now + seconds, message := message, reqType := ChangeAlarmWord)
  }

  /** The scan loop of Change_Alarm, started with globalNext at alarms[pos]. */
  function ChangeOnList(r: Registry, pos: nat, id: int, seconds: int, message: string, now: int): (res: (Registry, Outcome))
    requires pos <= |r.alarms|
    ensures res.1 == Changed || res.1 == NotFound
    ensures res.1 == Changed <==> exists j :: pos <= j < |r.alarms| && r.alarms[j].id == id
    ensures res.1 == NotFound ==> res.0 == r.(cursor := OnList(|r.alarms|))
    ensures |res.0.alarms| == |r.alarms| && res.0.cursor.OnList? && res.0.cursor.pos <= |r.alarms|
    ensures res.0.current == r.current && res.0.display == r.display && res.0.threadId == r.threadId
  {
    var k := ScanFrom(r.alarms, pos, id);
    if k == |r.alarms| then
      (r.(cursor := OnList(k)), NotFound)
    else
      (r.(alarms := r.alarms[k := Revise(r.alarms[k], seconds, message, now)], cursor := OnList(k)), Changed)
  }

  /**
   * Change_Alarm: search from wherever globalNext points, never from the head.
   * When it points at the alarm the dispatcher took and that alarm has been
   * freed, the source reads freed memory; the model changes nothing.
   */
  function Change(r: Registry, id: int, seconds: int, message: string, now: int): (res: (Registry, Outcome))
    requires CursorInRange(r.cursor, |r.alarms|)
    ensures res.1 != Inserted && res.1 != BadRequest
    ensures res.1 == DanglingCursor <==> r.cursor.OnTaken? && r.current.None?
    ensures res.1 == DanglingCursor ==> res.0 == r
    ensures |res.0.alarms| == |r.alarms| && CursorInRange(res.0.cursor, |res.0.alarms|)
    ensures res.0.display == r.display && res.0.threadId == r.threadId
  {
    match r.cursor
    case OnList(pos) => ChangeOnList(r, pos, id, seconds, message, now)
    case OnTaken(link) =>
      if r.current.None? then (r, DanglingCursor)
      else if r.current.value.id == id then
        (r.(current := Some(Revise(r.current.value, seconds, message, now))), Changed)
      else ChangeOnList(r, link, id, seconds, message, now)
  }

  /** The main thread's dispatch on the request word. */
  function Handle(r: Registry, req: Request, now: int): (res: (Registry, Outcome))
    requires CursorInRange(r.cursor, |r.alarms|)
    ensures CursorInRange(res.0.cursor, |res.0.alarms|)
  {
    if req.reqType == StartAlarmWord then
      (Start(r, req.id, req.seconds, req.message, now), Inserted)
    else if req.reqType == ChangeAlarmWord then
      Change(r, req.id, req.seconds, req.message, now)
    else
      (r, BadRequest)
  }

  /** The seconds the alarm thread waits for an alarm due at `time`. */
  function SleepFor(time: int, now: int): (t: int)
    ensures t >= 0
    ensures t == 0 <==> time <= now
    ensures t > 0 ==> now + t == time
  {
    if time <= now then 0 else time - now
  }

  /**
   * The locked part of one alarm-thread iteration: take the head (resetting
   * globalNext to it first), compute the sleep time, then either create the
   * display record or mark the taken alarm changed.  Returns the new state and
   * sleep_time.  The previous iteration has released its alarm.
   */
  function Dispatch(r: Registry, now: int): (res: (Registry, int))
    requires r.current.None?
    ensures res.1 >= 0
    ensures r.alarms == [] ==> res == (r, 1)
    ensures r.alarms != [] ==>
              && [r.alarms[0]] + res.0.alarms == r.alarms
              && res.0.current.Some? && res.0.current.value.id == r.alarms[0].id
              && (res.1 == 0 <==> r.alarms[0].time <= now)
    ensures res.0.threadId == if r.display.None? && r.alarms != [] then r.threadId + 1 else r.threadId
    ensures res.0.display.Some? <==> r.display.Some? || r.alarms != []
  {
    if r.alarms == [] then
      (r, 1)
    else
      var a := r.alarms[0];
      var taken := r.(alarms := r.alarms[1..], cursor := OnTaken(0));
      if r.display.None? then
        (taken.(current := Some(a), display := Some(Display(1, now)), threadId := r.threadId + 1),
         SleepFor(a.time, now))
      else
        (taken.(current := Some(a.(changed := true))), SleepFor(a.time, now))
  }

  /** The end of the iteration: the taken alarm is freed; globalNext is left as it is. */
  function Release(r: Registry): (r': Registry)
    ensures r'.current.None? && r'.alarms == r.alarms && r'.cursor == r.cursor
    ensures Valid(r) ==> Valid(r')
  {
    r.(current := None)
  }

  /** The main thread handling a series of requests with no dispatcher step in between. */
  function Run(r: Registry, subs: seq<Submission>): (Registry, seq<Outcome>)
    requires CursorInRange(r.cursor, |r.alarms|)
    decreases |subs|
  {
    if subs == [] then (r, [])
    else
      var (r1, o) := Handle(r, subs[0].req, subs[0].now);
      var (r2, os) := Run(r1, subs[1..]);
      (r2, [o] + os)
  }
}
