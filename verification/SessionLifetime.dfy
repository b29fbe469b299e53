/**
  The lifetime of native browse sessions: opens, browses, closes and expiry as interleaved tasks over the
  shared session table and one operation lock per session.
*/
module SessionLifetime {
  import opened Prelude

  const MAX_ACTIVE_SESSIONS: nat := 128

  type Sid = nat
  type Native = nat
  type TaskId = nat

  datatype Purpose = Browse | Close

  datatype Task =
    | Checked                                               // open_session found room
    | Opened(native: Native)                                // native session open, not yet in the table
    | Waiting(sid: Sid, native: Native, purpose: Purpose)   // looked the session up, wants its lock
    | Holding(sid: Sid, native: Native, purpose: Purpose)   // has the lock, has not looked again
    | Fetching(native: Native)                              // looked again, about to browse
    | Paging(native: Native)                                // native browse_page under way
    | Storing(native: Native)                               // native browse_page returned
    | Expiring(queue: seq<Native>)                          // expired sessions still to be closed
    | Ready(native: Native, rest: seq<Native>, locked: bool)    // about to close
    | Closing(native: Native, rest: seq<Native>, locked: bool)  // native close under way

  datatype Event = PageBegin(native: Native) | PageEnd(native: Native) | CloseBegin(native: Native) | CloseEnd(native: Native)

  /** Where an opened native session is accounted for. */
  datatype Place = Opening(task: TaskId) | Registered(sid: Sid) | Doomed(task: TaskId) | Closed

  /** place, issued, registered and log are history: no step's guard reads them except for freshness. */
  datatype State = State(
    sessions: map<Sid, Native>, locks: map<Native, TaskId>, tasks: map<TaskId, Task>,
    place: map<Native, Place>, issued: set<Sid>, registered: set<Native>, log: seq<Event>)

  const START: State := State(map[], map[], map[], map[], {}, {}, [])

  datatype Step =
    | FindRoom(t: TaskId)
    | OpenNative(t: TaskId, n: Native)
    | OpenFails(t: TaskId)
    | Register(t: TaskId, sid: Sid)
    | LoseRace(t: TaskId)
    | Enter(t: TaskId, sid: Sid, purpose: Purpose)
    | Acquire(t: TaskId)
    | LookAgain(t: TaskId)
    | BeginPage(t: TaskId)
    | EndPage(t: TaskId)
    | Leave(t: TaskId)
    | Remove(t: TaskId)
    | Expire(t: TaskId, sids: seq<Sid>)
    | LockExpired(t: TaskId)
    | BeginClose(t: TaskId)
    | EndClose(t: TaskId)

  // ---------------------------------------------------------------- what a task has a hand on

  function Owns(task: Task): set<Native> {
    match task
    case Opened(n) => {n}
    case Expiring(queue) => Natives(queue)
    case Ready(n, rest, _) => {n} + Natives(rest)
    case Closing(n, rest, _) => {n} + Natives(rest)
    case _ => {}
  }

  function Natives(queue: seq<Native>): set<Native> {
    set n | n in queue
  }

  function Holds(task: Task): Option<Native> {
    match task
    case Holding(_, n, _) => Some(n)
    case Fetching(n) => Some(n)
    case Paging(n) => Some(n)
    case Storing(n) => Some(n)
    case Ready(n, _, locked) => if locked then Some(n) else None
    case Closing(n, _, locked) => if locked then Some(n) else None
    case _ => None
  }

  function Mentions(task: Task): Option<Native> {
    match task
    case Waiting(_, n, _) => Some(n)
    case Holding(_, n, _) => Some(n)
    case Fetching(n) => Some(n)
    case Paging(n) => Some(n)
    case Storing(n) => Some(n)
    case _ => None
  }

  // ---------------------------------------------------------------- steps

  predicate Enabled(s: State, step: Step) {
    match step
    case FindRoom(t) => t !in s.tasks && |s.sessions| < MAX_ACTIVE_SESSIONS
    case OpenNative(t, n) => t in s.tasks && s.tasks[t].Checked? && n !in s.place
    case OpenFails(t) => t in s.tasks && s.tasks[t].Checked?
    case Register(t, sid) =>
      t in s.tasks && s.tasks[t].Opened? && |s.sessions| < MAX_ACTIVE_SESSIONS && sid !in s.issued
    case LoseRace(t) => t in s.tasks && s.tasks[t].Opened? && |s.sessions| >= MAX_ACTIVE_SESSIONS
    case Enter(t, sid, _) => t !in s.tasks && sid in s.sessions
    case Acquire(t) => t in s.tasks && s.tasks[t].Waiting? && s.tasks[t].native !in s.locks
    case LookAgain(t) =>
      t in s.tasks && s.tasks[t].Holding? && s.tasks[t].purpose.Browse? && s.tasks[t].sid in s.sessions
    case BeginPage(t) => t in s.tasks && s.tasks[t].Fetching?
    case EndPage(t) => t in s.tasks && s.tasks[t].Paging?
    case Leave(t) =>
      && t in s.tasks
      && (s.tasks[t].Storing? || s.tasks[t].Fetching?
          || (s.tasks[t].Holding? && s.tasks[t].sid !in s.sessions))
    case Remove(t) =>
      t in s.tasks && s.tasks[t].Holding? && s.tasks[t].purpose.Close? && s.tasks[t].sid in s.sessions
    case Expire(t, sids) => t !in s.tasks && Distinct(sids) && forall sid :: sid in sids ==> sid in s.sessions
    case LockExpired(t) =>
      t in s.tasks && s.tasks[t].Expiring? && s.tasks[t].queue != [] && s.tasks[t].queue[0] !in s.locks
    case BeginClose(t) => t in s.tasks && s.tasks[t].Ready?
    case EndClose(t) => t in s.tasks && s.tasks[t].Closing?
  }

  predicate Distinct<X(==)>(q: seq<X>) {
    forall i, j :: 0 <= i < j < |q| ==> q[i] != q[j]
  }

  function Looked(sessions: map<Sid, Native>, sids: seq<Sid>): (r: seq<Native>)
    requires forall sid :: sid in sids ==> sid in sessions
    ensures |r| == |sids|
    ensures forall i :: 0 <= i < |sids| ==> r[i] == sessions[sids[i]]
  {
    seq(|sids|, i requires 0 <= i < |sids| => sessions[sids[i]])
  }

  function Without<X>(m: map<Sid, X>, sids: seq<Sid>): map<Sid, X> {
    map k | k in m && k !in sids :: m[k]
  }

  function Dooming(place: map<Native, Place>, queue: seq<Native>, t: TaskId): map<Native, Place> {
    map n | n in place :: if n in queue then Doomed(t) else place[n]
  }

  function Apply(s: State, step: Step): State
    requires Enabled(s, step)
  {
    match step
    case FindRoom(t) => s.(tasks := s.tasks[t := Checked])
    case OpenNative(t, n) => s.(tasks := s.tasks[t := Opened(n)], place := s.place[n := Opening(t)])
    case OpenFails(t) => s.(tasks := s.tasks - {t})
    case Register(t, sid) =>
      var n := s.tasks[t].native;
      s.(tasks := s.tasks - {t}, sessions := s.sessions[sid := n], place := s.place[n := Registered(sid)],
         issued := s.issued + {sid}, registered := s.registered + {n})
    case LoseRace(t) =>
      var n := s.tasks[t].native;
      s.(tasks := s.tasks[t := Ready(n, [], false)], place := s.place[n := Doomed(t)])
    case Enter(t, sid, purpose) => s.(tasks := s.tasks[t := Waiting(sid, s.sessions[sid], purpose)])
    case Acquire(t) =>
      var w := s.tasks[t];
      s.(tasks := s.tasks[t := Holding(w.sid, w.native, w.purpose)], locks := s.locks[w.native := t])
    case LookAgain(t) => s.(tasks := s.tasks[t := Fetching(s.tasks[t].native)])
    case BeginPage(t) =>
      var n := s.tasks[t].native;
      s.(tasks := s.tasks[t := Paging(n)], log := s.log + [PageBegin(n)])
    case EndPage(t) =>
      var n := s.tasks[t].native;
      s.(tasks := s.tasks[t := Storing(n)], log := s.log + [PageEnd(n)])
    case Leave(t) => s.(tasks := s.tasks - {t}, locks := s.locks - {s.tasks[t].native})
    case Remove(t) =>
      var h := s.tasks[t];
      s.(sessions := s.sessions - {h.sid}, tasks := s.tasks[t := Ready(h.native, [], true)],
         place := s.place[h.native := Doomed(t)])
    case Expire(t, sids) =>
      var queue := Looked(s.sessions, sids);
      s.(sessions := Without(s.sessions, sids), tasks := s.tasks[t := Expiring(queue)],
         place := Dooming(s.place, queue, t))
    case LockExpired(t) =>
      var q := s.tasks[t].queue;
      s.(tasks := s.tasks[t := Ready(q[0], q[1..], true)], locks := s.locks[q[0] := t])
    case BeginClose(t) =>
      var r := s.tasks[t];
      s.(tasks := s.tasks[t := Closing(r.native, r.rest, r.locked)], log := s.log + [CloseBegin(r.native)])
    case EndClose(t) =>
      var c := s.tasks[t];
      s.(tasks := s.tasks[t := Expiring(c.rest)],
         locks := if c.locked then s.locks - {c.native} else s.locks,
         place := s.place[c.native := Closed], log := s.log + [CloseEnd(c.native)])
  }

  // ---------------------------------------------------------------- invariants

  type Tasks = map<TaskId, Task>

  predicate QueueDistinct(task: Task) {
    match task
    case Expiring(queue) => Distinct(queue)
    case Ready(n, rest, _) => n !in rest && Distinct(rest)
    case Closing(n, rest, _) => n !in rest && Distinct(rest)
    case _ => true
  }

  function PlaceFor(t: TaskId, task: Task): Place {
    if task.Opened? then Opening(t) else Doomed(t)
  }

  /** n's place names a task or the table entry that accounts for it. */
  ghost predicate PlaceHolds(p: Place, n: Native, sessions: map<Sid, Native>, tasks: Tasks) {
    match p
    case Opening(t) => t in tasks && tasks[t] == Opened(n)
    case Registered(sid) => sid in sessions && sessions[sid] == n
    case Doomed(t) => t in tasks && !tasks[t].Opened? && n in Owns(tasks[t])
    case Closed => true
  }

  ghost predicate Accounted(place: map<Native, Place>, sessions: map<Sid, Native>, tasks: Tasks) {
    forall n :: n in place ==> PlaceHolds(place[n], n, sessions, tasks)
  }

  ghost predicate Tabled(place: map<Native, Place>, sessions: map<Sid, Native>) {
    forall sid :: sid in sessions ==> sessions[sid] in place && place[sessions[sid]] == Registered(sid)
  }

  ghost predicate OwnsWell(place: map<Native, Place>, t: TaskId, task: Task) {
    && QueueDistinct(task)
    && forall n :: n in Owns(task) ==> n in place && place[n] == PlaceFor(t, task)
  }

  ghost predicate Owned(place: map<Native, Place>, tasks: Tasks) {
    forall t :: t in tasks ==> OwnsWell(place, t, tasks[t])
  }

  ghost predicate HeldWell(locks: map<Native, TaskId>, t: TaskId, task: Task) {
    Holds(task).Some? ==> Holds(task).value in locks && locks[Holds(task).value] == t
  }

  /** A lock's holder is the one task that says it holds it. */
  ghost predicate Locked(locks: map<Native, TaskId>, tasks: Tasks) {
    && (forall n :: n in locks ==> locks[n] in tasks && Holds(tasks[locks[n]]) == Some(n))
    && (forall t :: t in tasks ==> HeldWell(locks, t, tasks[t]))
  }

  ghost predicate RefersWell(sessions: map<Sid, Native>, issued: set<Sid>, registered: set<Native>, task: Task) {
    && (Mentions(task).Some? ==> Mentions(task).value in registered)
    && (task.Opened? ==> task.native !in registered)
    && ((task.Ready? || task.Closing?) && !task.locked ==> task.native !in registered)
    && (task.Waiting? || task.Holding? ==>
          task.sid in issued && (task.sid in sessions ==> sessions[task.sid] == task.native))
  }

  /** Only sessions that were in the table are browsed or closed by id, and a race loser never was. */
  ghost predicate Referenced(sessions: map<Sid, Native>, issued: set<Sid>, registered: set<Native>, tasks: Tasks) {
    && sessions.Keys <= issued
    && sessions.Values <= registered
    && (forall t :: t in tasks ==> RefersWell(sessions, issued, registered, tasks[t]))
  }

  predicate Begun(log: seq<Event>, n: Native) {
    CloseBegin(n) in log
  }

  /** After a close begins, no page of that session begins or ends and no second close begins. */
  ghost predicate LogOrdered(log: seq<Event>) {
    forall i, j :: 0 <= i < j < |log| && log[i].CloseBegin? && log[j].native == log[i].native ==> log[j].CloseEnd?
  }

  function ClosingOf(tasks: Tasks, t: TaskId): Option<Native> {
    if t in tasks && tasks[t].Closing? then Some(tasks[t].native) else None
  }

  function PagingOf(tasks: Tasks, t: TaskId): Option<Native> {
    if t in tasks && (tasks[t].Fetching? || tasks[t].Paging?) then Some(tasks[t].native) else None
  }

  /** Begun means closed, or being closed by whichever task accounts for it. */
  ghost predicate BegunWell(p: Place, n: Native, tasks: Tasks) {
    p.Closed? || (p.Doomed? && ClosingOf(tasks, p.task) == Some(n))
  }

  ghost predicate Begins(log: seq<Event>, place: map<Native, Place>, tasks: Tasks) {
    forall n :: Begun(log, n) ==> n in place && BegunWell(place[n], n, tasks)
  }

  ghost predicate Ends(log: seq<Event>, place: map<Native, Place>) {
    forall n :: CloseEnd(n) in log <==> n in place && place[n].Closed?
  }

  ghost predicate Pages(log: seq<Event>, tasks: Tasks) {
    forall t :: PagingOf(tasks, t).Some? ==> !Begun(log, PagingOf(tasks, t).value)
  }

  ghost predicate Inv(s: State) {
    && |s.sessions| <= MAX_ACTIVE_SESSIONS
    && s.registered <= s.place.Keys
    && Accounted(s.place, s.sessions, s.tasks) && Tabled(s.place, s.sessions) && Owned(s.place, s.tasks)
    && Locked(s.locks, s.tasks)
    && Referenced(s.sessions, s.issued, s.registered, s.tasks)
    && LogOrdered(s.log) && Begins(s.log, s.place, s.tasks) && Ends(s.log, s.place) && Pages(s.log, s.tasks)
  }

  // ---------------------------------------------------------------- changing one task

  function OwnsOf(tasks: Tasks, t: TaskId): set<Native> {
    if t in tasks then Owns(tasks[t]) else {}
  }

  function HoldsOf(tasks: Tasks, t: TaskId): Option<Native> {
    if t in tasks then Holds(tasks[t]) else None
  }

  predicate OpenedIn(tasks: Tasks, t: TaskId) {
    t in tasks && tasks[t].Opened?
  }

  /** Task t changes to b, or ends; the others stay. */
  ghost predicate Retask(tasks: Tasks, t: TaskId, after: Tasks) {
    && (forall u :: u != t ==> (u in after <==> u in tasks))
    && (forall u :: u != t && u in tasks ==> after[u] == tasks[u])
  }

  lemma SameOwnership(s: State, t: TaskId, after: Tasks)
    requires Accounted(s.place, s.sessions, s.tasks) && Owned(s.place, s.tasks) && Retask(s.tasks, t, after)
    requires OwnsOf(after, t) == OwnsOf(s.tasks, t)
    requires OpenedIn(after, t) == OpenedIn(s.tasks, t)
    requires OpenedIn(after, t) ==> after[t] == s.tasks[t]
    requires t in after ==> QueueDistinct(after[t])
    ensures Accounted(s.place, s.sessions, after) && Owned(s.place, after)
  {
  }

  lemma SameHold(locks: map<Native, TaskId>, tasks: Tasks, t: TaskId, after: Tasks)
    requires Locked(locks, tasks) && Retask(tasks, t, after)
    requires HoldsOf(after, t) == HoldsOf(tasks, t)
    ensures Locked(locks, after)
  {
  }

  lemma TakeLock(locks: map<Native, TaskId>, tasks: Tasks, t: TaskId, after: Tasks, n: Native)
    requires Locked(locks, tasks) && Retask(tasks, t, after) && n !in locks
    requires HoldsOf(tasks, t).None? && HoldsOf(after, t) == Some(n)
    ensures Locked(locks[n := t], after)
  {
  }

  lemma DropLock(locks: map<Native, TaskId>, tasks: Tasks, t: TaskId, after: Tasks, n: Native)
    requires Locked(locks, tasks) && Retask(tasks, t, after)
    requires HoldsOf(tasks, t) == Some(n) && HoldsOf(after, t).None?
    ensures Locked(locks - {n}, after)
  {
  }

  /** Two tasks never hold the same lock. */
  lemma OneHolder(locks: map<Native, TaskId>, tasks: Tasks, t: TaskId, u: TaskId)
    requires Locked(locks, tasks) && HoldsOf(tasks, t).Some? && HoldsOf(tasks, t) == HoldsOf(tasks, u)
    ensures t == u
  {
  }

  lemma Refer(sessions: map<Sid, Native>, issued: set<Sid>, registered: set<Native>, tasks: Tasks, t: TaskId, after: Tasks)
    requires Referenced(sessions, issued, registered, tasks) && Retask(tasks, t, after)
    requires t in after ==> RefersWell(sessions, issued, registered, after[t])
    ensures Referenced(sessions, issued, registered, after)
  {
  }

  lemma SameLog(s: State, t: TaskId, after: Tasks)
    requires Begins(s.log, s.place, s.tasks) && Pages(s.log, s.tasks) && Retask(s.tasks, t, after)
    requires ClosingOf(after, t) == ClosingOf(s.tasks, t)
    requires PagingOf(after, t).Some? ==> !Begun(s.log, PagingOf(after, t).value)
    ensures Begins(s.log, s.place, after) && Pages(s.log, after)
  {
    forall n | Begun(s.log, n) ensures n in s.place && BegunWell(s.place[n], n, after) {
      assert BegunWell(s.place[n], n, s.tasks);
    }
    forall u | PagingOf(after, u).Some? ensures !Begun(s.log, PagingOf(after, u).value) {
      assert u != t ==> PagingOf(s.tasks, u) == PagingOf(after, u);
    }
  }

  /** Everything a step that only moves one task along has to show. */
  lemma MoveTask(s: State, t: TaskId, after: Tasks)
    requires Inv(s) && Retask(s.tasks, t, after)
    requires OwnsOf(after, t) == OwnsOf(s.tasks, t) && OpenedIn(after, t) == OpenedIn(s.tasks, t)
    requires OpenedIn(after, t) ==> after[t] == s.tasks[t]
    requires t in after ==> QueueDistinct(after[t])
    requires ClosingOf(after, t) == ClosingOf(s.tasks, t)
    requires PagingOf(after, t).Some? ==> !Begun(s.log, PagingOf(after, t).value)
    requires t in after ==> RefersWell(s.sessions, s.issued, s.registered, after[t])
    ensures Accounted(s.place, s.sessions, after) && Owned(s.place, after)
    ensures Referenced(s.sessions, s.issued, s.registered, after)
    ensures Begins(s.log, s.place, after) && Pages(s.log, after)
  {
    SameOwnership(s, t, after);
    Refer(s.sessions, s.issued, s.registered, s.tasks, t, after);
    SameLog(s, t, after);
  }

  // ---------------------------------------------------------------- steps that only move a task along

  lemma FindRoomKeeps(s: State, t: TaskId)
    requires Inv(s) && Enabled(s, FindRoom(t))
    ensures Inv(Apply(s, FindRoom(t)))
  {
    var after := s.tasks[t := Checked];
    MoveTask(s, t, after);
    SameHold(s.locks, s.tasks, t, after);
  }

  lemma OpenFailsKeeps(s: State, t: TaskId)
    requires Inv(s) && Enabled(s, OpenFails(t))
    ensures Inv(Apply(s, OpenFails(t)))
  {
    var after := s.tasks - {t};
    MoveTask(s, t, after);
    SameHold(s.locks, s.tasks, t, after);
  }

  lemma EnterKeeps(s: State, t: TaskId, sid: Sid, purpose: Purpose)
    requires Inv(s) && Enabled(s, Enter(t, sid, purpose))
    ensures Inv(Apply(s, Enter(t, sid, purpose)))
  {
    var after := s.tasks[t := Waiting(sid, s.sessions[sid], purpose)];
    assert s.sessions[sid] in s.sessions.Values;
    MoveTask(s, t, after);
    SameHold(s.locks, s.tasks, t, after);
  }

  lemma AcquireKeeps(s: State, t: TaskId)
    requires Inv(s) && Enabled(s, Acquire(t))
    ensures Inv(Apply(s, Acquire(t)))
  {
    var w := s.tasks[t];
    var after := s.tasks[t := Holding(w.sid, w.native, w.purpose)];
    assert RefersWell(s.sessions, s.issued, s.registered, w);
    MoveTask(s, t, after);
    TakeLock(s.locks, s.tasks, t, after, w.native);
  }

  /** Found in the table under the lock: its close has not begun. */
  lemma LookAgainKeeps(s: State, t: TaskId)
    requires Inv(s) && Enabled(s, LookAgain(t))
    ensures Inv(Apply(s, LookAgain(t)))
  {
    var h := s.tasks[t];
    var after := s.tasks[t := Fetching(h.native)];
    assert RefersWell(s.sessions, s.issued, s.registered, h);
    assert s.place[s.sessions[h.sid]] == Registered(h.sid);
    MoveTask(s, t, after);
    SameHold(s.locks, s.tasks, t, after);
  }

  lemma LeaveKeeps(s: State, t: TaskId)
    requires Inv(s) && Enabled(s, Leave(t))
    ensures Inv(Apply(s, Leave(t)))
  {
    var after := s.tasks - {t};
    MoveTask(s, t, after);
    DropLock(s.locks, s.tasks, t, after, s.tasks[t].native);
  }

  lemma QueueHead(q: seq<Native>)
    requires Distinct(q) && q != []
    ensures Natives(q) == {q[0]} + Natives(q[1..])
    ensures q[0] !in q[1..] && Distinct(q[1..])
  {
  }

  lemma LockExpiredKeeps(s: State, t: TaskId)
    requires Inv(s) && Enabled(s, LockExpired(t))
    ensures Inv(Apply(s, LockExpired(t)))
  {
    var q := s.tasks[t].queue;
    var after := s.tasks[t := Ready(q[0], q[1..], true)];
    assert OwnsWell(s.place, t, s.tasks[t]);
    QueueHead(q);
    MoveTask(s, t, after);
    TakeLock(s.locks, s.tasks, t, after, q[0]);
  }

  // ---------------------------------------------------------------- steps that reach the native server

  lemma LogAppend(log: seq<Event>, e: Event)
    requires LogOrdered(log) && (e.CloseEnd? || !Begun(log, e.native))
    ensures LogOrdered(log + [e])
  {
  }

  lemma PageEvent(log: seq<Event>, e: Event, place: map<Native, Place>, tasks: Tasks)
    requires LogOrdered(log) && Begins(log, place, tasks) && Ends(log, place) && Pages(log, tasks)
    requires (e.PageBegin? || e.PageEnd?) && !Begun(log, e.native)
    ensures LogOrdered(log + [e]) && Begins(log + [e], place, tasks) && Ends(log + [e], place) && Pages(log + [e], tasks)
  {
  }

  lemma BeginPageKeeps(s: State, t: TaskId)
    requires Inv(s) && Enabled(s, BeginPage(t))
    ensures Inv(Apply(s, BeginPage(t)))
  {
    var n := s.tasks[t].native;
    var after := s.tasks[t := Paging(n)];
    assert PagingOf(s.tasks, t) == Some(n);
    assert RefersWell(s.sessions, s.issued, s.registered, s.tasks[t]);
    MoveTask(s, t, after);
    SameHold(s.locks, s.tasks, t, after);
    PageEvent(s.log, PageBegin(n), s.place, after);
  }

  lemma EndPageKeeps(s: State, t: TaskId)
    requires Inv(s) && Enabled(s, EndPage(t))
    ensures Inv(Apply(s, EndPage(t)))
  {
    var n := s.tasks[t].native;
    var after := s.tasks[t := Storing(n)];
    assert PagingOf(s.tasks, t) == Some(n);
    assert RefersWell(s.sessions, s.issued, s.registered, s.tasks[t]);
    MoveTask(s, t, after);
    SameHold(s.locks, s.tasks, t, after);
    PageEvent(s.log, PageEnd(n), s.place, after);
  }

  /** Whoever is about to close a session, no browse of it is under way: a closer by id or by expiry holds
      the lock, and a race loser was never in the table. */
  lemma NobodyBrowses(s: State, t: TaskId, u: TaskId)
    requires Inv(s) && t in s.tasks && s.tasks[t].Ready?
    ensures PagingOf(s.tasks, u) != Some(s.tasks[t].native)
  {
    if PagingOf(s.tasks, u) == Some(s.tasks[t].native) {
      assert RefersWell(s.sessions, s.issued, s.registered, s.tasks[u]);
      assert RefersWell(s.sessions, s.issued, s.registered, s.tasks[t]);
      OneHolder(s.locks, s.tasks, t, u);
    }
  }

  lemma CloseNotBegun(s: State, t: TaskId)
    requires Inv(s) && t in s.tasks && s.tasks[t].Ready?
    ensures s.tasks[t].native in s.place && s.place[s.tasks[t].native] == Doomed(t)
    ensures !Begun(s.log, s.tasks[t].native)
  {
  }

  lemma CloseEventPages(s: State, t: TaskId, after: Tasks)
    requires Inv(s) && Enabled(s, BeginClose(t))
    requires after == s.tasks[t := Closing(s.tasks[t].native, s.tasks[t].rest, s.tasks[t].locked)]
    ensures Pages(s.log + [CloseBegin(s.tasks[t].native)], after)
  {
    forall u | PagingOf(after, u).Some?
      ensures !Begun(s.log + [CloseBegin(s.tasks[t].native)], PagingOf(after, u).value)
    {
      assert PagingOf(after, u) == PagingOf(s.tasks, u);
      NobodyBrowses(s, t, u);
    }
  }

  lemma CloseEvent(s: State, t: TaskId, after: Tasks)
    requires Inv(s) && Enabled(s, BeginClose(t))
    requires after == s.tasks[t := Closing(s.tasks[t].native, s.tasks[t].rest, s.tasks[t].locked)]
    ensures var log := s.log + [CloseBegin(s.tasks[t].native)];
            LogOrdered(log) && Begins(log, s.place, after) && Ends(log, s.place)
  {
    var n := s.tasks[t].native;
    var log := s.log + [CloseBegin(n)];
    CloseNotBegun(s, t);
    LogAppend(s.log, CloseBegin(n));
    assert forall m :: CloseEnd(m) in log <==> CloseEnd(m) in s.log;
    forall m | Begun(log, m) ensures m in s.place && BegunWell(s.place[m], m, after) {
      if m != n {
        assert Begun(s.log, m) && BegunWell(s.place[m], m, s.tasks);
      }
    }
  }

  lemma BeginCloseKeeps(s: State, t: TaskId)
    requires Inv(s) && Enabled(s, BeginClose(t))
    ensures Inv(Apply(s, BeginClose(t)))
  {
    var r := s.tasks[t];
    var after := s.tasks[t := Closing(r.native, r.rest, r.locked)];
    assert OwnsWell(s.place, t, r) && RefersWell(s.sessions, s.issued, s.registered, r);
    CloseEvent(s, t, after);
    CloseEventPages(s, t, after);
    SameOwnership(s, t, after);
    SameHold(s.locks, s.tasks, t, after);
    Refer(s.sessions, s.issued, s.registered, s.tasks, t, after);
  }

  // ---------------------------------------------------------------- steps that move sessions

  ghost predicate SamePlaces(place: map<Native, Place>, moved: set<Native>, after: map<Native, Place>) {
    && (forall n :: n !in moved ==> (n in after <==> n in place))
    && (forall n :: n !in moved && n in place ==> after[n] == place[n])
  }

  /** The sessions `moved` were new, in the table, or t's; everything else stays where it was. */
  lemma Relocate(s: State, t: TaskId, after: Tasks, sessions: map<Sid, Native>, place: map<Native, Place>, moved: set<Native>)
    requires Accounted(s.place, s.sessions, s.tasks) && Owned(s.place, s.tasks)
    requires Retask(s.tasks, t, after) && SamePlaces(s.place, moved, place)
    requires forall n :: n in moved ==> n in place && PlaceHolds(place[n], n, sessions, after)
    requires forall n :: n in moved && n in s.place ==>
               s.place[n].Registered? || s.place[n] == Opening(t) || s.place[n] == Doomed(t)
    requires forall n :: n in OwnsOf(s.tasks, t) && n !in moved ==>
               n in OwnsOf(after, t) && !OpenedIn(s.tasks, t) && !OpenedIn(after, t)
    requires t in after ==> OwnsWell(place, t, after[t])
    requires forall n :: n in s.place && n !in moved && s.place[n].Registered? ==>
               s.place[n].sid in sessions && sessions[s.place[n].sid] == n
    ensures Accounted(place, sessions, after) && Owned(place, after)
  {
  }

  /** Moving sessions whose close has not begun leaves the log's account in order. */
  lemma LogUnmoved(s: State, t: TaskId, after: Tasks, place: map<Native, Place>, moved: set<Native>)
    requires Begins(s.log, s.place, s.tasks) && Ends(s.log, s.place) && Pages(s.log, s.tasks)
    requires Retask(s.tasks, t, after) && SamePlaces(s.place, moved, place)
    requires forall n :: n in moved ==> n in place && !place[n].Closed? && !Begun(s.log, n)
    requires forall n :: n in moved && n in s.place ==> !s.place[n].Closed?
    requires ClosingOf(s.tasks, t).None? && ClosingOf(after, t).None? && PagingOf(after, t).None?
    ensures Begins(s.log, place, after) && Ends(s.log, place) && Pages(s.log, after)
  {
    forall n | Begun(s.log, n) ensures n in place && BegunWell(place[n], n, after) {
      assert BegunWell(s.place[n], n, s.tasks);
    }
    forall u | PagingOf(after, u).Some? ensures !Begun(s.log, PagingOf(after, u).value) {
      assert PagingOf(after, u) == PagingOf(s.tasks, u);
    }
  }

  lemma OpenNativeKeeps(s: State, t: TaskId, n: Native)
    requires Inv(s) && Enabled(s, OpenNative(t, n))
    ensures Inv(Apply(s, OpenNative(t, n)))
  {
    var after := s.tasks[t := Opened(n)];
    var place := s.place[n := Opening(t)];
    assert Owns(Opened(n)) == {n};
    Relocate(s, t, after, s.sessions, place, {n});
    LogUnmoved(s, t, after, place, {n});
    SameHold(s.locks, s.tasks, t, after);
    Refer(s.sessions, s.issued, s.registered, s.tasks, t, after);
  }

  lemma LoseRacePlaced(s: State, t: TaskId, n: Native)
    requires Accounted(s.place, s.sessions, s.tasks) && Tabled(s.place, s.sessions) && Owned(s.place, s.tasks)
    requires Enabled(s, LoseRace(t)) && n == s.tasks[t].native
    ensures var after, place := s.tasks[t := Ready(n, [], false)], s.place[n := Doomed(t)];
            Accounted(place, s.sessions, after) && Tabled(place, s.sessions) && Owned(place, after)
    ensures n in s.place && s.place[n] == Opening(t)
  {
  }

  lemma LoseRaceKeeps(s: State, t: TaskId)
    requires Inv(s) && Enabled(s, LoseRace(t))
    ensures Inv(Apply(s, LoseRace(t)))
  {
    var n := s.tasks[t].native;
    var after := s.tasks[t := Ready(n, [], false)];
    var place := s.place[n := Doomed(t)];
    LoseRacePlaced(s, t, n);
    assert RefersWell(s.sessions, s.issued, s.registered, s.tasks[t]);
    LogUnmoved(s, t, after, place, {n});
    SameHold(s.locks, s.tasks, t, after);
    Refer(s.sessions, s.issued, s.registered, s.tasks, t, after);
  }

  lemma RegisterRefers(s: State, t: TaskId, sid: Sid)
    requires Owned(s.place, s.tasks)
    requires Referenced(s.sessions, s.issued, s.registered, s.tasks)
    requires Enabled(s, Register(t, sid))
    ensures Referenced(s.sessions[sid := s.tasks[t].native], s.issued + {sid},
                       s.registered + {s.tasks[t].native}, s.tasks - {t})
  {
    var n, rest := s.tasks[t].native, s.tasks - {t};
    assert OwnsWell(s.place, t, s.tasks[t]) && n in Owns(s.tasks[t]);
    forall u | u in rest ensures RefersWell(s.sessions[sid := n], s.issued + {sid}, s.registered + {n}, rest[u]) {
      assert RefersWell(s.sessions, s.issued, s.registered, s.tasks[u]) && OwnsWell(s.place, u, s.tasks[u]);
      NotAnothers(s, t, n, u);
    }
  }

  lemma NotAnothers(s: State, t: TaskId, n: Native, u: TaskId)
    requires t in s.tasks && s.tasks[t] == Opened(n) && OwnsWell(s.place, t, s.tasks[t])
    requires u in s.tasks && u != t && OwnsWell(s.place, u, s.tasks[u])
    ensures n !in Owns(s.tasks[u])
  {
    assert n in Owns(s.tasks[t]);
  }

  lemma RegisterPlaced(s: State, t: TaskId, sid: Sid, n: Native)
    requires Accounted(s.place, s.sessions, s.tasks) && Tabled(s.place, s.sessions) && Owned(s.place, s.tasks)
    requires sid !in s.sessions && Enabled(s, Register(t, sid)) && n == s.tasks[t].native
    ensures var place, sessions := s.place[n := Registered(sid)], s.sessions[sid := n];
            Accounted(place, sessions, s.tasks - {t}) && Owned(place, s.tasks - {t}) && Tabled(place, sessions)
    ensures n in s.place && s.place[n] == Opening(t)
  {
    assert OwnsWell(s.place, t, s.tasks[t]) && Owns(s.tasks[t]) == {n};
    Relocate(s, t, s.tasks - {t}, s.sessions[sid := n], s.place[n := Registered(sid)], {n});
  }

  lemma RegisterKeeps(s: State, t: TaskId, sid: Sid)
    requires Inv(s) && Enabled(s, Register(t, sid))
    ensures Inv(Apply(s, Register(t, sid)))
  {
    var n := s.tasks[t].native;
    RegisterPlaced(s, t, sid, n);
    LogUnmoved(s, t, s.tasks - {t}, s.place[n := Registered(sid)], {n});
    SameHold(s.locks, s.tasks, t, s.tasks - {t});
    RegisterRefers(s, t, sid);
    OneMore(s.sessions, sid, n);
  }

  lemma OneMore(sessions: map<Sid, Native>, sid: Sid, n: Native)
    ensures |sessions[sid := n]| <= |sessions| + 1
  {
  }

  lemma FewerSessions(sessions: map<Sid, Native>, fewer: map<Sid, Native>, issued: set<Sid>, registered: set<Native>, tasks: Tasks)
    requires Referenced(sessions, issued, registered, tasks)
    requires forall sid :: sid in fewer ==> sid in sessions && fewer[sid] == sessions[sid]
    ensures Referenced(fewer, issued, registered, tasks)
    ensures |fewer| <= |sessions|
  {
    forall n | n in fewer.Values ensures n in registered {
      var sid :| sid in fewer && fewer[sid] == n;
      assert sessions[sid] in sessions.Values;
    }
    forall t | t in tasks ensures RefersWell(fewer, issued, registered, tasks[t]) {
      assert RefersWell(sessions, issued, registered, tasks[t]);
    }
    SubsetCardinality(fewer.Keys, sessions.Keys);
  }

  lemma RemovePlaced(s: State, t: TaskId, n: Native)
    requires Accounted(s.place, s.sessions, s.tasks) && Tabled(s.place, s.sessions) && Owned(s.place, s.tasks)
    requires Referenced(s.sessions, s.issued, s.registered, s.tasks)
    requires Enabled(s, Remove(t)) && n == s.tasks[t].native
    ensures var after, place, sessions := s.tasks[t := Ready(n, [], true)], s.place[n := Doomed(t)], s.sessions - {s.tasks[t].sid};
            Accounted(place, sessions, after) && Owned(place, after) && Tabled(place, sessions)
    ensures n in s.place && s.place[n].Registered? && n in s.registered
  {
    var h := s.tasks[t];
    assert RefersWell(s.sessions, s.issued, s.registered, h);
    assert s.place[n] == Registered(h.sid);
    var after := s.tasks[t := Ready(n, [], true)];
    assert Owns(after[t]) == {n} && Owns(h) == {};
    Relocate(s, t, after, s.sessions - {h.sid}, s.place[n := Doomed(t)], {n});
  }

  lemma RemoveKeeps(s: State, t: TaskId)
    requires Inv(s) && Enabled(s, Remove(t))
    ensures Inv(Apply(s, Remove(t)))
  {
    var n := s.tasks[t].native;
    var after := s.tasks[t := Ready(n, [], true)];
    RemovePlaced(s, t, n);
    LogUnmoved(s, t, after, s.place[n := Doomed(t)], {n});
    SameHold(s.locks, s.tasks, t, after);
    Refer(s.sessions, s.issued, s.registered, s.tasks, t, after);
    FewerSessions(s.sessions, s.sessions - {s.tasks[t].sid}, s.issued, s.registered, after);
  }

  lemma ExpireQueue(s: State, sids: seq<Sid>)
    requires Accounted(s.place, s.sessions, s.tasks) && Tabled(s.place, s.sessions) && Owned(s.place, s.tasks)
    requires Distinct(sids) && forall sid :: sid in sids ==> sid in s.sessions
    ensures Distinct(Looked(s.sessions, sids))
    ensures forall n :: n in Looked(s.sessions, sids) ==>
              n in s.place && s.place[n].Registered? && s.place[n].sid in sids
    ensures forall n :: n in s.place && s.place[n].Registered? && s.place[n].sid in sids ==> n in Looked(s.sessions, sids)
  {
  }

  lemma ExpireKeeps(s: State, t: TaskId, sids: seq<Sid>)
    requires Inv(s) && Enabled(s, Expire(t, sids))
    ensures Inv(Apply(s, Expire(t, sids)))
  {
    var queue := Looked(s.sessions, sids);
    var after := s.tasks[t := Expiring(queue)];
    var place := Dooming(s.place, queue, t);
    var sessions := Without(s.sessions, sids);
    ExpireQueue(s, sids);
    ExpirePlaced(s, t, sids, queue);
    ExpireTabled(s, t, sids, queue);
    ExpireLogged(s, t, queue);
    SameHold(s.locks, s.tasks, t, after);
    Refer(s.sessions, s.issued, s.registered, s.tasks, t, after);
    FewerSessions(s.sessions, sessions, s.issued, s.registered, after);
  }

  lemma ExpireLogged(s: State, t: TaskId, queue: seq<Native>)
    requires Begins(s.log, s.place, s.tasks) && Ends(s.log, s.place) && Pages(s.log, s.tasks)
    requires t !in s.tasks
    requires forall n :: n in queue ==> n in s.place && s.place[n].Registered?
    ensures var after, place := s.tasks[t := Expiring(queue)], Dooming(s.place, queue, t);
            Begins(s.log, place, after) && Ends(s.log, place) && Pages(s.log, after)
  {
    LogUnmoved(s, t, s.tasks[t := Expiring(queue)], Dooming(s.place, queue, t), Natives(queue));
  }

  lemma ExpireTabled(s: State, t: TaskId, sids: seq<Sid>, queue: seq<Native>)
    requires Tabled(s.place, s.sessions)
    requires forall n :: n in queue ==> n in s.place && s.place[n].Registered? && s.place[n].sid in sids
    ensures Tabled(Dooming(s.place, queue, t), Without(s.sessions, sids))
  {
  }

  lemma ExpirePlaced(s: State, t: TaskId, sids: seq<Sid>, queue: seq<Native>)
    requires Accounted(s.place, s.sessions, s.tasks) && Owned(s.place, s.tasks) && t !in s.tasks && Distinct(queue)
    requires forall n :: n in queue ==> n in s.place && s.place[n].Registered? && s.place[n].sid in sids
    requires forall n :: n in s.place && s.place[n].Registered? && s.place[n].sid in sids ==> n in queue
    ensures var after := s.tasks[t := Expiring(queue)];
            var place := Dooming(s.place, queue, t);
            Accounted(place, Without(s.sessions, sids), after) && Owned(place, after)
  {
  }

  lemma EndBegins(s: State, t: TaskId, after: Tasks, place: map<Native, Place>)
    requires Begins(s.log, s.place, s.tasks) && Enabled(s, EndClose(t))
    requires after == s.tasks[t := Expiring(s.tasks[t].rest)]
    requires place == s.place[s.tasks[t].native := Closed]
    ensures Begins(s.log, place, after)
  {
  }

  lemma EndEvent(s: State, n: Native, after: Tasks)
    requires LogOrdered(s.log) && Ends(s.log, s.place)
    ensures LogOrdered(s.log + [CloseEnd(n)]) && Ends(s.log + [CloseEnd(n)], s.place[n := Closed])
    ensures forall m :: Begun(s.log + [CloseEnd(n)], m) <==> Begun(s.log, m)
  {
  }

  lemma EndPages(s: State, t: TaskId, after: Tasks, log: seq<Event>)
    requires Pages(s.log, s.tasks) && Retask(s.tasks, t, after) && PagingOf(after, t).None?
    requires forall m :: Begun(log, m) <==> Begun(s.log, m)
    ensures Pages(log, after)
  {
    forall u | PagingOf(after, u).Some? ensures !Begun(log, PagingOf(after, u).value) {
      assert PagingOf(after, u) == PagingOf(s.tasks, u);
    }
  }

  lemma EndCloseLog(s: State, t: TaskId, after: Tasks, place: map<Native, Place>)
    requires Inv(s) && Enabled(s, EndClose(t))
    requires after == s.tasks[t := Expiring(s.tasks[t].rest)]
    requires place == s.place[s.tasks[t].native := Closed]
    ensures var log := s.log + [CloseEnd(s.tasks[t].native)];
            LogOrdered(log) && Begins(log, place, after) && Ends(log, place) && Pages(log, after)
  {
    EndEvent(s, s.tasks[t].native, after);
    EndBegins(s, t, after, place);
    EndPages(s, t, after, s.log + [CloseEnd(s.tasks[t].native)]);
  }

  lemma EndClosePlaced(s: State, t: TaskId, n: Native, after: Tasks)
    requires Accounted(s.place, s.sessions, s.tasks) && Tabled(s.place, s.sessions) && Owned(s.place, s.tasks)
    requires Enabled(s, EndClose(t)) && n == s.tasks[t].native && after == s.tasks[t := Expiring(s.tasks[t].rest)]
    ensures var place := s.place[n := Closed];
            Accounted(place, s.sessions, after) && Tabled(place, s.sessions) && Owned(place, after)
    ensures n in s.place
  {
    var c := s.tasks[t];
    assert OwnsWell(s.place, t, c) && n in Owns(c);
    assert Owns(c) == {n} + Natives(c.rest) && Owns(after[t]) == Natives(c.rest);
    Relocate(s, t, after, s.sessions, s.place[n := Closed], {n});
  }

  lemma EndCloseKeeps(s: State, t: TaskId)
    requires Inv(s) && Enabled(s, EndClose(t))
    ensures Inv(Apply(s, EndClose(t)))
  {
    var c := s.tasks[t];
    var n := c.native;
    var after := s.tasks[t := Expiring(c.rest)];
    var place := s.place[n := Closed];
    EndClosePlaced(s, t, n, after);
    EndCloseLog(s, t, after, place);
    Refer(s.sessions, s.issued, s.registered, s.tasks, t, after);
    if c.locked {
      DropLock(s.locks, s.tasks, t, after, n);
    } else {
      SameHold(s.locks, s.tasks, t, after);
    }
  }

  // ---------------------------------------------------------------- runs

  lemma StepKeeps(s: State, step: Step)
    requires Inv(s) && Enabled(s, step)
    ensures Inv(Apply(s, step))
  {
    match step
    case FindRoom(t) => FindRoomKeeps(s, t);
    case OpenNative(t, n) => OpenNativeKeeps(s, t, n);
    case OpenFails(t) => OpenFailsKeeps(s, t);
    case Register(t, sid) => RegisterKeeps(s, t, sid);
    case LoseRace(t) => LoseRaceKeeps(s, t);
    case Enter(t, sid, purpose) => EnterKeeps(s, t, sid, purpose);
    case Acquire(t) => AcquireKeeps(s, t);
    case LookAgain(t) => LookAgainKeeps(s, t);
    case BeginPage(t) => BeginPageKeeps(s, t);
    case EndPage(t) => EndPageKeeps(s, t);
    case Leave(t) => LeaveKeeps(s, t);
    case Remove(t) => RemoveKeeps(s, t);
    case Expire(t, sids) => ExpireKeeps(s, t, sids);
    case LockExpired(t) => LockExpiredKeeps(s, t);
    case BeginClose(t) => BeginCloseKeeps(s, t);
    case EndClose(t) => EndCloseKeeps(s, t);
  }

  ghost predicate Run(states: seq<State>, steps: seq<Step>) {
    && |states| == |steps| + 1
    && states[0] == START
    && forall i :: 0 <= i < |steps| ==> Enabled(states[i], steps[i]) && states[i + 1] == Apply(states[i], steps[i])
  }

  lemma {:induction false} RunKeeps(states: seq<State>, steps: seq<Step>, k: nat)
    requires Run(states, steps) && k < |states|
    ensures Inv(states[k])
  {
    if k > 0 {
      RunKeeps(states, steps, k - 1);
      StepKeeps(states[k - 1], steps[k - 1]);
    }
  }

  // What an observer of the table, its tasks and the native calls can say of a native session.

  ghost predicate IsOpening(s: State, n: Native) {
    exists t :: t in s.tasks && s.tasks[t] == Opened(n)
  }

  ghost predicate IsRegistered(s: State, n: Native) {
    exists sid :: sid in s.sessions && s.sessions[sid] == n
  }

  ghost predicate IsClosing(s: State, n: Native) {
    CloseEnd(n) in s.log || exists t :: t in s.tasks && !s.tasks[t].Opened? && n in Owns(s.tasks[t])
  }

  lemma PlaceIsObserved(s: State, n: Native)
    requires Inv(s)
    ensures IsOpening(s, n) <==> n in s.place && s.place[n].Opening?
    ensures IsRegistered(s, n) <==> n in s.place && s.place[n].Registered?
    ensures IsClosing(s, n) <==> n in s.place && (s.place[n].Doomed? || s.place[n].Closed?)
  {
  }

  /** In every interleaving: at most 128 sessions in the table; every native session opened is in exactly
      one of opening, registered, closing-or-closed; its close begins at most once; and no page of it
      begins, ends or is under way once its close has begun. */
  lemma NativeLifetimes(states: seq<State>, steps: seq<Step>, k: nat, n: Native)
    requires Run(states, steps) && k < |states|
    ensures |states[k].sessions| <= MAX_ACTIVE_SESSIONS
    ensures n in states[k].place <==> IsOpening(states[k], n) || IsRegistered(states[k], n) || IsClosing(states[k], n)
    ensures !(IsOpening(states[k], n) && IsRegistered(states[k], n))
    ensures !(IsOpening(states[k], n) && IsClosing(states[k], n))
    ensures !(IsRegistered(states[k], n) && IsClosing(states[k], n))
    ensures LogOrdered(states[k].log)
    ensures Begun(states[k].log, n) ==> forall t :: t in states[k].tasks ==> states[k].tasks[t] != Paging(n)
  {
    RunKeeps(states, steps, k);
    PlaceIsObserved(states[k], n);
    assert forall t :: t in states[k].tasks && states[k].tasks[t] == Paging(n) ==> PagingOf(states[k].tasks, t) == Some(n);
  }

  // ---------------------------------------------------------------- nothing is left behind

  /** No open, browse or close is under way, and no expired session is left to close. */
  predicate AtRest(s: State) {
    forall t :: t in s.tasks ==> s.tasks[t] == Expiring([])
  }

  /** No native session leaks: when everything has come to rest, each one ever opened is in the table or has been
      closed, and no lock is held. */
  lemma NothingLeaks(states: seq<State>, steps: seq<Step>, k: nat, n: Native)
    requires Run(states, steps) && k < |states| && AtRest(states[k]) && n in states[k].place
    ensures IsRegistered(states[k], n) || CloseEnd(n) in states[k].log
    ensures states[k].locks == map[]
  {
    RunKeeps(states, steps, k);
    var s := states[k];
    assert PlaceHolds(s.place[n], n, s.sessions, s.tasks);
    assert forall t :: t in s.tasks ==> Owns(s.tasks[t]) == {} && Holds(s.tasks[t]).None?;
    NoneHeld(s.locks, s.tasks);
  }

  lemma NoneHeld(locks: map<Native, TaskId>, tasks: Tasks)
    requires Locked(locks, tasks) && forall t :: t in tasks ==> Holds(tasks[t]).None?
    ensures locks == map[]
  {
    assert locks.Keys == {};
  }

  /** A task holding a lock, or wanting none, can go on. */
  lemma Unblocked(s: State, t: TaskId) returns (step: Step)
    requires t in s.tasks && !s.tasks[t].Waiting? && !s.tasks[t].Expiring?
    ensures Enabled(s, step) && !step.FindRoom? && !step.Enter? && !step.Expire?
  {
    var task := s.tasks[t];
    if task.Checked? {
      step := OpenFails(t);
    } else if task.Opened? {
      var sid := MaxOf(s.issued) + 1;
      step := if |s.sessions| < MAX_ACTIVE_SESSIONS then Register(t, sid) else LoseRace(t);
    } else if task.Holding? {
      step := if task.sid !in s.sessions then Leave(t) else if task.purpose.Browse? then LookAgain(t) else Remove(t);
    } else if task.Fetching? {
      step := BeginPage(t);
    } else if task.Paging? {
      step := EndPage(t);
    } else if task.Storing? {
      step := Leave(t);
    } else if task.Ready? {
      step := BeginClose(t);
    } else {
      step := EndClose(t);
    }
  }

  /** And until all is at rest something under way can go on: who waits for a lock waits for a task that can. */
  lemma NeverStuck(s: State, t: TaskId) returns (step: Step)
    requires Inv(s) && t in s.tasks && s.tasks[t] != Expiring([])
    ensures Enabled(s, step) && !step.FindRoom? && !step.Enter? && !step.Expire?
  {
    var task := s.tasks[t];
    if task.Waiting? || task.Expiring? {
      var n := if task.Waiting? then task.native else task.queue[0];
      if n in s.locks {
        assert Holds(s.tasks[s.locks[n]]) == Some(n);
        step := Unblocked(s, s.locks[n]);
      } else {
        step := if task.Waiting? then Acquire(t) else LockExpired(t);
      }
    } else {
      step := Unblocked(s, t);
    }
  }

  // ---------------------------------------------------------------- the table can be full

  ghost predicate Reachable(s: State) {
    exists states, steps :: Run(states, steps) && states[|steps|] == s
  }

  lemma ReachMore(s: State, step: Step)
    requires Reachable(s) && Enabled(s, step)
    ensures Reachable(Apply(s, step))
  {
    var states, steps :| Run(states, steps) && states[|steps|] == s;
    LongerRun(states, steps, step);
  }

  lemma LongerRun(states: seq<State>, steps: seq<Step>, step: Step)
    requires Run(states, steps) && Enabled(states[|steps|], step)
    ensures Reachable(Apply(states[|steps|], step))
  {
    var next := Apply(states[|steps|], step);
    var states', steps' := states + [next], steps + [step];
    forall i | 0 <= i < |steps'| ensures Enabled(states'[i], steps'[i]) && states'[i + 1] == Apply(states'[i], steps'[i]) {
      assert i < |steps| ==> states'[i] == states[i] && states'[i + 1] == states[i + 1] && steps'[i] == steps[i];
    }
    assert Run(states', steps') && states'[|steps'|] == next;
  }

  lemma OneMoreSession(s: State) returns (s': State)
    requires Reachable(s) && s.tasks == map[] && |s.sessions| < 128 && s.sessions.Keys <= s.issued
    ensures Reachable(s') && s'.tasks == map[] && |s'.sessions| == |s.sessions| + 1 && s'.sessions.Keys <= s'.issued
  {
    var n := MaxOf(s.place.Keys) + 1;
    ReachMore(s, FindRoom(0));
    var s1 := Apply(s, FindRoom(0));
    ReachMore(s1, OpenNative(0, n));
    s' := RegisterNew(Apply(s1, OpenNative(0, n)), n);
  }

  lemma RegisterNew(s: State, n: Native) returns (s': State)
    requires Reachable(s) && s.tasks == map[0 := Opened(n)] && |s.sessions| < 128 && s.sessions.Keys <= s.issued
    ensures Reachable(s') && s'.tasks == map[] && |s'.sessions| == |s.sessions| + 1 && s'.sessions.Keys <= s'.issued
  {
    var sid := MaxOf(s.issued) + 1;
    ReachMore(s, Register(0, sid));
    s' := Apply(s, Register(0, sid));
    assert sid !in s.sessions && s'.sessions == s.sessions[sid := n];
    assert s'.sessions.Keys == s.sessions.Keys + {sid};
  }

  /** Every number of sessions up to the limit is reached, so an open is refused for nothing less. */
  lemma {:induction false} RoomIsUsed(n: nat) returns (s: State)
    requires n <= 128
    ensures Reachable(s) && s.tasks == map[] && |s.sessions| == n && s.sessions.Keys <= s.issued
  {
    if n == 0 {
      s := START;
      var none: seq<Step> := [];
      assert Run([START], none) && [START][|none|] == START;
    } else {
      s := RoomIsUsed(n - 1);
      s := OneMoreSession(s);
    }
  }
}
