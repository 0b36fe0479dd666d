/**
 The replay-guarded emit of a sink as a state machine over all interleavings.

 Any number of tasks run `emit`. A task can be interleaved only where the source awaits, so every
 event below is one uninterrupted stretch of the source between two suspension points (some stretches
 are cut further, which only adds interleavings). `serial` distinguishes the JSONL sink, whose writes
 share one file lock, from the HTTP sink, whose requests do not.
 */
module EmitProtocol {
  import opened Common
  import opened ReplayGuards

  /** How an `emit` call came back to its caller. `Written` and `Replayed` are normal returns. */
  datatype Outcome = Written | Replayed | Raised | Expired

  predicate ReturnsNormally(o: Outcome) {
    o == Written || o == Replayed
  }

  datatype Pc =
    | Waiting(lock: nat)                  // inside hold, awaiting the per-key lock
    | Checking(lock: nat)                 // holds the per-key lock, guard not consulted yet
    | Reserved(lock: nat)                 // id reserved, write not started
    | Writing(lock: nat)                  // the append or the request is running
    | Leaving(lock: nat, out: Outcome)    // body finished, hold not left yet
    | Returned(out: Outcome)

  datatype Task = Task(id: Id, pc: Pc)

  /** What a started write did. A failing write may still have landed its record. */
  datatype WriteResult = Landed | FailedClean | FailedLanded

  datatype Sink = Sink(
    cap: nat,
    serial: bool,
    tasks: seq<Task>,
    table: map<Id, LockEntry<nat>>,   // _PerKeyLock._locks; lock objects are numbers
    owner: map<nat, nat>,             // lock object -> index of the task holding it
    nextLock: nat,                    // every lock object created so far is below this
    fileOwner: Option<nat>,           // holder of the shared file lock
    window: seq<Id>,                  // ReplayGuard._seen, oldest first
    log: multiset<Id>,                // records at the destination
    late: multiset<Id>,               // writes whose task was cancelled while they were running
    // History, used to state what happened; no step depends on it.
    evicted: multiset<Id>,            // reservations pushed out of the window
    strays: multiset<Id>,             // records landed by writes that did not report success
    lost: multiset<Id>,               // evictions of ids whose write then failed
    leaked: multiset<Id>,             // reservations kept although serialising the signal raised
    unserialisable: set<Id>           // ids of signals whose payload need not serialise; never changes
  )

  datatype Event =
    | Arrive(id: Id, expired: bool)
    | Acquire(t: nat)
    | Check(t: nat)
    | FailSerialise(t: nat)
    | StartWrite(t: nat)
    | EndWrite(t: nat, result: WriteResult)
    | Leave(t: nat)
    | Cancel(t: nat)
    | LateWrite(id: Id, lands: bool)

  function Init(cap: nat, serial: bool, unserialisable: set<Id>): Sink {
    Sink(cap, serial, [], map[], map[], 0, None, [], multiset{}, multiset{}, multiset{}, multiset{}, multiset{}, multiset{},
         unserialisable)
  }

  predicate Enabled(s: Sink, e: Event) {
    match e
    case Arrive(_, _) => true
    case Acquire(t) => t < |s.tasks| && s.tasks[t].pc.Waiting? && s.tasks[t].pc.lock !in s.owner
    case Check(t) => t < |s.tasks| && s.tasks[t].pc.Checking?
    case FailSerialise(t) =>
      t < |s.tasks| && s.tasks[t].pc.Checking? && s.tasks[t].id !in s.window && s.tasks[t].id in s.unserialisable
    case StartWrite(t) => t < |s.tasks| && s.tasks[t].pc.Reserved? && (s.serial ==> s.fileOwner == None)
    case EndWrite(t, _) => t < |s.tasks| && s.tasks[t].pc.Writing?
    case Leave(t) => t < |s.tasks| && s.tasks[t].pc.Leaving? && s.tasks[t].id in s.table
    case Cancel(t) =>
      t < |s.tasks| && (s.tasks[t].pc.Waiting? || s.tasks[t].pc.Reserved? || s.tasks[t].pc.Writing?)
      && s.tasks[t].id in s.table
    case LateWrite(id, _) => id in s.late
  }

  /** The history of evictions after `x` is reserved. */
  function EvictedAfter(window: seq<Id>, cap: nat, x: Id, evicted: multiset<Id>): multiset<Id> {
    match PushedOut(window, cap, x)
    case Some(y) => evicted + multiset{y}
    case None => evicted
  }

  /** The `except BaseException` branch: the reservation is given back and the error goes on. */
  function GiveUp(s: Sink, t: nat): Sink
    requires t < |s.tasks| && (s.tasks[t].pc.Reserved? || s.tasks[t].pc.Writing?)
  {
    var x := s.tasks[t].id;
    s.(tasks := s.tasks[t := Task(x, Leaving(s.tasks[t].pc.lock, Raised))],
       window := Unreserve(s.window, x),
       fileOwner := if s.tasks[t].pc.Writing? then None else s.fileOwner,
       lost := if x in s.window then s.lost else s.lost + multiset{x})
  }

  /** Test and insert: no suspension lies between the two. */
  function CheckGuard(s: Sink, t: nat): Sink
    requires t < |s.tasks| && s.tasks[t].pc.Checking?
  {
    var x := s.tasks[t].id;
    var lock := s.tasks[t].pc.lock;
    if x in s.window then
      s.(tasks := s.tasks[t := Task(x, Leaving(lock, Replayed))])
    else
      s.(tasks := s.tasks[t := Task(x, Reserved(lock))],
         window := Reserve(s.window, s.cap, x),
         evicted := EvictedAfter(s.window, s.cap, x, s.evicted))
  }

  /** Serialising raises between the reservation and the `try`: the error goes on and the reservation stays. */
  function Leak(s: Sink, t: nat): Sink
    requires t < |s.tasks| && s.tasks[t].pc.Reserved?
  {
    var x := s.tasks[t].id;
    s.(tasks := s.tasks[t := Task(x, Leaving(s.tasks[t].pc.lock, Raised))],
       leaked := s.leaked + multiset{x})
  }

  function Next(s: Sink, e: Event): Sink
    requires Enabled(s, e)
  {
    match e
    case Arrive(x, expired) =>
      if expired then
        s.(tasks := s.tasks + [Task(x, Returned(Expired))])
      else
        s.(tasks := s.tasks + [Task(x, Waiting(LockFor(s.table, x, s.nextLock)))],
           table := EnterTable(s.table, x, s.nextLock),
           nextLock := s.nextLock + 1)
    case Acquire(t) =>
      var lock := s.tasks[t].pc.lock;
      s.(tasks := s.tasks[t := s.tasks[t].(pc := Checking(lock))],
         owner := s.owner[lock := t])
    case Check(t) => CheckGuard(s, t)
    case FailSerialise(t) => Leak(CheckGuard(s, t), t)
    case StartWrite(t) =>
      s.(tasks := s.tasks[t := s.tasks[t].(pc := Writing(s.tasks[t].pc.lock))],
         fileOwner := if s.serial then Some(t) else s.fileOwner)
    case EndWrite(t, result) =>
      var x := s.tasks[t].id;
      match result {
        case Landed =>
          s.(tasks := s.tasks[t := Task(x, Leaving(s.tasks[t].pc.lock, Written))],
             fileOwner := None,
             log := s.log + multiset{x})
        case FailedClean =>
          GiveUp(s, t)
        case FailedLanded =>
          GiveUp(s, t).(log := s.log + multiset{x}, strays := s.strays + multiset{x})
      }
    case Leave(t) =>
      var task := s.tasks[t];
      s.(tasks := s.tasks[t := Task(task.id, Returned(task.pc.out))],
         owner := s.owner - {task.pc.lock},
         table := LeaveTable(s.table, task.id))
    case Cancel(t) =>
      var task := s.tasks[t];
      if task.pc.Waiting? then
        s.(tasks := s.tasks[t := Task(task.id, Returned(Raised))],
           table := LeaveTable(s.table, task.id))
      else if task.pc.Reserved? then
        GiveUp(s, t)
      else
        GiveUp(s, t).(late := s.late + multiset{task.id})
    case LateWrite(x, lands) =>
      if lands then
        s.(late := s.late - multiset{x}, log := s.log + multiset{x}, strays := s.strays + multiset{x})
      else
        s.(late := s.late - multiset{x})
  }

  /** A run is any list of events each of which is enabled when its turn comes. */
  ghost predicate Legal(s: Sink, es: seq<Event>)
    decreases es
  {
    es == [] || (Enabled(s, es[0]) && Legal(Next(s, es[0]), es[1..]))
  }

  ghost function Run(s: Sink, es: seq<Event>): Sink
    requires Legal(s, es)
    decreases es
  {
    if es == [] then s else Run(Next(s, es[0]), es[1..])
  }

  /* ---------- the invariant ---------- */

  predicate Inside(pc: Pc) {
    !pc.Returned?
  }

  predicate Holds(pc: Pc) {
    pc.Checking? || pc.Reserved? || pc.Writing? || pc.Leaving?
  }

  predicate InFlight(pc: Pc) {
    pc.Reserved? || pc.Writing?
  }

  /** The task has returned normally, or is bound to. */
  predicate ReportsSuccess(pc: Pc) {
    (pc.Leaving? || pc.Returned?) && ReturnsNormally(pc.out)
  }

  function InsideFor(x: Id): Task -> nat {
    (task: Task) => if task.id == x && Inside(task.pc) then 1 else 0
  }

  function InFlightFor(x: Id): Task -> nat {
    (task: Task) => if task.id == x && InFlight(task.pc) then 1 else 0
  }

  /** Tasks inside `hold(x)`: waiting for its lock, holding it, or on the way out. */
  function TasksInside(tasks: seq<Task>, x: Id): nat {
    Sum(tasks, InsideFor(x))
  }

  /** Tasks that reserved `x` and whose write has not ended. */
  function TasksInFlight(tasks: seq<Task>, x: Id): nat {
    Sum(tasks, InFlightFor(x))
  }

  // The invariant's parts take just the fields they speak of: that keeps each proof small.

  /** The stored count is the number of tasks inside, and everyone inside shares the stored lock. */
  ghost predicate TableOk(tasks: seq<Task>, table: map<Id, LockEntry<nat>>, nextLock: nat) {
    && (forall x: Id :: HolderCount(table, x) == TasksInside(tasks, x))
    && (forall x: Id :: x in table ==> table[x].holders > 0 && table[x].lock < nextLock)
    && (forall x: Id, y: Id :: x in table && y in table && table[x].lock == table[y].lock ==> x == y)
    && (forall t :: 0 <= t < |tasks| && Inside(tasks[t].pc) ==>
          tasks[t].id in table && table[tasks[t].id].lock == tasks[t].pc.lock)
  }

  /** A per-key lock is owned by exactly the task whose program counter says so. */
  ghost predicate OwnersOk(tasks: seq<Task>, owner: map<nat, nat>) {
    && (forall t :: 0 <= t < |tasks| && Holds(tasks[t].pc) ==>
          tasks[t].pc.lock in owner && owner[tasks[t].pc.lock] == t)
    && (forall l :: l in owner ==>
          owner[l] < |tasks| && Holds(tasks[owner[l]].pc) && tasks[owner[l]].pc.lock == l)
  }

  /** Under the shared file lock at most one task writes: the lock's holder. */
  ghost predicate FileOk(tasks: seq<Task>, serial: bool, fileOwner: Option<nat>) {
    && (serial ==> forall t :: 0 <= t < |tasks| && tasks[t].pc.Writing? ==> fileOwner == Some(t))
    && (fileOwner.Some? ==> serial && fileOwner.value < |tasks| && tasks[fileOwner.value].pc.Writing?)
  }

  /** Every remembered id is on record or being written; every normal return has its record. */
  ghost predicate RecordsOk(tasks: seq<Task>, window: seq<Id>, log: multiset<Id>, leaked: multiset<Id>) {
    && (forall x: Id :: x in window ==> x in log || x in leaked || TasksInFlight(tasks, x) > 0)
    && (forall t :: 0 <= t < |tasks| && ReportsSuccess(tasks[t].pc) ==> tasks[t].id in log || tasks[t].id in leaked)
  }

  function Remembered(window: seq<Id>, x: Id): nat {
    if x in window then 1 else 0
  }

  /** Where every record came from: an exact balance. */
  ghost predicate BalanceOk(tasks: seq<Task>, window: seq<Id>, log: multiset<Id>,
                            evicted: multiset<Id>, strays: multiset<Id>, lost: multiset<Id>,
                            leaked: multiset<Id>)
  {
    forall x: Id :: log[x] + TasksInFlight(tasks, x) + lost[x] + leaked[x] == evicted[x] + strays[x] + Remembered(window, x)
  }

  /** Only a signal that does not serialise leaves a reservation behind. */
  ghost predicate LeaksOk(leaked: multiset<Id>, unserialisable: set<Id>) {
    forall x: Id :: x in leaked ==> x in unserialisable
  }

  ghost predicate Inv(s: Sink) {
    && WindowOk(s.window, s.cap)
    && TableOk(s.tasks, s.table, s.nextLock)
    && OwnersOk(s.tasks, s.owner)
    && FileOk(s.tasks, s.serial, s.fileOwner)
    && RecordsOk(s.tasks, s.window, s.log, s.leaked)
    && LeaksOk(s.leaked, s.unserialisable)
    && BalanceOk(s.tasks, s.window, s.log, s.evicted, s.strays, s.lost, s.leaked)
  }

  lemma InitInv(cap: nat, serial: bool, unserialisable: set<Id>)
    requires 1 <= cap
    ensures Inv(Init(cap, serial, unserialisable))
  {
  }

  /** Two tasks that both hold the lock of the same id are the same task. */
  lemma OneHolder(tasks: seq<Task>, table: map<Id, LockEntry<nat>>, nextLock: nat, owner: map<nat, nat>, t: nat, u: nat)
    requires TableOk(tasks, table, nextLock) && OwnersOk(tasks, owner) && t < |tasks| && u < |tasks|
    requires Holds(tasks[t].pc) && Holds(tasks[u].pc) && tasks[t].id == tasks[u].id
    ensures t == u
  {
    assert owner[tasks[t].pc.lock] == t;
    assert owner[tasks[u].pc.lock] == u;
  }

  /** A task holding the lock of `x` is the only one that can have a write of `x` in flight. */
  lemma InFlightIsHolder(tasks: seq<Task>, table: map<Id, LockEntry<nat>>, nextLock: nat, owner: map<nat, nat>, t: nat)
    requires TableOk(tasks, table, nextLock) && OwnersOk(tasks, owner) && t < |tasks| && Holds(tasks[t].pc)
    ensures TasksInFlight(tasks, tasks[t].id) == if InFlight(tasks[t].pc) then 1 else 0
  {
    var x := tasks[t].id;
    var rest := tasks[t := Task(x, Returned(Raised))];
    forall u | 0 <= u < |rest| ensures InFlightFor(x)(rest[u]) == 0 {
      if u != t && rest[u].id == x && InFlight(rest[u].pc) {
        OneHolder(tasks, table, nextLock, owner, t, u);
      }
    }
    SumZero(rest, InFlightFor(x));
    SumUpdate(tasks, t, rest[t], InFlightFor(x));
  }

  /* ---------- what one task's move does to each part ---------- */

  lemma InsideAfter(tasks: seq<Task>, t: nat, task: Task)
    requires t < |tasks|
    ensures forall x: Id ::
              TasksInside(tasks[t := task], x) == TasksInside(tasks, x)
                + (if x == task.id && Inside(task.pc) then 1 else 0)
                - (if x == tasks[t].id && Inside(tasks[t].pc) then 1 else 0)
  {
    forall x: Id
      ensures TasksInside(tasks[t := task], x) == TasksInside(tasks, x)
                + (if x == task.id && Inside(task.pc) then 1 else 0)
                - (if x == tasks[t].id && Inside(tasks[t].pc) then 1 else 0)
    {
      SumUpdate(tasks, t, task, InsideFor(x));
    }
  }

  lemma InFlightAfter(tasks: seq<Task>, t: nat, task: Task)
    requires t < |tasks|
    ensures forall x: Id ::
              TasksInFlight(tasks[t := task], x) == TasksInFlight(tasks, x)
                + (if x == task.id && InFlight(task.pc) then 1 else 0)
                - (if x == tasks[t].id && InFlight(tasks[t].pc) then 1 else 0)
  {
    forall x: Id
      ensures TasksInFlight(tasks[t := task], x) == TasksInFlight(tasks, x)
                + (if x == task.id && InFlight(task.pc) then 1 else 0)
                - (if x == tasks[t].id && InFlight(tasks[t].pc) then 1 else 0)
    {
      SumUpdate(tasks, t, task, InFlightFor(x));
    }
  }

  /** The task moves on inside `hold`, under the same lock. */
  ghost predicate Moves(task: Task, task': Task) {
    Inside(task.pc) && Inside(task'.pc) && task'.id == task.id && task'.pc.lock == task.pc.lock
  }

  lemma TableMoves(tasks: seq<Task>, table: map<Id, LockEntry<nat>>, nextLock: nat, t: nat, task: Task)
    requires TableOk(tasks, table, nextLock) && t < |tasks| && Moves(tasks[t], task)
    ensures TableOk(tasks[t := task], table, nextLock)
  {
    InsideAfter(tasks, t, task);
  }

  lemma TableLeaves(tasks: seq<Task>, table: map<Id, LockEntry<nat>>, nextLock: nat, t: nat, out: Outcome)
    requires TableOk(tasks, table, nextLock) && t < |tasks| && Inside(tasks[t].pc) && tasks[t].id in table
    ensures TableOk(tasks[t := Task(tasks[t].id, Returned(out))], LeaveTable(table, tasks[t].id), nextLock)
  {
    var tasks' := tasks[t := Task(tasks[t].id, Returned(out))];
    var table' := LeaveTable(table, tasks[t].id);
    var x := tasks[t].id;
    InsideAfter(tasks, t, tasks'[t]);
    assert HolderCount(table, x) == TasksInside(tasks, x);
    forall y: Id ensures HolderCount(table', y) == TasksInside(tasks', y) {
      assert HolderCount(table, y) == TasksInside(tasks, y);
    }
    forall u | 0 <= u < |tasks'| && Inside(tasks'[u].pc)
      ensures tasks'[u].id in table' && table'[tasks'[u].id].lock == tasks'[u].pc.lock
    {
      SumAtLeast(tasks', u, InsideFor(tasks'[u].id));
      assert HolderCount(table', tasks'[u].id) == TasksInside(tasks', tasks'[u].id) > 0;
    }
  }

  lemma TableArrives(tasks: seq<Task>, table: map<Id, LockEntry<nat>>, nextLock: nat, x: Id)
    requires TableOk(tasks, table, nextLock)
    ensures TableOk(tasks + [Task(x, Waiting(LockFor(table, x, nextLock)))], EnterTable(table, x, nextLock), nextLock + 1)
  {
    var task := Task(x, Waiting(LockFor(table, x, nextLock)));
    forall y: Id ensures TasksInside(tasks + [task], y) == TasksInside(tasks, y) + (if x == y then 1 else 0) {
      SumAppend(tasks, [task], InsideFor(y));
      SumSingle(task, InsideFor(y));
    }
  }

  lemma TableUnmoved(tasks: seq<Task>, table: map<Id, LockEntry<nat>>, nextLock: nat, task: Task)
    requires TableOk(tasks, table, nextLock) && !Inside(task.pc)
    ensures TableOk(tasks + [task], table, nextLock)
  {
    forall y: Id ensures TasksInside(tasks + [task], y) == TasksInside(tasks, y) {
      SumAppend(tasks, [task], InsideFor(y));
      SumSingle(task, InsideFor(y));
    }
  }

  lemma OwnersMove(tasks: seq<Task>, owner: map<nat, nat>, t: nat, task: Task)
    requires OwnersOk(tasks, owner) && t < |tasks| && Moves(tasks[t], task)
    requires Holds(tasks[t].pc) && Holds(task.pc)
    ensures OwnersOk(tasks[t := task], owner)
  {
  }

  lemma OwnersAcquire(tasks: seq<Task>, owner: map<nat, nat>, t: nat)
    requires OwnersOk(tasks, owner) && t < |tasks|
    requires tasks[t].pc.Waiting? && tasks[t].pc.lock !in owner
    ensures OwnersOk(tasks[t := Task(tasks[t].id, Checking(tasks[t].pc.lock))], owner[tasks[t].pc.lock := t])
  {
  }

  lemma OwnersArrive(tasks: seq<Task>, owner: map<nat, nat>, task: Task)
    requires OwnersOk(tasks, owner) && !Holds(task.pc)
    ensures OwnersOk(tasks + [task], owner)
  {
    assert forall t :: 0 <= t < |tasks| ==> (tasks + [task])[t] == tasks[t];
  }

  lemma OwnersUnmoved(tasks: seq<Task>, owner: map<nat, nat>, t: nat, task: Task)
    requires OwnersOk(tasks, owner) && t < |tasks| && !Holds(tasks[t].pc) && !Holds(task.pc)
    ensures OwnersOk(tasks[t := task], owner)
  {
  }

  lemma OwnersLeave(tasks: seq<Task>, owner: map<nat, nat>, t: nat, out: Outcome)
    requires OwnersOk(tasks, owner) && t < |tasks| && Holds(tasks[t].pc)
    ensures OwnersOk(tasks[t := Task(tasks[t].id, Returned(out))], owner - {tasks[t].pc.lock})
  {
    assert owner[tasks[t].pc.lock] == t;
  }

  /** The file lock is free again once its holder stops writing, and untouched by everyone else. */
  lemma FileMoves(tasks: seq<Task>, serial: bool, fileOwner: Option<nat>, t: nat, task: Task)
    requires FileOk(tasks, serial, fileOwner) && t < |tasks| && !task.pc.Writing?
    ensures FileOk(tasks[t := task], serial, if tasks[t].pc.Writing? then None else fileOwner)
  {
  }

  /** A successful write turns a reservation into a record. */
  lemma BooksAfterWrite(tasks: seq<Task>, window: seq<Id>, log: multiset<Id>, evicted: multiset<Id>,
                        strays: multiset<Id>, lost: multiset<Id>, leaked: multiset<Id>, t: nat, task: Task)
    requires RecordsOk(tasks, window, log, leaked) && BalanceOk(tasks, window, log, evicted, strays, lost, leaked)
    requires t < |tasks| && InFlight(tasks[t].pc) && task.id == tasks[t].id && !InFlight(task.pc)
    ensures RecordsOk(tasks[t := task], window, log + multiset{task.id}, leaked)
    ensures BalanceOk(tasks[t := task], window, log + multiset{task.id}, evicted, strays, lost, leaked)
  {
    InFlightAfter(tasks, t, task);
  }

  /** A failed write gives its reservation back, or counts as lost when it had been pushed out. */
  lemma BooksAfterGiveUp(tasks: seq<Task>, window: seq<Id>, log: multiset<Id>, evicted: multiset<Id>,
                         strays: multiset<Id>, lost: multiset<Id>, leaked: multiset<Id>, t: nat, task: Task)
    requires RecordsOk(tasks, window, log, leaked) && BalanceOk(tasks, window, log, evicted, strays, lost, leaked)
    requires t < |tasks| && InFlight(tasks[t].pc) && task.id == tasks[t].id && !InFlight(task.pc)
    requires !ReportsSuccess(task.pc) && Distinct(window)
    ensures RecordsOk(tasks[t := task], Unreserve(window, task.id), log, leaked)
    ensures BalanceOk(tasks[t := task], Unreserve(window, task.id), log, evicted, strays,
                      if task.id in window then lost else lost + multiset{task.id}, leaked)
  {
    InFlightAfter(tasks, t, task);
    UnreserveMembers(window, task.id);
  }

  /** A fresh reservation enters the window and may push one id out of it. */
  lemma BooksAfterReserve(tasks: seq<Task>, window: seq<Id>, cap: nat, log: multiset<Id>, evicted: multiset<Id>,
                          strays: multiset<Id>, lost: multiset<Id>, leaked: multiset<Id>, t: nat, task: Task)
    requires RecordsOk(tasks, window, log, leaked) && BalanceOk(tasks, window, log, evicted, strays, lost, leaked)
    requires t < |tasks| && !InFlight(tasks[t].pc) && task.id == tasks[t].id && InFlight(task.pc)
    requires WindowOk(window, cap) && task.id !in window
    ensures RecordsOk(tasks[t := task], Reserve(window, cap, task.id), log, leaked)
    ensures BalanceOk(tasks[t := task], Reserve(window, cap, task.id), log,
                      EvictedAfter(window, cap, task.id, evicted), strays, lost, leaked)
  {
    hide RecordsOk, BalanceOk, Reserve, WindowOk;
    RecordsAfterReserve(tasks, window, cap, log, leaked, t, task);
    BalanceAfterReserve(tasks, window, cap, log, evicted, strays, lost, leaked, t, task);
  }

  lemma RecordsAfterReserve(tasks: seq<Task>, window: seq<Id>, cap: nat, log: multiset<Id>, leaked: multiset<Id>,
                            t: nat, task: Task)
    requires RecordsOk(tasks, window, log, leaked) && WindowOk(window, cap) && task.id !in window
    requires t < |tasks| && !InFlight(tasks[t].pc) && task.id == tasks[t].id && InFlight(task.pc)
    ensures RecordsOk(tasks[t := task], Reserve(window, cap, task.id), log, leaked)
  {
    InFlightAfter(tasks, t, task);
    ReserveMembers(window, cap, task.id);
    hide Reserve, TasksInFlight, PushedOut;
  }

  lemma BalanceAfterReserve(tasks: seq<Task>, window: seq<Id>, cap: nat, log: multiset<Id>, evicted: multiset<Id>,
                            strays: multiset<Id>, lost: multiset<Id>, leaked: multiset<Id>, t: nat, task: Task)
    requires BalanceOk(tasks, window, log, evicted, strays, lost, leaked) && WindowOk(window, cap) && task.id !in window
    requires t < |tasks| && !InFlight(tasks[t].pc) && task.id == tasks[t].id && InFlight(task.pc)
    ensures BalanceOk(tasks[t := task], Reserve(window, cap, task.id), log,
                      EvictedAfter(window, cap, task.id, evicted), strays, lost, leaked)
  {
    InFlightAfter(tasks, t, task);
    ReserveMembers(window, cap, task.id);
    hide Reserve, TasksInFlight, PushedOut;
  }

  /** A reservation whose signal did not serialise is kept and counts as leaked. */
  lemma BooksAfterLeak(tasks: seq<Task>, window: seq<Id>, log: multiset<Id>, evicted: multiset<Id>,
                       strays: multiset<Id>, lost: multiset<Id>, leaked: multiset<Id>, t: nat, task: Task)
    requires RecordsOk(tasks, window, log, leaked) && BalanceOk(tasks, window, log, evicted, strays, lost, leaked)
    requires t < |tasks| && InFlight(tasks[t].pc) && task.id == tasks[t].id && !InFlight(task.pc)
    requires !ReportsSuccess(task.pc)
    ensures RecordsOk(tasks[t := task], window, log, leaked + multiset{task.id})
    ensures BalanceOk(tasks[t := task], window, log, evicted, strays, lost, leaked + multiset{task.id})
  {
    InFlightAfter(tasks, t, task);
  }

  /** A step that neither starts nor ends a write leaves the books alone. */
  lemma BooksUnmoved(tasks: seq<Task>, window: seq<Id>, log: multiset<Id>, evicted: multiset<Id>,
                     strays: multiset<Id>, lost: multiset<Id>, leaked: multiset<Id>, t: nat, task: Task)
    requires RecordsOk(tasks, window, log, leaked) && BalanceOk(tasks, window, log, evicted, strays, lost, leaked)
    requires t < |tasks| && task.id == tasks[t].id && InFlight(task.pc) == InFlight(tasks[t].pc)
    requires ReportsSuccess(task.pc) ==> task.id in log || task.id in leaked
    ensures RecordsOk(tasks[t := task], window, log, leaked)
    ensures BalanceOk(tasks[t := task], window, log, evicted, strays, lost, leaked)
  {
    InFlightAfter(tasks, t, task);
  }

  /* ---------- every event keeps the invariant ---------- */

  lemma BooksArrive(tasks: seq<Task>, window: seq<Id>, log: multiset<Id>, evicted: multiset<Id>,
                    strays: multiset<Id>, lost: multiset<Id>, leaked: multiset<Id>, task: Task)
    requires RecordsOk(tasks, window, log, leaked) && BalanceOk(tasks, window, log, evicted, strays, lost, leaked)
    requires !InFlight(task.pc) && !ReportsSuccess(task.pc)
    ensures RecordsOk(tasks + [task], window, log, leaked)
    ensures BalanceOk(tasks + [task], window, log, evicted, strays, lost, leaked)
  {
    forall y: Id ensures TasksInFlight(tasks + [task], y) == TasksInFlight(tasks, y) {
      SumAppend(tasks, [task], InFlightFor(y));
      SumSingle(task, InFlightFor(y));
    }
  }

  /** A signal already expired leaves no trace but the error its caller gets. */
  lemma ExpiredArriveKeeps(s: Sink, x: Id)
    requires Inv(s)
    ensures Inv(Next(s, Arrive(x, true)))
  {
    var task := Task(x, Returned(Expired));
    BooksArrive(s.tasks, s.window, s.log, s.evicted, s.strays, s.lost, s.leaked, task);
    OwnersArrive(s.tasks, s.owner, task);
    TableUnmoved(s.tasks, s.table, s.nextLock, task);
  }

  lemma LiveArriveKeeps(s: Sink, x: Id)
    requires Inv(s)
    ensures Inv(Next(s, Arrive(x, false)))
  {
    var task := Task(x, Waiting(LockFor(s.table, x, s.nextLock)));
    TableArrives(s.tasks, s.table, s.nextLock, x);
    BooksArrive(s.tasks, s.window, s.log, s.evicted, s.strays, s.lost, s.leaked, task);
    OwnersArrive(s.tasks, s.owner, task);
  }

  lemma AcquireKeeps(s: Sink, t: nat)
    requires Inv(s) && Enabled(s, Acquire(t))
    ensures Inv(Next(s, Acquire(t)))
  {
    var task := Task(s.tasks[t].id, Checking(s.tasks[t].pc.lock));
    TableMoves(s.tasks, s.table, s.nextLock, t, task);
    OwnersAcquire(s.tasks, s.owner, t);
    FileMoves(s.tasks, s.serial, s.fileOwner, t, task);
    BooksUnmoved(s.tasks, s.window, s.log, s.evicted, s.strays, s.lost, s.leaked, t, task);
  }

  /** A follower that finds its id remembered: nobody else is writing it, so it is on record. */
  lemma CheckReplayKeeps(s: Sink, t: nat)
    requires Inv(s) && Enabled(s, Check(t)) && s.tasks[t].id in s.window
    ensures Inv(Next(s, Check(t)))
  {
    var task := Task(s.tasks[t].id, Leaving(s.tasks[t].pc.lock, Replayed));
    TableMoves(s.tasks, s.table, s.nextLock, t, task);
    OwnersMove(s.tasks, s.owner, t, task);
    InFlightIsHolder(s.tasks, s.table, s.nextLock, s.owner, t);
    FileMoves(s.tasks, s.serial, s.fileOwner, t, task);
    BooksUnmoved(s.tasks, s.window, s.log, s.evicted, s.strays, s.lost, s.leaked, t, task);
  }

  lemma CheckFreshKeeps(s: Sink, t: nat)
    requires Inv(s) && Enabled(s, Check(t)) && s.tasks[t].id !in s.window
    ensures Inv(Next(s, Check(t)))
  {
    var task := Task(s.tasks[t].id, Reserved(s.tasks[t].pc.lock));
    TableMoves(s.tasks, s.table, s.nextLock, t, task);
    OwnersMove(s.tasks, s.owner, t, task);
    ReserveMembers(s.window, s.cap, task.id);
    FileMoves(s.tasks, s.serial, s.fileOwner, t, task);
    BooksAfterReserve(s.tasks, s.window, s.cap, s.log, s.evicted, s.strays, s.lost, s.leaked, t, task);
  }

  lemma LeakKeeps(s: Sink, t: nat)
    requires Inv(s) && t < |s.tasks| && s.tasks[t].pc.Reserved? && s.tasks[t].id in s.unserialisable
    ensures Inv(Leak(s, t))
  {
    var task := Task(s.tasks[t].id, Leaving(s.tasks[t].pc.lock, Raised));
    TableMoves(s.tasks, s.table, s.nextLock, t, task);
    OwnersMove(s.tasks, s.owner, t, task);
    FileMoves(s.tasks, s.serial, s.fileOwner, t, task);
    BooksAfterLeak(s.tasks, s.window, s.log, s.evicted, s.strays, s.lost, s.leaked, t, task);
  }

  lemma StartWriteKeeps(s: Sink, t: nat)
    requires Inv(s) && Enabled(s, StartWrite(t))
    ensures Inv(Next(s, StartWrite(t)))
  {
    var task := Task(s.tasks[t].id, Writing(s.tasks[t].pc.lock));
    TableMoves(s.tasks, s.table, s.nextLock, t, task);
    OwnersMove(s.tasks, s.owner, t, task);
    BooksUnmoved(s.tasks, s.window, s.log, s.evicted, s.strays, s.lost, s.leaked, t, task);
  }

  lemma GiveUpKeeps(s: Sink, t: nat)
    requires Inv(s) && t < |s.tasks| && InFlight(s.tasks[t].pc)
    ensures Inv(GiveUp(s, t))
  {
    var task := Task(s.tasks[t].id, Leaving(s.tasks[t].pc.lock, Raised));
    TableMoves(s.tasks, s.table, s.nextLock, t, task);
    OwnersMove(s.tasks, s.owner, t, task);
    UnreserveMembers(s.window, task.id);
    FileMoves(s.tasks, s.serial, s.fileOwner, t, task);
    BooksAfterGiveUp(s.tasks, s.window, s.log, s.evicted, s.strays, s.lost, s.leaked, t, task);
  }

  lemma LandedKeeps(s: Sink, t: nat)
    requires Inv(s) && Enabled(s, EndWrite(t, Landed))
    ensures Inv(Next(s, EndWrite(t, Landed)))
  {
    var task := Task(s.tasks[t].id, Leaving(s.tasks[t].pc.lock, Written));
    assert Moves(s.tasks[t], task) && InFlight(s.tasks[t].pc) && !InFlight(task.pc);
    assert Next(s, EndWrite(t, Landed)) == s.(tasks := s.tasks[t := task], fileOwner := None, log := s.log + multiset{task.id});
    hide Next, TableOk, OwnersOk, FileOk, RecordsOk, BalanceOk, WindowOk, LeaksOk, InFlight, Moves;
    TableMoves(s.tasks, s.table, s.nextLock, t, task);
    OwnersMove(s.tasks, s.owner, t, task);
    FileMoves(s.tasks, s.serial, s.fileOwner, t, task);
    BooksAfterWrite(s.tasks, s.window, s.log, s.evicted, s.strays, s.lost, s.leaked, t, task);
  }

  /** A record that lands although its write failed, or after its task was cancelled, goes to the strays. */
  lemma StrayKeeps(s: Sink, x: Id)
    requires Inv(s)
    ensures Inv(s.(log := s.log + multiset{x}, strays := s.strays + multiset{x}))
  {
  }

  lemma EndWriteKeeps(s: Sink, t: nat, result: WriteResult)
    requires Inv(s) && Enabled(s, EndWrite(t, result))
    ensures Inv(Next(s, EndWrite(t, result)))
  {
    hide Inv;
    match result {
      case Landed => LandedKeeps(s, t);
      case FailedClean => GiveUpKeeps(s, t);
      case FailedLanded =>
        GiveUpKeeps(s, t);
        StrayKeeps(GiveUp(s, t), s.tasks[t].id);
    }
  }

  lemma LeaveKeeps(s: Sink, t: nat)
    requires Inv(s) && Enabled(s, Leave(t))
    ensures Inv(Next(s, Leave(t)))
  {
    var task := Task(s.tasks[t].id, Returned(s.tasks[t].pc.out));
    TableLeaves(s.tasks, s.table, s.nextLock, t, s.tasks[t].pc.out);
    OwnersLeave(s.tasks, s.owner, t, s.tasks[t].pc.out);
    FileMoves(s.tasks, s.serial, s.fileOwner, t, task);
    BooksUnmoved(s.tasks, s.window, s.log, s.evicted, s.strays, s.lost, s.leaked, t, task);
  }

  lemma CancelWaitingKeeps(s: Sink, t: nat)
    requires Inv(s) && Enabled(s, Cancel(t)) && s.tasks[t].pc.Waiting?
    ensures Inv(Next(s, Cancel(t)))
  {
    var task := Task(s.tasks[t].id, Returned(Raised));
    TableLeaves(s.tasks, s.table, s.nextLock, t, Raised);
    FileMoves(s.tasks, s.serial, s.fileOwner, t, task);
    BooksUnmoved(s.tasks, s.window, s.log, s.evicted, s.strays, s.lost, s.leaked, t, task);
    OwnersUnmoved(s.tasks, s.owner, t, task);
    assert Next(s, Cancel(t)) == s.(tasks := s.tasks[t := task], table := LeaveTable(s.table, task.id));
  }

  lemma FailSerialiseKeeps(s: Sink, t: nat)
    requires Inv(s) && Enabled(s, FailSerialise(t))
    ensures Inv(Next(s, FailSerialise(t)))
  {
    CheckFreshKeeps(s, t);
    LeakKeeps(Next(s, Check(t)), t);
  }

  lemma CancelKeeps(s: Sink, t: nat)
    requires Inv(s) && Enabled(s, Cancel(t))
    ensures Inv(Next(s, Cancel(t)))
  {
    if s.tasks[t].pc.Waiting? {
      CancelWaitingKeeps(s, t);
    } else {
      GiveUpKeeps(s, t);
    }
  }

  lemma LateWriteKeeps(s: Sink, x: Id, lands: bool)
    requires Inv(s) && Enabled(s, LateWrite(x, lands))
    ensures Inv(Next(s, LateWrite(x, lands)))
  {
  }

  /** No event can break the invariant. */
  lemma StepKeepsInv(s: Sink, e: Event)
    requires Inv(s) && Enabled(s, e)
    ensures Inv(Next(s, e))
  {
    hide Inv, Next;
    match e
    case Arrive(x, expired) => if expired { ExpiredArriveKeeps(s, x); } else { LiveArriveKeeps(s, x); }
    case Acquire(t) => AcquireKeeps(s, t);
    case Check(t) => if s.tasks[t].id in s.window { CheckReplayKeeps(s, t); } else { CheckFreshKeeps(s, t); }
    case FailSerialise(t) => FailSerialiseKeeps(s, t);
    case StartWrite(t) => StartWriteKeeps(s, t);
    case EndWrite(t, result) => EndWriteKeeps(s, t, result);
    case Leave(t) => LeaveKeeps(s, t);
    case Cancel(t) => CancelKeeps(s, t);
    case LateWrite(x, lands) => LateWriteKeeps(s, x, lands);
  }

  lemma {:induction false} RunKeepsInv(s: Sink, es: seq<Event>)
    requires Inv(s) && Legal(s, es)
    ensures Inv(Run(s, es))
    decreases es
  {
    if es != [] {
      StepKeepsInv(s, es[0]);
      RunKeepsInv(Next(s, es[0]), es[1..]);
    }
  }
}
