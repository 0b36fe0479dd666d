/**
 What the invariant of the emit protocol means for callers, over every interleaving of any number of
 emits with failures, cancellations, late writes and evictions in between.
 */
module EmitGuarantees {
  import opened Common
  import opened ReplayGuards
  import opened EmitProtocol

  /** `s` is reached by some legal run of a fresh sink. */
  ghost predicate Reachable(s: Sink) {
    exists cap: nat, serial: bool, bad: set<Id>, es: seq<Event> ::
      1 <= cap && Legal(Init(cap, serial, bad), es) && Run(Init(cap, serial, bad), es) == s
  }

  /** Every signal of this id serialises. */
  predicate Serialises(s: Sink, x: Id) {
    x !in s.unserialisable
  }

  lemma ReachableInv(s: Sink)
    requires Reachable(s)
    ensures Inv(s)
  {
    var cap: nat, serial: bool, bad: set<Id>, es: seq<Event> :|
      1 <= cap && Legal(Init(cap, serial, bad), es) && Run(Init(cap, serial, bad), es) == s;
    InitInv(cap, serial, bad);
    RunKeepsInv(Init(cap, serial, bad), es);
  }

  /**
   The hole the per-key lock closes, and the one it leaves: an emit that returned normally, as the writer or as
   a replay, did so with its record at the destination, unless an earlier emit of the id raised while serialising.
   No follower reports success for a write that failed.
   */
  lemma NormalReturnHasRecord(s: Sink, t: nat)
    requires Reachable(s) && t < |s.tasks| && ReportsSuccess(s.tasks[t].pc)
    ensures s.tasks[t].id in s.log || s.tasks[t].id in s.leaked
    ensures Serialises(s, s.tasks[t].id) ==> s.tasks[t].id in s.log
  {
    ReachableInv(s);
  }

  /** Records never disappear, so what a normal return promised stays true. */
  lemma {:induction false} RecordsStay(s: Sink, es: seq<Event>)
    requires Legal(s, es)
    ensures s.log <= Run(s, es).log
    decreases es
  {
    if es != [] {
      RecordsStay(Next(s, es[0]), es[1..]);
    }
  }

  /** Every record of `x` is accounted for by an eviction, a stray write, or its place in the window. */
  lemma RecordsAreAccountedFor(s: Sink, x: Id)
    requires Reachable(s)
    ensures s.log[x] + TasksInFlight(s.tasks, x) + s.lost[x] + s.leaked[x]
         == s.evicted[x] + s.strays[x] + Remembered(s.window, x)
    ensures Serialises(s, x) ==> s.leaked[x] == 0
    ensures x !in s.evicted && x !in s.strays ==> s.log[x] + TasksInFlight(s.tasks, x) <= 1
  {
    ReachableInv(s);
  }

  /** The lock table counts exactly the tasks inside, who all share one lock object. */
  lemma TableCountsTasksInside(s: Sink, x: Id)
    requires Reachable(s)
    ensures HolderCount(s.table, x) == TasksInside(s.tasks, x)
    ensures x in s.table <==> exists t :: 0 <= t < |s.tasks| && s.tasks[t].id == x && Inside(s.tasks[t].pc)
    ensures forall t :: 0 <= t < |s.tasks| && s.tasks[t].id == x && Inside(s.tasks[t].pc) ==>
              s.tasks[t].pc.lock == s.table[x].lock
  {
    ReachableInv(s);
    assert HolderCount(s.table, x) == TasksInside(s.tasks, x);
    if x in s.table {
      var t := SumWitness(s.tasks, InsideFor(x));
      assert s.tasks[t].id == x && Inside(s.tasks[t].pc);
    }
  }

  /** One emit per id at a time past the lock; one write at a time at all under the file lock. */
  lemma MutualExclusion(s: Sink, t: nat, u: nat)
    requires Reachable(s) && t < |s.tasks| && u < |s.tasks| && t != u
    ensures !(Holds(s.tasks[t].pc) && Holds(s.tasks[u].pc) && s.tasks[t].id == s.tasks[u].id)
    ensures !(s.serial && s.tasks[t].pc.Writing? && s.tasks[u].pc.Writing?)
  {
    ReachableInv(s);
    if Holds(s.tasks[t].pc) && Holds(s.tasks[u].pc) && s.tasks[t].id == s.tasks[u].id {
      OneHolder(s.tasks, s.table, s.nextLock, s.owner, t, u);
    }
  }

  /** Distinct ids never block each other on the per-key locks. */
  lemma OnlySameIdBlocks(s: Sink, t: nat)
    requires Reachable(s) && t < |s.tasks| && s.tasks[t].pc.Waiting?
    ensures !Enabled(s, Acquire(t)) <==>
            exists u :: 0 <= u < |s.tasks| && u != t && s.tasks[u].id == s.tasks[t].id && Holds(s.tasks[u].pc)
  {
    ReachableInv(s);
    hide Reachable, RecordsOk, BalanceOk, LeaksOk, FileOk, WindowOk;
    var lock := s.tasks[t].pc.lock;
    if lock in s.owner {
      var u := s.owner[lock];
      assert s.table[s.tasks[u].id].lock == s.table[s.tasks[t].id].lock;
      assert s.tasks[u].id == s.tasks[t].id;
    }
    if u :| 0 <= u < |s.tasks| && u != t && s.tasks[u].id == s.tasks[t].id && Holds(s.tasks[u].pc) {
      assert s.tasks[u].pc.lock == lock;
    }
  }

  lemma ThreeSteps(s: Sink, a: Event, b: Event, c: Event)
    requires Enabled(s, a) && Enabled(Next(s, a), b) && Enabled(Next(Next(s, a), b), c)
    ensures Legal(s, [a, b, c]) && Run(s, [a, b, c]) == Next(Next(Next(s, a), b), c)
  {
    hide Next, Enabled;
    var s1, s2, s3 := Next(s, a), Next(Next(s, a), b), Next(Next(Next(s, a), b), c);
    RunOne(s2, c);
    RunCons(s1, b, [c]);
    RunCons(s, a, [b, c]);
    assert [b, c] == [b] + [c] && [a, b, c] == [a] + [b, c];
  }

  /** A run of one more event at the front. */
  lemma RunCons(s: Sink, e: Event, es: seq<Event>)
    requires Enabled(s, e) && Legal(Next(s, e), es)
    ensures Legal(s, [e] + es) && Run(s, [e] + es) == Run(Next(s, e), es)
  {
    hide Next, Enabled;
    var all := [e] + es;
    assert all[0] == e && all[1..] == es;
  }

  lemma {:induction false} RunAppend(s: Sink, es: seq<Event>, fs: seq<Event>)
    requires Legal(s, es) && Legal(Run(s, es), fs)
    ensures Legal(s, es + fs) && Run(s, es + fs) == Run(Run(s, es), fs)
    decreases es
  {
    hide Next, Enabled;
    if es == [] {
      assert es + fs == fs;
    } else {
      assert (es + fs)[1..] == es[1..] + fs;
      RunAppend(Next(s, es[0]), es[1..], fs);
    }
  }

  /** A lock nobody has entered with is not held. */
  lemma NewLockIsFree(s: Sink)
    requires Inv(s)
    ensures s.nextLock !in s.owner
  {
    forall l | l in s.owner ensures l < s.nextLock {
      assert s.table[s.tasks[s.owner[l]].id].lock == l;
    }
  }

  /** An id nobody is busy with has no row in the lock table and, without a record or a leak, no place in the window. */
  lemma IdleId(s: Sink, x: Id)
    requires Inv(s) && TasksInside(s.tasks, x) == 0
    ensures x !in s.table
    ensures x !in s.log && x !in s.leaked ==> x !in s.window
  {
    hide OwnersOk, FileOk, BalanceOk, LeaksOk, WindowOk;
    assert HolderCount(s.table, x) == 0;
    if TasksInFlight(s.tasks, x) > 0 {
      var t := SumWitness(s.tasks, InFlightFor(x));
      SumAtLeast(s.tasks, t, InsideFor(x));
    }
  }

  lemma ArriveIdle(s: Sink, x: Id)
    requires x !in s.table
    ensures Next(s, Arrive(x, false)).tasks == s.tasks + [Task(x, Waiting(s.nextLock))]
    ensures var s' := Next(s, Arrive(x, false));
            && s'.window == s.window && s'.owner == s.owner && s'.cap == s.cap && s'.log == s.log
            && s'.evicted == s.evicted && s'.leaked == s.leaked && s'.unserialisable == s.unserialisable
            && s'.fileOwner == s.fileOwner && s'.nextLock == s.nextLock + 1
            && s'.table == s.table[x := LockEntry(s.nextLock, 1)]
  {
  }

  lemma AcquireLast(s: Sink, x: Id, lock: nat)
    requires s.tasks != [] && s.tasks[|s.tasks| - 1] == Task(x, Waiting(lock)) && lock !in s.owner
    ensures var n := |s.tasks| - 1;
            && Enabled(s, Acquire(n))
            && Next(s, Acquire(n)) == s.(tasks := s.tasks[..n] + [Task(x, Checking(lock))], owner := s.owner[lock := n])
  {
  }

  lemma CheckLast(s: Sink, x: Id, lock: nat)
    requires s.tasks != [] && s.tasks[|s.tasks| - 1] == Task(x, Checking(lock)) && x !in s.window
    ensures var n := |s.tasks| - 1;
            Enabled(s, Check(n)) && Next(s, Check(n)).tasks == s.tasks[..n] + [Task(x, Reserved(lock))]
  {
  }

  lemma FailLast(s: Sink, x: Id, lock: nat)
    requires s.tasks != [] && s.tasks[|s.tasks| - 1] == Task(x, Checking(lock)) && x !in s.window && x in s.unserialisable
    ensures var n := |s.tasks| - 1;
            && Enabled(s, FailSerialise(n))
            && var s' := Next(s, FailSerialise(n));
            && s'.tasks == s.tasks[..n] + [Task(x, Leaving(lock, Raised))]
            && s'.window == Reserve(s.window, s.cap, x) && s'.leaked == s.leaked + multiset{x}
            && s'.cap == s.cap && s'.log == s.log && s'.table == s.table && s'.owner == s.owner
            && s'.nextLock == s.nextLock && s'.fileOwner == s.fileOwner
  {
  }

  lemma LeaveLast(s: Sink, x: Id, lock: nat, out: Outcome)
    requires s.table == map[x := LockEntry(lock, 1)] && |s.tasks| > 0 && s.owner == map[lock := |s.tasks| - 1]
    requires s.tasks[|s.tasks| - 1] == Task(x, Leaving(lock, out))
    ensures var n := |s.tasks| - 1;
            && Enabled(s, Leave(n))
            && Next(s, Leave(n)) == s.(tasks := s.tasks[n := Task(x, Returned(out))], table := map[], owner := map[])
  {
    var last := Next(s, Leave(|s.tasks| - 1));
    assert last.table == map[] && last.owner == map[];
  }

  /**
   A transient failure is not permanent loss: while no record of `x` exists, no emit of it raised while serialising
   and nobody is busy with it, a new emit of `x` gets as far as reserving its write instead of being dropped as a replay.
   */
  lemma RetryIsNotDropped(s: Sink, x: Id)
    requires Reachable(s) && x !in s.log && x !in s.leaked && TasksInside(s.tasks, x) == 0
    ensures var n := |s.tasks|;
            var es := [Arrive(x, false), Acquire(n), Check(n)];
            Legal(s, es) && Run(s, es).tasks == s.tasks + [Task(x, Reserved(s.nextLock))]
  {
    ReachableInv(s);
    IdleId(s, x);
    NewLockIsFree(s);
    var n := |s.tasks|;
    ArriveIdle(s, x);
    AcquireLast(Next(s, Arrive(x, false)), x, s.nextLock);
    CheckLast(Next(Next(s, Arrive(x, false)), Acquire(n)), x, s.nextLock);
    hide Next, Enabled;
    ThreeSteps(s, Arrive(x, false), Acquire(n), Check(n));
  }

  /* ---------- exactly when a normal return has its record ---------- */

  lemma CheckLastReplays(s: Sink, x: Id, lock: nat)
    requires s.tasks != [] && s.tasks[|s.tasks| - 1] == Task(x, Checking(lock)) && x in s.window
    ensures var n := |s.tasks| - 1;
            && Enabled(s, Check(n))
            && Next(s, Check(n)).tasks == s.tasks[..n] + [Task(x, Leaving(lock, Replayed))]
            && Next(s, Check(n)).log == s.log
  {
  }

  /** An idle remembered id: the next emit of it is a replay, whether or not the id has a record. */
  lemma IdleEmitReplays(s: Sink, x: Id)
    requires x !in s.table && s.nextLock !in s.owner && x in s.window
    ensures var n := |s.tasks|;
            var es := [Arrive(x, false), Acquire(n), Check(n)];
            && Legal(s, es) && Run(s, es).log == s.log && |Run(s, es).tasks| == n + 1
            && Run(s, es).tasks[n] == Task(x, Leaving(s.nextLock, Replayed))
  {
    var n := |s.tasks|;
    ArriveIdle(s, x);
    AcquireLast(Next(s, Arrive(x, false)), x, s.nextLock);
    CheckLastReplays(Next(Next(s, Arrive(x, false)), Acquire(n)), x, s.nextLock);
    ThreeSteps(s, Arrive(x, false), Acquire(n), Check(n));
  }

  /** The new task has entered `hold`, got its lock and reserved its id; then serialising its signal raised. */
  lemma EnterAndFail(s: Sink, x: Id)
    requires s.table == map[] && s.owner == map[] && x !in s.window && x in s.unserialisable
    ensures var n := |s.tasks|;
            var es := [Arrive(x, false), Acquire(n), FailSerialise(n)];
            && Legal(s, es)
            && var s' := Run(s, es);
            && s'.cap == s.cap && s'.log == s.log && s'.fileOwner == s.fileOwner
            && s'.leaked == s.leaked + multiset{x} && s'.nextLock == s.nextLock + 1
            && s'.table == map[x := LockEntry(s.nextLock, 1)] && s'.owner == map[s.nextLock := n]
            && s'.window == Reserve(s.window, s.cap, x)
            && s'.tasks == s.tasks + [Task(x, Leaving(s.nextLock, Raised))]
  {
    var n := |s.tasks|;
    var s1 := Next(s, Arrive(x, false));
    ArriveIdle(s, x);
    var s2 := Next(s1, Acquire(n));
    AcquireLast(s1, x, s.nextLock);
    FailLast(s2, x, s.nextLock);
    hide Next, Enabled;
    assert s1.tasks[..n] == s.tasks && s2.tasks[..n] == s.tasks;
    ThreeSteps(s, Arrive(x, false), Acquire(n), FailSerialise(n));
  }

  /** A whole such emit: it raises, leaves the lock table as it was, and its id stays remembered. */
  lemma FailingEmit(s: Sink, x: Id) returns (es: seq<Event>)
    requires s.table == map[] && s.owner == map[] && x !in s.window && x in s.unserialisable
    ensures Legal(s, es)
    ensures var s' := Run(s, es);
            && s'.tasks == s.tasks + [Task(x, Returned(Raised))] && s'.log == s.log && s'.fileOwner == s.fileOwner
            && s'.cap == s.cap && s'.window == Reserve(s.window, s.cap, x) && s'.leaked == s.leaked + multiset{x}
            && s'.table == map[] && s'.owner == map[]
    ensures es == [Arrive(x, false), Acquire(|s.tasks|), FailSerialise(|s.tasks|), Leave(|s.tasks|)]
  {
    var n := |s.tasks|;
    EnterAndFail(s, x);
    hide Next, Enabled, Legal, Run;
    var first := [Arrive(x, false), Acquire(n), FailSerialise(n)];
    var s3 := Run(s, first);
    assert s3.tasks[n] == Task(x, Leaving(s.nextLock, Raised));
    LeaveLast(s3, x, s.nextLock, Raised);
    RunOne(s3, Leave(n));
    RunAppend(s, first, [Leave(n)]);
    es := first + [Leave(n)];
    assert s3.tasks[n := Task(x, Returned(Raised))] == s.tasks + [Task(x, Returned(Raised))];
  }

  lemma RunOne(s: Sink, e: Event)
    requires Enabled(s, e)
    ensures Legal(s, [e]) && Run(s, [e]) == Next(s, e)
  {
    hide Next, Enabled;
    RunCons(s, e, []);
    assert [e] == [e] + [];
  }

  /**
   The run that breaks the promise: an emit of a signal that does not serialise raises, and the next emit of the same
   signal returns normally, as a replay of a record nobody wrote.
   */
  lemma RaiseThenReplay(cap: nat, serial: bool, bad: set<Id>, x: Id) returns (es: seq<Event>)
    requires 1 <= cap && x in bad
    ensures Legal(Init(cap, serial, bad), es)
    ensures var s := Run(Init(cap, serial, bad), es);
            && |s.tasks| == 2 && s.tasks[1].id == x && ReportsSuccess(s.tasks[1].pc) && x !in s.log
  {
    var s0 := Init(cap, serial, bad);
    var first := FailingEmit(s0, x);
    var s := Run(s0, first);
    ReserveMembers([], cap, x);
    hide Next, Enabled, Legal, Run;
    IdleEmitReplays(s, x);
    var second := [Arrive(x, false), Acquire(1), Check(1)];
    RunAppend(s0, first, second);
    es := first + second;
  }

  /** In every run, whoever emits `x` and returns normally finds its record at the destination. */
  ghost predicate AlwaysRecorded(cap: nat, serial: bool, bad: set<Id>, x: Id) {
    forall es: seq<Event> :: Legal(Init(cap, serial, bad), es) ==> RecordedIn(Run(Init(cap, serial, bad), es), x)
  }

  ghost predicate RecordedIn(s: Sink, x: Id) {
    forall t :: 0 <= t < |s.tasks| && s.tasks[t].id == x && ReportsSuccess(s.tasks[t].pc) ==> x in s.log
  }

  lemma {:induction false} NothingMoreFails(s: Sink, es: seq<Event>)
    requires Legal(s, es)
    ensures Run(s, es).unserialisable == s.unserialisable
    decreases es
  {
    if es != [] {
      NothingMoreFails(Next(s, es[0]), es[1..]);
    }
  }

  /** The docstrings' promise holds of an id exactly when its signals serialise. */
  lemma RecordedIffSerialises(cap: nat, serial: bool, bad: set<Id>, x: Id)
    requires 1 <= cap
    ensures AlwaysRecorded(cap, serial, bad, x) <==> x !in bad
  {
    if x in bad {
      var es := RaiseThenReplay(cap, serial, bad, x);
      assert !RecordedIn(Run(Init(cap, serial, bad), es), x);
    } else {
      forall es: seq<Event> | Legal(Init(cap, serial, bad), es)
        ensures RecordedIn(Run(Init(cap, serial, bad), es), x)
      {
        InitInv(cap, serial, bad);
        RunKeepsInv(Init(cap, serial, bad), es);
        NothingMoreFails(Init(cap, serial, bad), es);
      }
    }
  }

  /* ---------- every emit comes back ---------- */

  function TaskWork(task: Task): nat {
    match task.pc
    case Waiting(_) => 6
    case Checking(_) => 5
    case Reserved(_) => 4
    case Writing(_) => 3
    case Leaving(_, _) => 1
    case Returned(_) => 0
  }

  /** How many events can still happen without a new emit arriving, at most. */
  function Work(s: Sink): nat {
    Sum(s.tasks, TaskWork) + |s.late|
  }

  /** A step a task takes by itself, without anyone cancelling it. */
  predicate OwnStep(e: Event) {
    e.Acquire? || e.Check? || e.FailSerialise? || e.StartWrite? || e.EndWrite? || e.Leave?
  }

  lemma LessWork(tasks: seq<Task>, t: nat, task: Task)
    requires t < |tasks| && TaskWork(task) < TaskWork(tasks[t])
    ensures Sum(tasks[t := task], TaskWork) < Sum(tasks, TaskWork)
  {
    SumUpdate(tasks, t, task, TaskWork);
  }

  lemma EndWriteWorks(s: Sink, t: nat, result: WriteResult)
    requires Enabled(s, EndWrite(t, result))
    ensures Work(Next(s, EndWrite(t, result))) < Work(s)
  {
    var lock := s.tasks[t].pc.lock;
    LessWork(s.tasks, t, Task(s.tasks[t].id, Leaving(lock, if result == Landed then Written else Raised)));
  }

  lemma CheckWorks(s: Sink, t: nat)
    requires Enabled(s, Check(t))
    ensures Work(Next(s, Check(t))) < Work(s)
  {
    var lock := s.tasks[t].pc.lock;
    LessWork(s.tasks, t, Task(s.tasks[t].id, if s.tasks[t].id in s.window then Leaving(lock, Replayed) else Reserved(lock)));
  }

  lemma FailSerialiseWorks(s: Sink, t: nat)
    requires Enabled(s, FailSerialise(t))
    ensures Work(Next(s, FailSerialise(t))) < Work(s)
  {
    var task := Task(s.tasks[t].id, Leaving(s.tasks[t].pc.lock, Raised));
    assert Next(s, FailSerialise(t)).tasks == s.tasks[t := task];
    LessWork(s.tasks, t, task);
  }

  lemma LockStepWorks(s: Sink, e: Event)
    requires Enabled(s, e) && (e.Acquire? || e.StartWrite? || e.Leave?)
    ensures Work(Next(s, e)) < Work(s)
  {
    var pc := s.tasks[e.t].pc;
    LessWork(s.tasks, e.t, Task(s.tasks[e.t].id, match e case Acquire(_) => Checking(pc.lock)
                                                         case StartWrite(_) => Writing(pc.lock)
                                                         case Leave(_) => Returned(pc.out)));
  }

  lemma OwnStepWorks(s: Sink, e: Event)
    requires Enabled(s, e) && OwnStep(e)
    ensures Work(Next(s, e)) < Work(s)
  {
    hide Next, Enabled, Work;
    match e
    case Check(t) => CheckWorks(s, t);
    case FailSerialise(t) => FailSerialiseWorks(s, t);
    case EndWrite(t, result) => EndWriteWorks(s, t, result);
    case _ => LockStepWorks(s, e);
  }

  /** A cancelled write leaves one write running on its own, but takes three events of its task with it. */
  lemma CancelWorks(s: Sink, t: nat)
    requires Enabled(s, Cancel(t))
    ensures Work(Next(s, Cancel(t))) < Work(s)
  {
    var s' := Next(s, Cancel(t));
    assert |s'.late| <= |s.late| + (if s.tasks[t].pc.Writing? then 1 else 0);
    assert s'.tasks == s.tasks[t := s'.tasks[t]];
    SumUpdate(s.tasks, t, s'.tasks[t], TaskWork);
  }

  lemma StepWorks(s: Sink, e: Event)
    requires Enabled(s, e) && !e.Arrive?
    ensures Work(Next(s, e)) < Work(s)
  {
    if OwnStep(e) {
      OwnStepWorks(s, e);
    } else if e.Cancel? {
      CancelWorks(s, e.t);
    } else {
      assert |s.late - multiset{e.id}| == |s.late| - 1;
    }
  }

  ghost predicate NoArrivals(es: seq<Event>) {
    forall i :: 0 <= i < |es| ==> !es[i].Arrive?
  }

  /** Once emits stop arriving, only boundedly many events remain, whatever the schedule. */
  lemma {:induction false} RunsAreBounded(s: Sink, es: seq<Event>)
    requires Legal(s, es) && NoArrivals(es)
    ensures |es| + Work(Run(s, es)) <= Work(s)
    decreases es
  {
    if es != [] {
      StepWorks(s, es[0]);
      RunsAreBounded(Next(s, es[0]), es[1..]);
    }
  }

  lemma SinkGoesOn(s: Sink, t: nat) returns (e: Event)
    requires Inv(s) && t < |s.tasks| && Inside(s.tasks[t].pc)
    ensures Enabled(s, e) && OwnStep(e)
  {
    hide RecordsOk, BalanceOk, LeaksOk, WindowOk;
    var u := t;
    if s.tasks[t].pc.Waiting? && s.tasks[t].pc.lock in s.owner {
      u := s.owner[s.tasks[t].pc.lock];
    }
    match s.tasks[u].pc {
      case Waiting(_) => e := Acquire(u);
      case Checking(_) => e := Check(u);
      case Reserved(_) =>
        e := if s.serial && s.fileOwner.Some? then EndWrite(s.fileOwner.value, Landed) else StartWrite(u);
      case Writing(_) => e := EndWrite(u, Landed);
      case Leaving(_, _) => e := Leave(u);
    }
  }

  /** No deadlock: while some emit has not come back, some task can take a step of its own. */
  lemma NoDeadlock(s: Sink, t: nat) returns (e: Event)
    requires Reachable(s) && t < |s.tasks| && Inside(s.tasks[t].pc)
    ensures Enabled(s, e) && OwnStep(e)
  {
    ReachableInv(s);
    e := SinkGoesOn(s, t);
  }

  /** When nothing is left to do, no lock row and no owner is left, and what is remembered is on record or was leaked. */
  lemma QuietSinkIsClean(s: Sink)
    requires Reachable(s)
    requires forall e: Event :: OwnStep(e) ==> !Enabled(s, e)
    ensures forall t :: 0 <= t < |s.tasks| ==> s.tasks[t].pc.Returned?
    ensures s.table == map[] && s.owner == map[] && s.fileOwner == None
    ensures forall x: Id :: x in s.window ==> x in s.log || x in s.leaked
    ensures forall x: Id :: x in s.window && Serialises(s, x) ==> x in s.log
  {
    ReachableInv(s);
    forall t | 0 <= t < |s.tasks| ensures s.tasks[t].pc.Returned? {
      if Inside(s.tasks[t].pc) {
        var e := NoDeadlock(s, t);
      }
    }
    forall x: Id ensures x !in s.table && TasksInFlight(s.tasks, x) == 0 {
      SumZero(s.tasks, InsideFor(x));
      SumZero(s.tasks, InFlightFor(x));
      assert HolderCount(s.table, x) == TasksInside(s.tasks, x);
    }
  }
}
