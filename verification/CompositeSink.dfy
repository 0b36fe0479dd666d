/**
 Fan-out of one signal to several sinks with per-sink isolation, and what retrying it does.

 Emits follow each other here, so what counts of an inner sink is its window and its log; `SequentialEmitIsARun`
 ties that to the interleaved protocol, and the classes to the objects.
 */
module CompositeSinks {
  import opened Common
  import opened ReplayGuards
  import opened EmitProtocol
  import opened EmitGuarantees

  /** What befalls one emit of one sink: it is too late for its signal, or its write ends in some way. */
  datatype Fault =
    | Fine
    | PastTtl
    | Unserialisable             // serialising raises, after the reservation and before the write
    | Raises(landed: bool)
    | Interrupts(landed: bool)   // a cancellation: not an `Exception`, so the fan-out does not catch it

  datatype Inner = Inner(cap: nat, window: seq<Id>, log: multiset<Id>)

  datatype Reply = Ok | Failed | Interrupted

  /** One complete emit of one sink. */
  function EmitInner(s: Inner, x: Id, fault: Fault): (Inner, Reply) {
    if fault == PastTtl then (s, Failed)
    else if x in s.window then (s, Ok)
    else
      var reserved := Reserve(s.window, s.cap, x);
      match fault
      case Fine => (Inner(s.cap, reserved, s.log + multiset{x}), Ok)
      case Unserialisable => (Inner(s.cap, reserved, s.log), Failed)
      case Raises(landed) =>
        (Inner(s.cap, Unreserve(reserved, x), if landed then s.log + multiset{x} else s.log), Failed)
      case Interrupts(landed) =>
        (Inner(s.cap, Unreserve(reserved, x), if landed then s.log + multiset{x} else s.log), Interrupted)
  }

  /** The emit comes back without an error: in time, and written or known to the guard. */
  predicate Succeeds(s: Inner, x: Id, fault: Fault) {
    fault != PastTtl && (fault == Fine || x in s.window)
  }

  /** It raises an ordinary error: too late, or a signal the guard does not know that is not written. */
  predicate Errs(s: Inner, x: Id, fault: Fault) {
    fault == PastTtl || (x !in s.window && (fault == Unserialisable || fault.Raises?))
  }

  /** It is interrupted while writing. */
  predicate Stops(s: Inner, x: Id, fault: Fault) {
    fault.Interrupts? && x !in s.window
  }

  /** It leaves a record. */
  predicate Leaves(s: Inner, x: Id, fault: Fault) {
    x !in s.window && (fault == Fine || ((fault.Raises? || fault.Interrupts?) && fault.landed))
  }

  /** One emit by what befell it: the three ways it comes back, its record, and whether the guard knows the id then. */
  lemma EmitInnerByFault(s: Inner, x: Id, fault: Fault)
    requires WindowOk(s.window, s.cap)
    ensures var (s', reply) := EmitInner(s, x, fault);
            && (reply == Ok <==> Succeeds(s, x, fault))
            && (reply == Failed <==> Errs(s, x, fault))
            && (reply == Interrupted <==> Stops(s, x, fault))
            && s'.log == s.log + (if Leaves(s, x, fault) then multiset{x} else multiset{})
            && (x in s'.window <==> x in s.window || fault == Fine || fault == Unserialisable)
  {
    ReserveMembers(s.window, s.cap, x);
    UnreserveMembers(Reserve(s.window, s.cap, x), x);
  }

  predicate StartsWriting(fault: Fault) {
    fault != PastTtl && fault != Unserialisable
  }

  function WriteResultOf(fault: Fault): WriteResult
    requires StartsWriting(fault)
  {
    if fault == Fine then Landed else if fault.landed then FailedLanded else FailedClean
  }

  /** The events of one undisturbed emit by a new task. */
  function EmitEvents(s: Sink, x: Id, fault: Fault): seq<Event> {
    var n := |s.tasks|;
    if fault == PastTtl then [Arrive(x, true)]
    else if x in s.window then [Arrive(x, false), Acquire(n), Check(n), Leave(n)]
    else if fault == Unserialisable then [Arrive(x, false), Acquire(n), FailSerialise(n), Leave(n)]
    else [Arrive(x, false), Acquire(n), Check(n), StartWrite(n), EndWrite(n, WriteResultOf(fault)), Leave(n)]
  }

  function OutcomeOf(s: Sink, x: Id, fault: Fault): Outcome {
    if fault == PastTtl then Expired else if x in s.window then Replayed else if fault == Fine then Written else Raised
  }

  /** The rest of that run when the guard knows the id. */
  lemma LeaveAsReplay(s: Sink, x: Id, lock: nat)
    requires s.table == map[x := LockEntry(lock, 1)] && |s.tasks| > 0 && s.owner == map[lock := |s.tasks| - 1]
    requires s.tasks[|s.tasks| - 1] == Task(x, Leaving(lock, Replayed))
    ensures var n := |s.tasks| - 1;
            && Legal(s, [Leave(n)])
            && Run(s, [Leave(n)]) == s.(tasks := s.tasks[n := Task(x, Returned(Replayed))], table := map[], owner := map[])
  {
    LeaveLast(s, x, lock, Replayed);
    RunOne(s, Leave(|s.tasks| - 1));
  }

  lemma UpdateTwice(tasks: seq<Task>, n: nat, a: Task, b: Task)
    requires n < |tasks|
    ensures tasks[n := a][n := b] == tasks[n := b]
  {
  }

  lemma StartLast(s: Sink, x: Id, lock: nat)
    requires |s.tasks| > 0 && s.tasks[|s.tasks| - 1] == Task(x, Reserved(lock)) && s.fileOwner == None
    ensures var n := |s.tasks| - 1;
            && Enabled(s, StartWrite(n))
            && Next(s, StartWrite(n)) == s.(tasks := s.tasks[n := Task(x, Writing(lock))],
                                            fileOwner := if s.serial then Some(n) else None)
  {
  }

  lemma EndLast(s: Sink, x: Id, lock: nat, fault: Fault)
    requires |s.tasks| > 0 && s.tasks[|s.tasks| - 1] == Task(x, Writing(lock)) && StartsWriting(fault)
    ensures var n := |s.tasks| - 1;
            var e := EndWrite(n, WriteResultOf(fault));
            && Enabled(s, e)
            && var s' := Next(s, e);
            && s'.cap == s.cap && s'.table == s.table && s'.owner == s.owner && s'.fileOwner == None
            && s'.tasks == s.tasks[n := Task(x, Leaving(lock, if fault == Fine then Written else Raised))]
            && s'.window == (if fault == Fine then s.window else Unreserve(s.window, x))
            && s'.log == (if fault == Fine || fault.landed then s.log + multiset{x} else s.log)
  {
  }

  /** The rest of that run when the id has just been reserved. */
  lemma WriteAndLeave(s: Sink, x: Id, lock: nat, fault: Fault)
    requires s.table == map[x := LockEntry(lock, 1)] && |s.tasks| > 0 && s.owner == map[lock := |s.tasks| - 1]
    requires s.tasks[|s.tasks| - 1] == Task(x, Reserved(lock)) && s.fileOwner == None && StartsWriting(fault)
    ensures var n := |s.tasks| - 1;
            var es := [StartWrite(n), EndWrite(n, WriteResultOf(fault)), Leave(n)];
            && Legal(s, es)
            && var s' := Run(s, es);
            && s'.cap == s.cap && s'.table == map[] && s'.owner == map[] && s'.fileOwner == None
            && s'.tasks == s.tasks[n := Task(x, Returned(if fault == Fine then Written else Raised))]
            && s'.window == (if fault == Fine then s.window else Unreserve(s.window, x))
            && s'.log == (if fault == Fine || fault.landed then s.log + multiset{x} else s.log)
  {
    var n := |s.tasks| - 1;
    var s1 := Next(s, StartWrite(n));
    StartLast(s, x, lock);
    var s2 := Next(s1, EndWrite(n, WriteResultOf(fault)));
    EndLast(s1, x, lock, fault);
    var out := if fault == Fine then Written else Raised;
    LeaveLast(s2, x, lock, out);
    UpdateTwice(s.tasks, n, Task(x, Writing(lock)), Task(x, Leaving(lock, out)));
    UpdateTwice(s.tasks, n, Task(x, Leaving(lock, out)), Task(x, Returned(out)));
    hide Next, Enabled, WriteResultOf, Legal, Run;
    ThreeSteps(s, StartWrite(n), EndWrite(n, WriteResultOf(fault)), Leave(n));
  }

  /** The first half: the new task has entered `hold`, got its lock and consulted the guard. */
  lemma EnterAndCheck(s: Sink, x: Id)
    requires s.table == map[] && s.owner == map[]
    ensures var n := |s.tasks|;
            var es := [Arrive(x, false), Acquire(n), Check(n)];
            && Legal(s, es)
            && var s' := Run(s, es);
            && s'.cap == s.cap && s'.log == s.log && s'.fileOwner == s.fileOwner
            && s'.table == map[x := LockEntry(s.nextLock, 1)] && s'.owner == map[s.nextLock := n]
            && s'.window == Reserve(s.window, s.cap, x)
            && s'.tasks == s.tasks + [Task(x, if x in s.window then Leaving(s.nextLock, Replayed) else Reserved(s.nextLock))]
  {
    var n := |s.tasks|;
    var s1 := Next(s, Arrive(x, false));
    assert s1 == s.(tasks := s.tasks + [Task(x, Waiting(s.nextLock))],
                    table := map[x := LockEntry(s.nextLock, 1)], nextLock := s.nextLock + 1);
    var s2 := Next(s1, Acquire(n));
    assert s2 == s1.(tasks := s.tasks + [Task(x, Checking(s.nextLock))], owner := map[s.nextLock := n]);
    var s3 := Next(s2, Check(n));
    assert s3.tasks == s.tasks + [Task(x, if x in s.window then Leaving(s.nextLock, Replayed) else Reserved(s.nextLock))];
    ThreeSteps(s, Arrive(x, false), Acquire(n), Check(n));
  }

  /** An emit nobody interleaves with is a legal run of the protocol with the effect `EmitInner` gives. */
  lemma SequentialEmitIsARun(s: Sink, x: Id, fault: Fault)
    requires s.table == map[] && s.owner == map[] && s.fileOwner == None
    requires fault == Unserialisable ==> x in s.unserialisable
    ensures Legal(s, EmitEvents(s, x, fault))
    ensures var s' := Run(s, EmitEvents(s, x, fault));
            && Inner(s'.cap, s'.window, s'.log) == EmitInner(Inner(s.cap, s.window, s.log), x, fault).0
            && s'.table == map[] && s'.owner == map[] && s'.fileOwner == None
            && s'.tasks == s.tasks + [Task(x, Returned(OutcomeOf(s, x, fault)))]
    ensures var reply := EmitInner(Inner(s.cap, s.window, s.log), x, fault).1;
            && (reply == Ok <==> ReturnsNormally(OutcomeOf(s, x, fault)))
            && (reply == Interrupted <==> fault.Interrupts? && OutcomeOf(s, x, fault) == Raised)
            && (reply == Failed <==> OutcomeOf(s, x, fault) == Expired || (!fault.Interrupts? && OutcomeOf(s, x, fault) == Raised))
  {
    if fault == PastTtl {
      RunOne(s, Arrive(x, true));
    } else if x in s.window {
      ReplayedEmit(s, x);
    } else if fault == Unserialisable {
      var failing := FailingEmit(s, x);
    } else {
      WritingEmit(s, x, fault);
    }
  }

  lemma ReplayedEmit(s: Sink, x: Id)
    requires s.table == map[] && s.owner == map[] && s.fileOwner == None && x in s.window
    ensures var es := [Arrive(x, false), Acquire(|s.tasks|), Check(|s.tasks|), Leave(|s.tasks|)];
            && Legal(s, es)
            && var s' := Run(s, es);
            && s'.cap == s.cap && s'.window == s.window && s'.log == s.log
            && s'.table == map[] && s'.owner == map[] && s'.fileOwner == None
            && s'.tasks == s.tasks + [Task(x, Returned(Replayed))]
  {
    var n := |s.tasks|;
    EnterAndCheck(s, x);
    hide Next, Enabled, Legal, Run;
    var es := [Arrive(x, false), Acquire(n), Check(n)];
    LeaveAsReplay(Run(s, es), x, s.nextLock);
    RunAppend(s, es, [Leave(n)]);
    assert [Arrive(x, false), Acquire(n), Check(n), Leave(n)] == es + [Leave(n)];
  }

  lemma WritingEmit(s: Sink, x: Id, fault: Fault)
    requires s.table == map[] && s.owner == map[] && s.fileOwner == None && x !in s.window && StartsWriting(fault)
    ensures var es := EmitEvents(s, x, fault);
            && Legal(s, es)
            && var s' := Run(s, es);
            && s'.cap == s.cap && s'.table == map[] && s'.owner == map[] && s'.fileOwner == None
            && s'.tasks == s.tasks + [Task(x, Returned(if fault == Fine then Written else Raised))]
            && s'.window == (var w := Reserve(s.window, s.cap, x); if fault == Fine then w else Unreserve(w, x))
            && s'.log == (if fault == Fine || fault.landed then s.log + multiset{x} else s.log)
  {
    var n := |s.tasks|;
    EnterAndCheck(s, x);
    hide Next, Enabled, Legal, Run;
    var es := [Arrive(x, false), Acquire(n), Check(n)];
    var rest := [StartWrite(n), EndWrite(n, WriteResultOf(fault)), Leave(n)];
    WriteAndLeave(Run(s, es), x, s.nextLock, fault);
    RunAppend(s, es, rest);
    assert EmitEvents(s, x, fault) == es + rest;
  }

  /* ---------- the fan-out ---------- */

  /** One attempt to emit a signal: what would befall it at each sink. */
  datatype Attempt = Attempt(faults: seq<Fault>)

  datatype FanOutReply = AllOk | FirstError(sink: nat) | Stopped(sink: nat)

  function ReplyAt(sinks: seq<Inner>, x: Id, a: Attempt, i: nat): Reply
    requires i < |sinks| == |a.faults|
  {
    EmitInner(sinks[i], x, a.faults[i]).1
  }

  /** What a fan-out did: which sinks were attempted, and which error came out. */
  ghost predicate FanOut(before: seq<Inner>, after: seq<Inner>, x: Id, a: Attempt, reply: FanOutReply)
    requires |before| == |a.faults|
  {
    && |after| == |before|
    && (forall i :: 0 <= i < |before| ==>
          after[i] == if reply.Stopped? && reply.sink < i then before[i]
                      else EmitInner(before[i], x, a.faults[i]).0)
    && match reply {
         case AllOk => forall i :: 0 <= i < |before| ==> ReplyAt(before, x, a, i) == Ok
         case FirstError(k) =>
           && k < |before| && ReplyAt(before, x, a, k) == Failed
           && (forall i :: 0 <= i < |before| ==> ReplyAt(before, x, a, i) != Interrupted)
           && (forall i :: 0 <= i < k ==> ReplyAt(before, x, a, i) == Ok)
         case Stopped(k) =>
           && k < |before| && ReplyAt(before, x, a, k) == Interrupted
           && (forall i :: 0 <= i < k ==> ReplyAt(before, x, a, i) != Interrupted)
       }
  }

  /**
   The same by the faults alone. Without an interruption every sink is attempted, whichever of them fail. The reply is
   the first error in sink order, if there is one, after all sinks; only the first interruption cuts the fan-out short.
   */
  ghost predicate FanOutByFaults(before: seq<Inner>, after: seq<Inner>, x: Id, a: Attempt, reply: FanOutReply)
    requires |before| == |a.faults|
  {
    && |after| == |before|
    && (reply == AllOk <==> forall i :: 0 <= i < |before| ==> Succeeds(before[i], x, a.faults[i]))
    && (reply.FirstError? <==>
        && (forall i :: 0 <= i < |before| ==> !Stops(before[i], x, a.faults[i]))
        && (exists i :: 0 <= i < |before| && Errs(before[i], x, a.faults[i])))
    && (reply.FirstError? ==>
        && reply.sink < |before| && Errs(before[reply.sink], x, a.faults[reply.sink])
        && (forall i :: 0 <= i < reply.sink ==> Succeeds(before[i], x, a.faults[i])))
    && (reply.Stopped? <==> exists i :: 0 <= i < |before| && Stops(before[i], x, a.faults[i]))
    && (reply.Stopped? ==>
        && reply.sink < |before| && Stops(before[reply.sink], x, a.faults[reply.sink])
        && (forall i :: 0 <= i < reply.sink ==> !Stops(before[i], x, a.faults[i])))
    && (forall i :: 0 <= i < |before| ==>
        && (reply.Stopped? && reply.sink < i ==> after[i] == before[i])
        && (!(reply.Stopped? && reply.sink < i) ==> LeftBy(before[i], after[i], x, a.faults[i])))
  }

  /** What an emit that was attempted leaves behind. */
  ghost predicate LeftBy(s: Inner, s': Inner, x: Id, fault: Fault) {
    && s'.log == s.log + (if Leaves(s, x, fault) then multiset{x} else multiset{})
    && (x in s'.window <==> x in s.window || fault == Fine || fault == Unserialisable)
  }

  lemma FaultsDecide(before: seq<Inner>, after: seq<Inner>, x: Id, a: Attempt, reply: FanOutReply)
    requires WindowsOk(before) && |before| == |a.faults| && FanOut(before, after, x, a, reply)
    ensures FanOutByFaults(before, after, x, a, reply)
  {
    forall i | 0 <= i < |before|
      ensures ReplyAt(before, x, a, i) == Ok <==> Succeeds(before[i], x, a.faults[i])
      ensures ReplyAt(before, x, a, i) == Failed <==> Errs(before[i], x, a.faults[i])
      ensures ReplyAt(before, x, a, i) == Interrupted <==> Stops(before[i], x, a.faults[i])
      ensures LeftBy(before[i], EmitInner(before[i], x, a.faults[i]).0, x, a.faults[i])
    {
      EmitInnerByFault(before[i], x, a.faults[i]);
    }
    hide Succeeds, Errs, Stops, LeftBy, EmitInner, ReplyAt;
  }

  /** The locks that protect one sink's ids are released by every emit, so each row of the table has a user. */
  ghost predicate LocksOk(table: map<Id, LockEntry<AsyncLock>>) {
    forall x: Id :: x in table ==> table[x].holders > 0
  }

  lemma EnterThenLeave(table: map<Id, LockEntry<AsyncLock>>, x: Id, spare: AsyncLock)
    requires LocksOk(table)
    ensures x in EnterTable(table, x, spare) && LeaveTable(EnterTable(table, x, spare), x) == table
  {
  }

  /** One sink: its guard, its per-id locks and the records at its destination. */
  class CognitiveSink {
    const replayGuard: ReplayGuard
    const emitLocks: PerKeyLock
    var log: multiset<Id>

    constructor (replayGuard: ReplayGuard, emitLocks: PerKeyLock)
      ensures this.replayGuard == replayGuard && this.emitLocks == emitLocks && log == multiset{}
    {
      this.replayGuard := replayGuard;
      this.emitLocks := emitLocks;
      log := multiset{};
    }

    ghost predicate Valid()
      reads this, replayGuard, emitLocks
    {
      replayGuard.Valid() && LocksOk(emitLocks.locks)
    }

    function State(): Inner
      reads this, replayGuard
    {
      Inner(replayGuard.maxEntries, replayGuard.entries, log)
    }

    /** Reserve, serialise, write, and give the reservation back when the write does not report success. */
    method Emit(x: Id, fault: Fault) returns (reply: Reply)
      requires Valid()
      modifies this, replayGuard, emitLocks
      ensures Valid() && emitLocks.locks == old(emitLocks.locks)
      ensures State() == EmitInner(old(State()), x, fault).0 && reply == EmitInner(old(State()), x, fault).1
      ensures reply == Ok <==> Succeeds(old(State()), x, fault)
      ensures reply == Failed <==> Errs(old(State()), x, fault)
      ensures reply == Interrupted <==> Stops(old(State()), x, fault)
    {
      if fault == PastTtl {
        return Failed;
      }
      ghost var table := emitLocks.locks;
      var lock, spare := emitLocks.Enter(x);
      EnterThenLeave(table, x, spare);
      var replay := replayGuard.Seen(x);
      if replay {
        emitLocks.Leave(x);
        return Ok;
      }
      match fault {
        case Fine =>
          log := log + multiset{x};
          reply := Ok;
        case Unserialisable =>
          reply := Failed;
        case Raises(landed) =>
          log := if landed then log + multiset{x} else log;
          replayGuard.Release(x);
          reply := Failed;
        case Interrupts(landed) =>
          log := if landed then log + multiset{x} else log;
          replayGuard.Release(x);
          reply := Interrupted;
      }
      emitLocks.Leave(x);
    }
  }

  class CompositeSink {
    const sinks: seq<CognitiveSink>

    constructor (sinks: seq<CognitiveSink>)
      ensures this.sinks == sinks
    {
      this.sinks := sinks;
    }

    /** Every inner sink is sound, and no two of them share a part. */
    ghost predicate Valid()
      reads this, sinks, Guards(), Locks()
    {
      && (forall i :: 0 <= i < |sinks| ==> sinks[i].Valid())
      && (forall i, j :: 0 <= i < j < |sinks| ==> Apart(sinks[i], sinks[j]))
    }

    ghost predicate Apart(a: CognitiveSink, b: CognitiveSink) {
      a != b && a.replayGuard != b.replayGuard && a.emitLocks != b.emitLocks
    }

    ghost function Guards(): set<ReplayGuard> {
      set i | 0 <= i < |sinks| :: sinks[i].replayGuard
    }

    ghost function Locks(): set<PerKeyLock> {
      set i | 0 <= i < |sinks| :: sinks[i].emitLocks
    }

    ghost function States(): seq<Inner>
      reads sinks, Guards()
    {
      seq(|sinks|, i requires 0 <= i < |sinks| reads sinks, Guards() => sinks[i].State())
    }

    /** One turn of the fan-out: sink `i` emits and no other sink notices. */
    method EmitAt(i: nat, x: Id, fault: Fault) returns (reply: Reply)
      requires Valid() && i < |sinks|
      modifies sinks[i], sinks[i].replayGuard, sinks[i].emitLocks
      ensures Valid()
      ensures States() == old(States())[i := EmitInner(old(States()[i]), x, fault).0]
      ensures reply == EmitInner(old(States()[i]), x, fault).1
    {
      assert forall j :: 0 <= j < |sinks| && j != i ==> Apart(sinks[i], sinks[j]);
      reply := sinks[i].Emit(x, fault);
    }

    /** Every sink is attempted even when earlier ones raise; the first error is re-raised afterwards. */
    method Emit(x: Id, a: Attempt) returns (reply: FanOutReply)
      requires Valid() && |a.faults| == |sinks|
      modifies sinks, Guards(), Locks()
      ensures Valid()
      ensures FanOut(old(States()), States(), x, a, reply)
      ensures FanOutByFaults(old(States()), States(), x, a, reply)
    {
      var firstError: Option<nat> := None;
      ghost var before := States();
      var i := 0;
      while i < |sinks|
        invariant 0 <= i <= |sinks| == |before| && Valid()
        invariant AttemptedUpTo(before, States(), x, a, i, firstError)
      {
        ghost var now := States();
        var r := EmitAt(i, x, a.faults[i]);
        Attempted(before, now, x, a, i, firstError);
        if r == Interrupted {
          FaultsDecide(before, States(), x, a, Stopped(i));
          return Stopped(i);
        }
        if r == Failed && firstError.None? {
          firstError := Some(i);
        }
        i := i + 1;
      }
      reply := if firstError.Some? then FirstError(firstError.value) else AllOk;
      FaultsDecide(before, States(), x, a, reply);
    }
  }

  /** The first `i` sinks have been attempted, none of them was interrupted, and `firstError` is the first to fail. */
  ghost predicate AttemptedUpTo(before: seq<Inner>, now: seq<Inner>, x: Id, a: Attempt, i: nat, firstError: Option<nat>)
    requires |before| == |a.faults| && i <= |before|
  {
    && |now| == |before|
    && (forall j :: 0 <= j < i ==> now[j] == EmitInner(before[j], x, a.faults[j]).0)
    && (forall j :: i <= j < |before| ==> now[j] == before[j])
    && (forall j :: 0 <= j < i ==> ReplyAt(before, x, a, j) != Interrupted)
    && (firstError.None? ==> forall j :: 0 <= j < i ==> ReplyAt(before, x, a, j) == Ok)
    && (firstError.Some? ==>
          && firstError.value < i && ReplyAt(before, x, a, firstError.value) == Failed
          && forall j :: 0 <= j < firstError.value ==> ReplyAt(before, x, a, j) == Ok)
  }

  lemma Attempted(before: seq<Inner>, now: seq<Inner>, x: Id, a: Attempt, i: nat, firstError: Option<nat>)
    requires |before| == |a.faults| && i < |before| && AttemptedUpTo(before, now, x, a, i, firstError)
    ensures var after := now[i := EmitInner(now[i], x, a.faults[i]).0];
            var r := EmitInner(now[i], x, a.faults[i]).1;
            var first := if r == Failed && firstError.None? then Some(i) else firstError;
            if r == Interrupted then FanOut(before, after, x, a, Stopped(i)) else AttemptedUpTo(before, after, x, a, i + 1, first)
  {
  }

  /* ---------- retrying ---------- */

  ghost predicate WindowsOk(sinks: seq<Inner>) {
    forall i :: 0 <= i < |sinks| ==> WindowOk(sinks[i].window, sinks[i].cap)
  }

  /** If the sink remembers the signal, it has it on record. */
  predicate Sound(s: Inner, x: Id) {
    x in s.window ==> x in s.log
  }

  lemma EmitInnerKeepsOk(s: Inner, y: Id, fault: Fault, x: Id)
    requires WindowOk(s.window, s.cap)
    ensures var s' := EmitInner(s, y, fault).0;
            && WindowOk(s'.window, s'.cap)
            && (Sound(s, x) && (x == y ==> fault != Unserialisable) ==> Sound(s', x))
            && (EmitInner(s, y, fault).1 == Ok ==> y in s'.window && (Sound(s, y) ==> y in s'.log))
  {
    ReserveMembers(s.window, s.cap, y);
    UnreserveMembers(Reserve(s.window, s.cap, y), y);
  }

  /** Reserving `y` pushes `x` out of the sink's window. */
  predicate Evicts(s: Inner, y: Id, fault: Fault, x: Id) {
    fault != PastTtl && PushedOut(s.window, s.cap, y) == Some(x)
  }

  /** The write of `x` fails, but its record is left behind. */
  predicate Strays(s: Inner, y: Id, fault: Fault, x: Id) {
    y == x && x !in s.window && (fault.Raises? || fault.Interrupts?) && fault.landed
  }

  /** `x` is reserved, and stays reserved although serialising it raises. */
  predicate Leaks(s: Inner, y: Id, fault: Fault, x: Id) {
    y == x && x !in s.window && fault == Unserialisable
  }

  function One(b: bool): nat {
    if b then 1 else 0
  }

  /** One emit of one sink, for this or another id: where a record of `x`, or its place in the window, can have come from. */
  lemma EmitInnerBalance(s: Inner, y: Id, fault: Fault, x: Id)
    requires WindowOk(s.window, s.cap)
    ensures var s' := EmitInner(s, y, fault).0;
            && s'.log[x] + One(x in s.window) + One(Leaks(s, y, fault, x))
               == s.log[x] + One(x in s'.window) + One(Strays(s, y, fault, x)) + One(Evicts(s, y, fault, x))
            && (x in s.window && !Evicts(s, y, fault, x) ==> x in s'.window)
  {
    ReserveMembers(s.window, s.cap, y);
    UnreserveMembers(Reserve(s.window, s.cap, y), y);
  }

  /** A series of emits of any signals: `states[k]` before emit `k` of `ids[k]`, and what each answered. */
  datatype Series = Series(states: seq<seq<Inner>>, ids: seq<Id>, attempts: seq<Attempt>, replies: seq<FanOutReply>)

  ghost predicate SeriesOk(h: Series) {
    && |h.states| == |h.attempts| + 1 && |h.ids| == |h.replies| == |h.attempts|
    && (forall k :: 0 <= k < |h.states| ==> |h.states[k]| == |h.states[0]|)
    && (forall k :: 0 <= k < |h.attempts| ==> |h.attempts[k].faults| == |h.states[0]|)
    && (forall k :: 0 <= k < |h.attempts| ==> EmitOk(h, k))
    && WindowsOk(h.states[0])
  }

  /** Emit `k` of the series did what a fan-out does. */
  ghost predicate EmitOk(h: Series, k: nat)
    requires k < |h.attempts| < |h.states| && k < |h.ids| && k < |h.replies|
    requires |h.states[k]| == |h.attempts[k].faults|
  {
    FanOut(h.states[k], h.states[k + 1], h.ids[k], h.attempts[k], h.replies[k])
  }

  /** Emit `k` got as far as sink `i`. */
  predicate Reaches(reply: FanOutReply, i: nat) {
    !(reply.Stopped? && reply.sink < i)
  }

  datatype Tally = Tally(evictions: nat, strays: nat, leaks: nat)

  /** What emits `lo` up to `hi` did to `x` at sink `i`, counted. */
  ghost function Count(h: Series, x: Id, lo: nat, hi: nat, i: nat): Tally
    requires SeriesOk(h) && lo <= hi < |h.states| && i < |h.states[0]|
    decreases hi
  {
    if lo == hi then Tally(0, 0, 0)
    else
      var before, now := Count(h, x, lo, hi - 1, i), CountOne(h, x, hi - 1, i);
      Tally(before.evictions + now.evictions, before.strays + now.strays, before.leaks + now.leaks)
  }

  ghost function CountOne(h: Series, x: Id, k: nat, i: nat): Tally
    requires SeriesOk(h) && k < |h.attempts| && i < |h.states[0]|
  {
    var s, fault := h.states[k][i], h.attempts[k].faults[i];
    if Reaches(h.replies[k], i)
    then Tally(One(Evicts(s, h.ids[k], fault, x)), One(Strays(s, h.ids[k], fault, x)), One(Leaks(s, h.ids[k], fault, x)))
    else Tally(0, 0, 0)
  }

  lemma {:induction false} SeriesKeepsOk(h: Series, hi: nat)
    requires SeriesOk(h) && hi < |h.states|
    ensures WindowsOk(h.states[hi])
  {
    if hi > 0 {
      var k := hi - 1;
      SeriesKeepsOk(h, k);
      assert EmitOk(h, k);
      forall j | 0 <= j < |h.states[hi]| ensures WindowOk(h.states[hi][j].window, h.states[hi][j].cap) {
        EmitInnerKeepsOk(h.states[k][j], h.ids[k], h.attempts[k].faults[j], h.ids[k]);
      }
    }
  }

  /** One emit of the fan-out seen from one sink. */
  lemma EmitBalance(h: Series, x: Id, k: nat, i: nat)
    requires SeriesOk(h) && k < |h.attempts| && i < |h.states[0]|
    ensures var s, s', now := h.states[k][i], h.states[k + 1][i], CountOne(h, x, k, i);
            && s'.log[x] + One(x in s.window) + now.leaks == s.log[x] + One(x in s'.window) + now.strays + now.evictions
            && (x in s.window && now.evictions == 0 ==> x in s'.window)
  {
    SeriesKeepsOk(h, k);
    assert EmitOk(h, k);
    EmitInnerBalance(h.states[k][i], h.ids[k], h.attempts[k].faults[i], x);
  }

  /**
   However often a signal is retried, whatever other signals come in between and whatever fails at whichever
   sink, the records of it at a sink are exactly accounted for: one while it is remembered and did not leak, one for
   every time it was evicted, one for every write that failed and yet landed.
   */
  lemma {:induction false} SeriesBalance(h: Series, x: Id, lo: nat, hi: nat, i: nat)
    requires SeriesOk(h) && lo <= hi < |h.states| && i < |h.states[0]|
    ensures var tally := Count(h, x, lo, hi, i);
            h.states[hi][i].log[x] + One(x in h.states[lo][i].window) + tally.leaks
            == h.states[lo][i].log[x] + One(x in h.states[hi][i].window) + tally.strays + tally.evictions
    decreases hi
  {
    if lo < hi {
      SeriesBalance(h, x, lo, hi - 1, i);
      EmitBalance(h, x, hi - 1, i);
    }
  }

  /** While it is not evicted, a sink that has accepted a signal keeps it and gets no second record of it. */
  lemma {:induction false} DeliveredStays(h: Series, x: Id, lo: nat, hi: nat, i: nat)
    requires SeriesOk(h) && lo <= hi < |h.states| && i < |h.states[0]|
    requires x in h.states[lo][i].window && Count(h, x, lo, hi, i).evictions == 0
    ensures x in h.states[hi][i].window && h.states[hi][i].log[x] == h.states[lo][i].log[x]
    decreases hi
  {
    if lo < hi {
      DeliveredStays(h, x, lo, hi - 1, i);
      EmitBalance(h, x, hi - 1, i);
    }
  }

  /** No emit of `x` in the series raises while serialising. */
  ghost predicate SerialisesIn(h: Series, x: Id)
    requires SeriesOk(h)
  {
    forall k, i :: 0 <= k < |h.attempts| && 0 <= i < |h.states[0]| && h.ids[k] == x ==> h.attempts[k].faults[i] != Unserialisable
  }

  lemma {:induction false} SoundStays(h: Series, x: Id, k: nat, i: nat)
    requires SeriesOk(h) && SerialisesIn(h, x) && k < |h.states| && i < |h.states[0]| && Sound(h.states[0][i], x)
    ensures Sound(h.states[k][i], x)
  {
    if k > 0 {
      SoundStays(h, x, k - 1, i);
      SeriesKeepsOk(h, k - 1);
      assert EmitOk(h, k - 1);
      EmitInnerKeepsOk(h.states[k - 1][i], h.ids[k - 1], h.attempts[k - 1].faults[i], x);
    }
  }

  /** A sink that answered without an error remembers the signal; it has it on record if what it remembered was sound. */
  lemma AcceptedAt(h: Series, k: nat, i: nat)
    requires SeriesOk(h) && k < |h.attempts| && i < |h.states[0]|
    requires Reaches(h.replies[k], i) && ReplyAt(h.states[k], h.ids[k], h.attempts[k], i) == Ok
    ensures h.ids[k] in h.states[k + 1][i].window
    ensures Sound(h.states[k][i], h.ids[k]) ==> h.ids[k] in h.states[k + 1][i].log
  {
    SeriesKeepsOk(h, k);
    assert EmitOk(h, k);
    assert h.states[k + 1][i] == EmitInner(h.states[k][i], h.ids[k], h.attempts[k].faults[i]).0;
    hide EmitOk, EmitInner;
    EmitInnerKeepsOk(h.states[k][i], h.ids[k], h.attempts[k].faults[i], h.ids[k]);
  }

  /** An emit that comes back without an error leaves its signal on record at every sink, if the signal serialises. */
  lemma SuccessMeansDelivered(h: Series, k: nat, i: nat)
    requires SeriesOk(h) && k < |h.attempts| && h.replies[k] == AllOk && i < |h.states[0]|
    ensures h.ids[k] in h.states[k + 1][i].window
    ensures SerialisesIn(h, h.ids[k]) && Sound(h.states[0][i], h.ids[k]) ==> h.ids[k] in h.states[k + 1][i].log
  {
    assert EmitOk(h, k);
    assert ReplyAt(h.states[k], h.ids[k], h.attempts[k], i) == Ok;
    AcceptedAt(h, k, i);
    if SerialisesIn(h, h.ids[k]) && Sound(h.states[0][i], h.ids[k]) {
      SoundStays(h, h.ids[k], k, i);
    }
  }

  /**
   Retrying completes the delivery and repeats none of it: after emit `k` of a signal failed at some sinks, an emit
   `l` of the same signal that succeeds has it on record everywhere, and a sink that had accepted it already has
   exactly the records it had, as long as nothing evicted the signal there in between.
   */
  lemma RetryCompletes(h: Series, k: nat, l: nat, i: nat)
    requires SeriesOk(h) && k < l < |h.attempts| && h.ids[k] == h.ids[l] && i < |h.states[0]|
    requires h.replies[l] == AllOk
    ensures SerialisesIn(h, h.ids[l]) && Sound(h.states[0][i], h.ids[l]) ==> h.ids[l] in h.states[l + 1][i].log
    ensures (&& Reaches(h.replies[k], i) && ReplyAt(h.states[k], h.ids[k], h.attempts[k], i) == Ok
             && Count(h, h.ids[k], k + 1, l + 1, i).evictions == 0)
            ==> h.states[l + 1][i].log[h.ids[l]] == h.states[k + 1][i].log[h.ids[l]]
  {
    hide EmitOk, WindowsOk, EmitInner, Count, SerialisesIn, Sound;
    SuccessMeansDelivered(h, l, i);
    if (&& Reaches(h.replies[k], i) && ReplyAt(h.states[k], h.ids[k], h.attempts[k], i) == Ok
        && Count(h, h.ids[k], k + 1, l + 1, i).evictions == 0) {
      AcceptedAt(h, k, i);
      DeliveredStays(h, h.ids[k], k + 1, l + 1, i);
    }
  }

  /* ---------- exactly when success means delivery ---------- */

  /** Whether `x` serialises is a matter of the signal: every emit of it that gets that far raises, or none does. */
  ghost predicate OneSignal(h: Series, x: Id, serialises: bool)
    requires SeriesOk(h)
  {
    forall k, i :: 0 <= k < |h.attempts| && 0 <= i < |h.states[0]| && h.ids[k] == x ==>
                     (if serialises then h.attempts[k].faults[i] != Unserialisable
                      else h.attempts[k].faults[i] == Unserialisable || h.attempts[k].faults[i] == PastTtl)
  }

  /** From these sinks on, whatever happens, an emit of `x` without an error leaves `x` on record everywhere. */
  ghost predicate AlwaysDelivered(start: seq<Inner>, x: Id, serialises: bool) {
    forall h: Series :: SeriesOk(h) && h.states[0] == start && OneSignal(h, x, serialises) ==> DeliveredIn(h, x)
  }

  ghost predicate DeliveredIn(h: Series, x: Id)
    requires SeriesOk(h)
  {
    forall k, i :: 0 <= k < |h.attempts| && 0 <= i < |h.states[0]| ==> DeliveredAt(h, x, k, i)
  }

  /** If emit `k` is an emit of `x` without an error, `x` is then on record at sink `i`. */
  ghost predicate DeliveredAt(h: Series, x: Id, k: nat, i: nat)
    requires SeriesOk(h) && k < |h.attempts| && i < |h.states[0]|
  {
    h.ids[k] == x && h.replies[k] == AllOk ==> x in h.states[k + 1][i].log
  }

  /** Every sink has seen `x` fail to serialise. */
  function AfterLeak(start: seq<Inner>, x: Id): seq<Inner> {
    seq(|start|, i requires 0 <= i < |start| => EmitInner(start[i], x, Unserialisable).0)
  }

  lemma LeakEverywhere(start: seq<Inner>, x: Id) returns (a: Attempt)
    requires start != [] && WindowsOk(start) && (forall i :: 0 <= i < |start| ==> x !in start[i].window && x !in start[i].log)
    ensures a.faults == seq(|start|, i => Unserialisable)
    ensures FanOut(start, AfterLeak(start, x), x, a, FirstError(0))
    ensures FanOut(AfterLeak(start, x), AfterLeak(start, x), x, a, AllOk)
    ensures forall i :: 0 <= i < |start| ==> x !in AfterLeak(start, x)[i].log
  {
    a := Attempt(seq(|start|, i => Unserialisable));
    forall i | 0 <= i < |start| ensures x in AfterLeak(start, x)[i].window {
      ReserveMembers(start[i].window, start[i].cap, x);
    }
  }

  /** The series that breaks the promise: every sink raises while serialising, and the retry reports success. */
  lemma RetryDeliversNothing(start: seq<Inner>, x: Id) returns (h: Series)
    requires start != [] && WindowsOk(start) && (forall i :: 0 <= i < |start| ==> x !in start[i].window && x !in start[i].log)
    ensures SeriesOk(h) && h.states[0] == start && OneSignal(h, x, false)
    ensures h.ids == [x, x] && h.replies == [FirstError(0), AllOk]
    ensures forall i :: 0 <= i < |start| ==> x !in h.states[2][i].log
  {
    var a := LeakEverywhere(start, x);
    var after := AfterLeak(start, x);
    h := Series([start, after, after], [x, x], [a, a], [FirstError(0), AllOk]);
    hide FanOut, AfterLeak;
    assert EmitOk(h, 0) && EmitOk(h, 1);
  }

  /** Success means delivery exactly for the signals that serialise. */
  lemma DeliveredIffSerialises(start: seq<Inner>, x: Id, serialises: bool)
    requires start != [] && WindowsOk(start) && (forall i :: 0 <= i < |start| ==> x !in start[i].window && x !in start[i].log)
    ensures AlwaysDelivered(start, x, serialises) <==> serialises
  {
    if serialises {
      forall h: Series | SeriesOk(h) && h.states[0] == start && OneSignal(h, x, true)
        ensures DeliveredIn(h, x)
      {
        forall k, i | 0 <= k < |h.attempts| && 0 <= i < |h.states[0]| ensures DeliveredAt(h, x, k, i) {
          if h.ids[k] == x && h.replies[k] == AllOk {
            SuccessMeansDelivered(h, k, i);
          }
        }
      }
    } else {
      var h := RetryDeliversNothing(start, x);
      assert !DeliveredAt(h, x, 1, 0);
    }
  }
}
