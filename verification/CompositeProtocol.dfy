/**
 Any number of composite emits at once, interleaved with each other and with emits of the inner sinks by
 anyone else: each inner sink runs the emit protocol, and a composite call visits the sinks one after another.
 */
module CompositeProtocol {
  import opened Common
  import opened ReplayGuards
  import opened EmitProtocol
  import opened EmitGuarantees

  /** How a composite call came back: without an error, with the first one, or because something uncaught stopped it. */
  datatype End = NoError | FirstError(sink: nat) | Stopped(sink: nat)

  /** A composite call: the tasks it has been through, sink by sink, and the one it awaits now. */
  datatype Call = Call(id: Id, done: seq<nat>, current: Option<nat>, firstError: Option<nat>, end: Option<End>)

  datatype State = State(sinks: seq<Sink>, calls: seq<Call>)

  datatype Step =
    | Begin(id: Id)
    | Visit(c: nat, expired: bool)      // the call starts its emit of the next sink
    | Collect(c: nat, caught: bool)     // that emit has come back
    | Finish(c: nat)
    | SinkStep(i: nat, event: Event)    // anything else that happens at sink `i`

  predicate Active(s: State, c: nat) {
    c < |s.calls| && s.calls[c].end == None && |s.calls[c].done| <= |s.sinks|
  }

  function TaskOf(s: State, c: nat): Option<Task>
    requires Active(s, c)
  {
    var call := s.calls[c];
    if |call.done| < |s.sinks| && call.current.Some? && call.current.value < |s.sinks[|call.done|].tasks|
    then Some(s.sinks[|call.done|].tasks[call.current.value]) else None
  }

  predicate Possible(s: State, e: Step) {
    match e
    case Begin(_) => true
    case Visit(c, _) => Active(s, c) && s.calls[c].current == None && |s.calls[c].done| < |s.sinks|
    case Collect(c, caught) =>
      && Active(s, c) && TaskOf(s, c).Some? && TaskOf(s, c).value.pc.Returned?
      // Only what a cancellation or a failed write raises can be more than an ordinary exception.
      && (!caught ==> TaskOf(s, c).value.pc.out == Raised)
    case Finish(c) => Active(s, c) && s.calls[c].current == None && |s.calls[c].done| == |s.sinks|
    case SinkStep(i, event) => i < |s.sinks| && Enabled(s.sinks[i], event)
  }

  function CollectCall(call: Call, out: Outcome, caught: bool): Call
    requires call.current.Some?
  {
    var here := |call.done|;
    if ReturnsNormally(out) then call.(done := call.done + [call.current.value], current := None)
    else if caught then
      call.(done := call.done + [call.current.value], current := None,
            firstError := if call.firstError.None? then Some(here) else call.firstError)
    else call.(end := Some(Stopped(here)))
  }

  function After(s: State, e: Step): State
    requires Possible(s, e)
  {
    match e
    case Begin(x) => s.(calls := s.calls + [Call(x, [], None, None, None)])
    case Visit(c, expired) =>
      var call := s.calls[c];
      var i := |call.done|;
      s.(sinks := s.sinks[i := Next(s.sinks[i], Arrive(call.id, expired))],
         calls := s.calls[c := call.(current := Some(|s.sinks[i].tasks|))])
    case Collect(c, caught) => s.(calls := s.calls[c := CollectCall(s.calls[c], TaskOf(s, c).value.pc.out, caught)])
    case Finish(c) =>
      var call := s.calls[c];
      s.(calls := s.calls[c := call.(end := Some(if call.firstError.Some? then FirstError(call.firstError.value) else NoError))])
    case SinkStep(i, event) => s.(sinks := s.sinks[i := Next(s.sinks[i], event)])
  }

  ghost predicate LegalSteps(s: State, es: seq<Step>)
    decreases es
  {
    es == [] || (Possible(s, es[0]) && LegalSteps(After(s, es[0]), es[1..]))
  }

  ghost function RunSteps(s: State, es: seq<Step>): State
    requires LegalSteps(s, es)
    decreases es
  {
    if es == [] then s else RunSteps(After(s, es[0]), es[1..])
  }

  /* ---------- the invariant ---------- */

  predicate IsDone(sink: Sink, t: nat, x: Id) {
    t < |sink.tasks| && sink.tasks[t].id == x && sink.tasks[t].pc.Returned?
  }

  predicate WentWell(sink: Sink, t: nat) {
    t < |sink.tasks| && sink.tasks[t].pc.Returned? && ReturnsNormally(sink.tasks[t].pc.out)
  }

  /** The call has been through the first sinks in order; `firstError` is the first of them whose emit raised. */
  ghost predicate CallOk(call: Call, sinks: seq<Sink>) {
    && |call.done| <= |sinks|
    && (forall j :: 0 <= j < |call.done| ==> IsDone(sinks[j], call.done[j], call.id))
    && (call.current.Some? ==>
          |call.done| < |sinks| && call.current.value < |sinks[|call.done|].tasks|
          && sinks[|call.done|].tasks[call.current.value].id == call.id)
    && (call.firstError.None? ==> forall j :: 0 <= j < |call.done| ==> WentWell(sinks[j], call.done[j]))
    && (call.firstError.Some? ==>
          && call.firstError.value < |call.done|
          && !WentWell(sinks[call.firstError.value], call.done[call.firstError.value])
          && forall j :: 0 <= j < call.firstError.value ==> WentWell(sinks[j], call.done[j]))
    && EndOk(call, |sinks|)
  }

  predicate EndOk(call: Call, n: nat) {
    match call.end
    case None => true
    case Some(NoError) => |call.done| == n && call.firstError == None
    case Some(FirstError(k)) => |call.done| == n && call.firstError == Some(k)
    case Some(Stopped(k)) => |call.done| == k < n
  }

  ghost predicate SinksOk(sinks: seq<Sink>) {
    forall i :: 0 <= i < |sinks| ==> Inv(sinks[i])
  }

  ghost predicate CallsOk(calls: seq<Call>, sinks: seq<Sink>) {
    forall c :: 0 <= c < |calls| ==> CallOk(calls[c], sinks)
  }

  ghost predicate StateOk(s: State) {
    SinksOk(s.sinks) && CallsOk(s.calls, s.sinks)
  }

  /** Sinks nobody has used yet, and no composite call: runs start here. */
  lemma FreshIsOk(s: State)
    requires s.calls == []
    requires forall i :: 0 <= i < |s.sinks| ==>
               s.sinks[i].cap >= 1 && s.sinks[i] == Init(s.sinks[i].cap, s.sinks[i].serial, s.sinks[i].unserialisable)
    ensures StateOk(s)
  {
    forall i | 0 <= i < |s.sinks| ensures Inv(s.sinks[i]) {
      InitInv(s.sinks[i].cap, s.sinks[i].serial, s.sinks[i].unserialisable);
    }
  }

  /** Tasks keep their place and their id, and one that has come back stays as it is. */
  ghost predicate Extends(before: seq<Task>, after: seq<Task>) {
    && |before| <= |after|
    && forall t :: 0 <= t < |before| ==>
         after[t].id == before[t].id && (before[t].pc.Returned? ==> after[t] == before[t])
  }

  lemma UpdateExtends(tasks: seq<Task>, t: nat, task: Task)
    requires t < |tasks| && !tasks[t].pc.Returned? && task.id == tasks[t].id
    ensures Extends(tasks, tasks[t := task])
  {
  }

  lemma AppendExtends(tasks: seq<Task>, task: Task)
    ensures Extends(tasks, tasks + [task])
  {
  }

  lemma EndWriteExtends(s: Sink, t: nat, result: WriteResult)
    requires Enabled(s, EndWrite(t, result))
    ensures Extends(s.tasks, Next(s, EndWrite(t, result)).tasks)
  {
    hide Extends;
    UpdateExtends(s.tasks, t, Task(s.tasks[t].id, Leaving(s.tasks[t].pc.lock, if result == Landed then Written else Raised)));
  }

  lemma CancelExtends(s: Sink, t: nat)
    requires Enabled(s, Cancel(t))
    ensures Extends(s.tasks, Next(s, Cancel(t)).tasks)
  {
    hide Extends;
    var pc := s.tasks[t].pc;
    UpdateExtends(s.tasks, t, Task(s.tasks[t].id, if pc.Waiting? then Returned(Raised) else Leaving(pc.lock, Raised)));
  }

  lemma FailSerialiseExtends(s: Sink, t: nat)
    requires Enabled(s, FailSerialise(t))
    ensures Extends(s.tasks, Next(s, FailSerialise(t)).tasks)
  {
    hide Extends;
    var task := Task(s.tasks[t].id, Leaving(s.tasks[t].pc.lock, Raised));
    assert Next(s, FailSerialise(t)).tasks == s.tasks[t := task];
    UpdateExtends(s.tasks, t, task);
  }

  lemma PlainExtends(s: Sink, e: Event)
    requires Enabled(s, e) && (e.Acquire? || e.Check? || e.StartWrite? || e.Leave?)
    ensures Extends(s.tasks, Next(s, e).tasks)
  {
    hide Extends;
    UpdateExtends(s.tasks, e.t, Next(s, e).tasks[e.t]);
  }

  lemma NextExtends(s: Sink, e: Event)
    requires Enabled(s, e)
    ensures Extends(s.tasks, Next(s, e).tasks)
  {
    hide Extends, Enabled;
    match e
    case Arrive(x, expired) => AppendExtends(s.tasks, Next(s, e).tasks[|s.tasks|]);
    case FailSerialise(t) => FailSerialiseExtends(s, t);
    case EndWrite(t, result) => EndWriteExtends(s, t, result);
    case Cancel(t) => CancelExtends(s, t);
    case LateWrite(_, _) => NothingExtends(s.tasks);
    case _ => PlainExtends(s, e);
  }

  lemma NothingExtends(tasks: seq<Task>)
    ensures Extends(tasks, tasks)
  {
  }

  lemma CallSurvives(call: Call, sinks: seq<Sink>, i: nat, after: Sink)
    requires CallOk(call, sinks) && i < |sinks| && Extends(sinks[i].tasks, after.tasks)
    ensures CallOk(call, sinks[i := after])
  {
    var now := sinks[i := after];
    forall j | 0 <= j < |call.done|
      ensures IsDone(now[j], call.done[j], call.id) && WentWell(now[j], call.done[j]) == WentWell(sinks[j], call.done[j])
    {
      assert IsDone(sinks[j], call.done[j], call.id);
    }
  }

  lemma SinkStepKeeps(s: State, i: nat, e: Event)
    requires StateOk(s) && i < |s.sinks| && Enabled(s.sinks[i], e)
    ensures SinksOk(s.sinks[i := Next(s.sinks[i], e)]) && CallsOk(s.calls, s.sinks[i := Next(s.sinks[i], e)])
    ensures Extends(s.sinks[i].tasks, Next(s.sinks[i], e).tasks)
  {
    EmitProtocol.StepKeepsInv(s.sinks[i], e);
    NextExtends(s.sinks[i], e);
    hide Inv, Next, Enabled, CallOk, Extends;
    forall c | 0 <= c < |s.calls| ensures CallOk(s.calls[c], s.sinks[i := Next(s.sinks[i], e)]) {
      CallSurvives(s.calls[c], s.sinks, i, Next(s.sinks[i], e));
    }
  }

  lemma VisitKeeps(s: State, c: nat, expired: bool)
    requires StateOk(s) && Possible(s, Visit(c, expired))
    ensures StateOk(After(s, Visit(c, expired)))
  {
    var call := s.calls[c];
    var i := |call.done|;
    var after := Next(s.sinks[i], Arrive(call.id, expired));
    assert |after.tasks| == |s.sinks[i].tasks| + 1 && after.tasks[|s.sinks[i].tasks|].id == call.id;
    hide Inv, Next, CallOk;
    SinkStepKeeps(s, i, Arrive(call.id, expired));
    VisitCallOk(call, s.sinks[i := after], |s.sinks[i].tasks|);
  }

  lemma VisitCallOk(call: Call, sinks: seq<Sink>, t: nat)
    requires CallOk(call, sinks) && call.end == None && |call.done| < |sinks|
    requires t < |sinks[|call.done|].tasks| && sinks[|call.done|].tasks[t].id == call.id
    ensures CallOk(call.(current := Some(t)), sinks)
  {
  }

  lemma CollectKeeps(call: Call, sinks: seq<Sink>, caught: bool)
    requires CallOk(call, sinks) && call.end == None && call.current.Some?
    requires sinks[|call.done|].tasks[call.current.value].pc.Returned?
    ensures CallOk(CollectCall(call, sinks[|call.done|].tasks[call.current.value].pc.out, caught), sinks)
  {
    var i := |call.done|;
    var t := call.current.value;
    var call' := CollectCall(call, sinks[i].tasks[t].pc.out, caught);
    if call'.end == None {
      assert call'.done == call.done + [t] && call'.done[i] == t && IsDone(sinks[i], t, call.id);
      assert forall j :: 0 <= j < i ==> call'.done[j] == call.done[j];
    }
  }

  lemma StepKeepsState(s: State, e: Step)
    requires StateOk(s) && Possible(s, e)
    ensures StateOk(After(s, e))
  {
    hide Inv, Next;
    match e
    case Begin(x) => assert CallOk(Call(x, [], None, None, None), s.sinks);
    case Visit(c, expired) => VisitKeeps(s, c, expired);
    case Collect(c, caught) =>
      assert CallOk(s.calls[c], s.sinks);
      CollectKeeps(s.calls[c], s.sinks, caught);
    case Finish(c) => assert CallOk(s.calls[c], s.sinks);
    case SinkStep(i, event) => SinkStepKeeps(s, i, event);
  }

  lemma {:induction false} RunKeepsState(s: State, es: seq<Step>)
    requires StateOk(s) && LegalSteps(s, es)
    ensures StateOk(RunSteps(s, es))
    decreases es
  {
    if es != [] {
      StepKeepsState(s, es[0]);
      RunKeepsState(After(s, es[0]), es[1..]);
    }
  }

  /* ---------- what callers may rely on ---------- */

  /** A composite call that returned without an error has its signal on record at every sink where it serialises. */
  lemma NoErrorMeansDelivered(s: State, es: seq<Step>, c: nat, i: nat)
    requires StateOk(s) && LegalSteps(s, es)
    requires var s' := RunSteps(s, es); c < |s'.calls| && s'.calls[c].end == Some(NoError) && i < |s'.sinks|
    ensures var s' := RunSteps(s, es);
            && |s'.calls[c].done| == |s'.sinks|
            && (s'.calls[c].id in s'.sinks[i].log || s'.calls[c].id in s'.sinks[i].leaked)
            && (Serialises(s'.sinks[i], s'.calls[c].id) ==> s'.calls[c].id in s'.sinks[i].log)
  {
    RunKeepsState(s, es);
    var s' := RunSteps(s, es);
    assert CallOk(s'.calls[c], s'.sinks);
    assert Inv(s'.sinks[i]);
    assert WentWell(s'.sinks[i], s'.calls[c].done[i]);
    assert ReportsSuccess(s'.sinks[i].tasks[s'.calls[c].done[i]].pc);
  }

  /** A call that came back with an error has been through every sink, and it is the first one that any of them raised. */
  lemma FirstErrorAfterAllSinks(s: State, es: seq<Step>, c: nat, k: nat)
    requires StateOk(s) && LegalSteps(s, es)
    requires var s' := RunSteps(s, es); c < |s'.calls| && s'.calls[c].end == Some(FirstError(k))
    ensures var s' := RunSteps(s, es);
            && |s'.calls[c].done| == |s'.sinks| && k < |s'.sinks|
            && !WentWell(s'.sinks[k], s'.calls[c].done[k])
            && (forall j :: 0 <= j < k ==> WentWell(s'.sinks[j], s'.calls[c].done[j]))
            && (forall j :: 0 <= j < |s'.sinks| ==> IsDone(s'.sinks[j], s'.calls[c].done[j], s'.calls[c].id))
  {
    RunKeepsState(s, es);
    assert CallOk(RunSteps(s, es).calls[c], RunSteps(s, es).sinks);
  }

  lemma EndedStays(s: State, e: Step, c: nat)
    requires Possible(s, e) && c < |s.calls| && s.calls[c].end.Some?
    ensures c < |After(s, e).calls| && After(s, e).calls[c] == s.calls[c] && e != Collect(c, false)
  {
  }

  lemma OneStepStops(s: State, e: Step, c: nat)
    requires Possible(s, e) && c < |After(s, e).calls| && (c < |s.calls| ==> s.calls[c].end == None)
    ensures After(s, e).calls[c].end.Some? && After(s, e).calls[c].end.value.Stopped? <==> e == Collect(c, false)
    ensures c >= |s.calls| ==> After(s, e).calls[c].end == None
  {
  }

  lemma CallsStay(s: State, e: Step)
    requires Possible(s, e)
    ensures |s.calls| <= |After(s, e).calls| <= |s.calls| + 1
  {
  }

  /**
   Per-sink isolation: a call is cut short exactly when something no fan-out catches comes out of a sink's emit. An
   ordinary error never keeps it from the sinks that are still to come.
   */
  lemma {:induction false} OnlyInterruptionsStop(s: State, es: seq<Step>, c: nat)
    requires LegalSteps(s, es) && c < |RunSteps(s, es).calls| && (c < |s.calls| ==> s.calls[c].end == None)
    ensures RunSteps(s, es).calls[c].end.Some? && RunSteps(s, es).calls[c].end.value.Stopped? <==> Collect(c, false) in es
    decreases es
  {
    hide After, Possible;
    if es != [] {
      var s1 := After(s, es[0]);
      CallsStay(s, es[0]);
      if c < |s1.calls| {
        OneStepStops(s, es[0], c);
        if s1.calls[c].end.Some? {
          EndIsFinal(s1, es[1..], c);
        } else {
          OnlyInterruptionsStop(s1, es[1..], c);
        }
      } else {
        NotYetThere(s, es[0], c);
        OnlyInterruptionsStop(s1, es[1..], c);
      }
    }
  }

  lemma NotYetThere(s: State, e: Step, c: nat)
    requires Possible(s, e) && c >= |s.calls|
    ensures e != Collect(c, false)
  {
  }

  lemma {:induction false} EndIsFinal(s: State, es: seq<Step>, c: nat)
    requires LegalSteps(s, es) && c < |s.calls| && s.calls[c].end.Some?
    ensures c < |RunSteps(s, es).calls| && RunSteps(s, es).calls[c] == s.calls[c] && Collect(c, false) !in es
    decreases es
  {
    hide After, Possible;
    if es != [] {
      EndedStays(s, es[0], c);
      EndIsFinal(After(s, es[0]), es[1..], c);
    }
  }

  /** However many composite calls emit one signal at once, each sink gets at most one record nothing else accounts for. */
  lemma AtMostOnePerSink(s: State, es: seq<Step>, i: nat, x: Id)
    requires StateOk(s) && LegalSteps(s, es) && i < |RunSteps(s, es).sinks|
    ensures var sink := RunSteps(s, es).sinks[i];
            x !in sink.evicted && x !in sink.strays ==> sink.log[x] + TasksInFlight(sink.tasks, x) <= 1
  {
    RunKeepsState(s, es);
    assert Inv(RunSteps(s, es).sinks[i]);
  }

  /** No deadlock: while a composite call has not come back, it or the sink it awaits can take a step. */
  lemma CallsGoOn(s: State, c: nat) returns (e: Step)
    requires StateOk(s) && Active(s, c)
    ensures Possible(s, e) && !e.Begin? && (e.SinkStep? ==> OwnStep(e.event))
  {
    var call := s.calls[c];
    assert CallOk(call, s.sinks);
    if call.current == None {
      e := if |call.done| < |s.sinks| then Visit(c, false) else Finish(c);
    } else {
      var i := |call.done|;
      assert Inv(s.sinks[i]);
      if s.sinks[i].tasks[call.current.value].pc.Returned? {
        e := Collect(c, true);
      } else {
        var event := SinkGoesOn(s.sinks[i], call.current.value);
        e := SinkStep(i, event);
      }
    }
  }

  /* ---------- every composite emit comes back ---------- */

  /** How many steps a call itself can still take, eight for each sink to come: the emit there takes up to six more. */
  function CallWork(n: nat): Call -> nat {
    (call: Call) =>
      if call.end.Some? || |call.done| > n then 0
      else 8 * (n - |call.done|) + 1 - if call.current.Some? && |call.done| < n then 7 else 0
  }

  function TotalWork(s: State): nat {
    Sum(s.sinks, Work) + Sum(s.calls, CallWork(|s.sinks|))
  }

  lemma ArriveAdds(s: Sink, x: Id, expired: bool)
    ensures Work(Next(s, Arrive(x, expired))) <= Work(s) + 6
  {
    var task := Next(s, Arrive(x, expired)).tasks[|s.tasks|];
    assert Next(s, Arrive(x, expired)).tasks == s.tasks + [task] && TaskWork(task) <= 6;
    SumAppend(s.tasks, [task], TaskWork);
    SumSingle(task, TaskWork);
  }

  lemma CallLowers(calls: seq<Call>, c: nat, call: Call, n: nat, drop: nat)
    requires c < |calls| && CallWork(n)(call) + drop <= CallWork(n)(calls[c])
    ensures Sum(calls[c := call], CallWork(n)) + drop <= Sum(calls, CallWork(n))
  {
    SumUpdate(calls, c, call, CallWork(n));
  }

  lemma VisitWorks(s: State, c: nat, expired: bool)
    requires Possible(s, Visit(c, expired))
    ensures TotalWork(After(s, Visit(c, expired))) < TotalWork(s)
  {
    var call := s.calls[c];
    var i := |call.done|;
    var after := Next(s.sinks[i], Arrive(call.id, expired));
    ArriveAdds(s.sinks[i], call.id, expired);
    CallLowers(s.calls, c, call.(current := Some(|s.sinks[i].tasks|)), |s.sinks|, 7);
    hide Next, Work, CallWork;
    SumUpdate(s.sinks, i, after, Work);
  }

  lemma CollectWorks(s: State, c: nat, caught: bool)
    requires Possible(s, Collect(c, caught))
    ensures TotalWork(After(s, Collect(c, caught))) < TotalWork(s)
  {
    CallLowers(s.calls, c, CollectCall(s.calls[c], TaskOf(s, c).value.pc.out, caught), |s.sinks|, 1);
  }

  /** A step that is not the beginning of an emit brings the whole closer to its end. */
  predicate GoesOn(e: Step) {
    !e.Begin? && (e.SinkStep? ==> !e.event.Arrive?)
  }

  lemma StepWorksAll(s: State, e: Step)
    requires Possible(s, e) && GoesOn(e)
    ensures TotalWork(After(s, e)) < TotalWork(s)
  {
    match e
    case Visit(c, expired) => VisitWorks(s, c, expired);
    case Collect(c, caught) => CollectWorks(s, c, caught);
    case Finish(c) => CallLowers(s.calls, c, After(s, e).calls[c], |s.sinks|, 1);
    case SinkStep(i, event) =>
      EmitGuarantees.StepWorks(s.sinks[i], event);
      hide Next, Work, CallWork;
      SumUpdate(s.sinks, i, Next(s.sinks[i], event), Work);
  }

  /** Once emits stop beginning, only boundedly many steps remain, in any schedule. */
  lemma {:induction false} StepsAreBounded(s: State, es: seq<Step>)
    requires LegalSteps(s, es) && forall i :: 0 <= i < |es| ==> GoesOn(es[i])
    ensures |es| + TotalWork(RunSteps(s, es)) <= TotalWork(s)
    decreases es
  {
    if es != [] {
      hide After, Possible, TotalWork;
      StepWorksAll(s, es[0]);
      StepsAreBounded(After(s, es[0]), es[1..]);
    }
  }
}
