/** The double-checked creation of the metric instruments, over all interleavings of any number of threads. */
module MetricsLatch {
  import opened Common

  /** Instruments objects are numbered in the order they are built. */
  datatype Thread =
    | Called
    | Missed                     // read an empty slot without the lock
    | Locked                     // holds the lock
    | Building                   // read the slot again under the lock, still empty
    | Built(instruments: nat)    // created, not stored yet
    | Returned(instruments: nat)
    | Failed                     // creation raised

  datatype State = State(threads: seq<Thread>, slot: Option<nat>, owner: Option<nat>, built: nat)

  datatype Event = Call | Read(t: nat) | Acquire(t: nat) | Recheck(t: nat) | Create(t: nat, ok: bool) | Store(t: nat)

  function Init(): State {
    State([], None, None, 0)
  }

  predicate Enabled(s: State, e: Event) {
    match e
    case Call => true
    case Read(t) => t < |s.threads| && s.threads[t] == Called
    case Acquire(t) => t < |s.threads| && s.threads[t] == Missed && s.owner == None
    case Recheck(t) => t < |s.threads| && s.threads[t] == Locked
    case Create(t, _) => t < |s.threads| && s.threads[t] == Building
    case Store(t) => t < |s.threads| && s.threads[t].Built?
  }

  function Next(s: State, e: Event): State
    requires Enabled(s, e)
  {
    match e
    case Call => s.(threads := s.threads + [Called])
    case Read(t) => s.(threads := s.threads[t := if s.slot.Some? then Returned(s.slot.value) else Missed])
    case Acquire(t) => s.(threads := s.threads[t := Locked], owner := Some(t))
    case Recheck(t) =>
      if s.slot.Some? then s.(threads := s.threads[t := Returned(s.slot.value)], owner := None)
      else s.(threads := s.threads[t := Building])
    case Create(t, ok) =>
      if ok then s.(threads := s.threads[t := Built(s.built)], built := s.built + 1)
      else s.(threads := s.threads[t := Failed], owner := None)
    case Store(t) =>
      var made := s.threads[t].instruments;
      s.(threads := s.threads[t := Returned(made)], slot := Some(made), owner := None)
  }

  ghost predicate Legal(s: State, es: seq<Event>)
    decreases es
  {
    es == [] || (Enabled(s, es[0]) && Legal(Next(s, es[0]), es[1..]))
  }

  ghost function Run(s: State, es: seq<Event>): State
    requires Legal(s, es)
    decreases es
  {
    if es == [] then s else Run(Next(s, es[0]), es[1..])
  }

  predicate HoldsLock(thread: Thread) {
    thread == Locked || thread == Building || thread.Built?
  }

  /** Only the lock's owner is between the second check and the store; what is built is stored or about to be. */
  ghost predicate Inv(s: State) {
    && (forall t :: 0 <= t < |s.threads| && HoldsLock(s.threads[t]) ==> s.owner == Some(t))
    && (s.owner.Some? ==> s.owner.value < |s.threads| && HoldsLock(s.threads[s.owner.value]))
    && (forall t :: 0 <= t < |s.threads| && s.threads[t] == Building ==> s.slot == None && s.built == 0)
    && (forall t :: 0 <= t < |s.threads| && s.threads[t].Built? ==> s.slot == None && s.threads[t].instruments == 0 && s.built == 1)
    && (forall t :: 0 <= t < |s.threads| && s.threads[t].Returned? ==> s.slot == Some(s.threads[t].instruments))
    && (s.slot.Some? ==> s.slot.value == 0 && s.built == 1)
    && (s.slot.None? ==> s.built == 0 || (s.owner.Some? && s.owner.value < |s.threads| && s.threads[s.owner.value].Built?))
  }

  lemma StepKeepsInv(s: State, e: Event)
    requires Inv(s) && Enabled(s, e)
    ensures Inv(Next(s, e))
  {
  }

  lemma {:induction false} RunKeepsInv(s: State, es: seq<Event>)
    requires Inv(s) && Legal(s, es)
    ensures Inv(Run(s, es))
    decreases es
  {
    if es != [] {
      StepKeepsInv(s, es[0]);
      RunKeepsInv(Next(s, es[0]), es[1..]);
    }
  }

  /** At most one instruments object is ever built, and every caller that returns gets that one. */
  lemma OneInstrumentsForAll(es: seq<Event>, t: nat, u: nat)
    requires Legal(Init(), es)
    ensures var s := Run(Init(), es);
            && s.built <= 1
            && (t < |s.threads| && s.threads[t].Returned? ==> s.built == 1 && s.slot == Some(s.threads[t].instruments))
            && (t < |s.threads| && u < |s.threads| && s.threads[t].Returned? && s.threads[u].Returned? ==>
                s.threads[t] == s.threads[u])
  {
    RunKeepsInv(Init(), es);
  }

  /** Once the instruments are stored, a call gets them with its first read, whoever holds the lock. */
  lemma LaterCallsDoNotWait(s: State, t: nat)
    requires Inv(s) && t < |s.threads| && s.threads[t] == Called && s.slot.Some?
    ensures Enabled(s, Read(t))
    ensures Next(s, Read(t)) == s.(threads := s.threads[t := Returned(0)])
  {
  }

  lemma OtherwiseReturns(s: State, e: Event, t: nat)
    requires Enabled(s, e) && t < |Next(s, e).threads|
    ensures t < |s.threads| && s.threads[t] == Failed ==> Next(s, e).threads[t] == Failed && e != Create(t, false)
    ensures !(t < |s.threads| && s.threads[t] == Failed) ==> (Next(s, e).threads[t] == Failed <==> e == Create(t, false))
    ensures t >= |s.threads| ==> e == Call
    ensures |s.threads| <= |Next(s, e).threads|
  {
  }

  lemma BeforeItsCall(s: State, e: Event, t: nat)
    requires Enabled(s, e) && t >= |s.threads|
    ensures e != Create(t, false)
  {
  }

  lemma {:induction false} FailedEarlier(s: State, es: seq<Event>, t: nat)
    requires Legal(s, es) && t < |s.threads| && s.threads[t] == Failed
    ensures t < |Run(s, es).threads| && Run(s, es).threads[t] == Failed && Create(t, false) !in es
    decreases es
  {
    if es != [] {
      OtherwiseReturns(s, es[0], t);
      FailedEarlier(Next(s, es[0]), es[1..], t);
    }
  }

  /** A call fails exactly when building the instruments failed in that very call; no other call's failure reaches it. */
  lemma {:induction false} FailsOnItsOwn(s: State, es: seq<Event>, t: nat)
    requires Legal(s, es) && t < |Run(s, es).threads| && !(t < |s.threads| && s.threads[t] == Failed)
    ensures Run(s, es).threads[t] == Failed <==> Create(t, false) in es
    decreases es
  {
    hide Next, Enabled;
    if es != [] {
      var s1 := Next(s, es[0]);
      if t < |s1.threads| {
        OtherwiseReturns(s, es[0], t);
        if s1.threads[t] == Failed {
          FailedEarlier(s1, es[1..], t);
        } else {
          FailsOnItsOwn(s1, es[1..], t);
        }
      } else {
        Grows(s, es[0]);
        BeforeItsCall(s, es[0], t);
        FailsOnItsOwn(s1, es[1..], t);
      }
    }
  }

  lemma Grows(s: State, e: Event)
    requires Enabled(s, e)
    ensures |s.threads| <= |Next(s, e).threads|
  {
  }

  /* ---------- every call comes back ---------- */

  /** How many steps a call can still take. */
  function ThreadWork(thread: Thread): nat {
    match thread
    case Called => 5
    case Missed => 4
    case Locked => 3
    case Building => 2
    case Built(_) => 1
    case _ => 0
  }

  /** Every step of a call brings it closer to its end. */
  lemma StepWorks(s: State, e: Event)
    requires Enabled(s, e) && !e.Call?
    ensures Sum(Next(s, e).threads, ThreadWork) < Sum(s.threads, ThreadWork)
  {
    var thread := Next(s, e).threads[e.t];
    assert Next(s, e).threads == s.threads[e.t := thread] && ThreadWork(thread) < ThreadWork(s.threads[e.t]);
    hide Next, Enabled, ThreadWork;
    SumUpdate(s.threads, e.t, thread, ThreadWork);
  }

  /** Once calls stop coming, at most five events remain for each, in any schedule. */
  lemma {:induction false} RunsAreBounded(s: State, es: seq<Event>)
    requires Legal(s, es) && forall i :: 0 <= i < |es| ==> !es[i].Call?
    ensures |es| + Sum(Run(s, es).threads, ThreadWork) <= Sum(s.threads, ThreadWork)
    decreases es
  {
    if es != [] {
      hide Next, Enabled, ThreadWork;
      StepWorks(s, es[0]);
      RunsAreBounded(Next(s, es[0]), es[1..]);
    }
  }

  /** While a call has not ended, it or the lock's holder can take a step: no ended thread ever holds the lock. */
  lemma NoDeadlock(es: seq<Event>, t: nat) returns (e: Event)
    requires Legal(Init(), es) && t < |Run(Init(), es).threads|
    requires !Run(Init(), es).threads[t].Returned? && !Run(Init(), es).threads[t].Failed?
    ensures Enabled(Run(Init(), es), e) && !e.Call?
  {
    RunKeepsInv(Init(), es);
    var s := Run(Init(), es);
    var u := if s.threads[t] == Missed && s.owner.Some? then s.owner.value else t;
    e := match s.threads[u]
         case Called => Read(u)
         case Missed => Acquire(u)
         case Locked => Recheck(u)
         case Building => Create(u, true)
         case Built(_) => Store(u)
         case _ => Call;
  }
}
