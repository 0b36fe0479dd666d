/** The account of a run's records in terms of its events alone: writes that landed, evictions, strays and leaks. */
module EmitHistory {
  import opened Common
  import opened ReplayGuards
  import opened EmitProtocol
  import opened EmitGuarantees

  /** The event leaves a record of `x` at the destination. */
  predicate Lands(s: Sink, e: Event, x: Id)
    requires Enabled(s, e)
  {
    match e
    case EndWrite(t, result) => s.tasks[t].id == x && (result == Landed || result == FailedLanded)
    case LateWrite(y, lands) => y == x && lands
    case _ => false
  }

  /** It does, although the write has not reported success. */
  predicate LandsAstray(s: Sink, e: Event, x: Id)
    requires Enabled(s, e)
  {
    match e
    case EndWrite(t, result) => s.tasks[t].id == x && result == FailedLanded
    case LateWrite(y, lands) => y == x && lands
    case _ => false
  }

  predicate Leaks(s: Sink, e: Event, x: Id)
    requires Enabled(s, e)
  {
    match e
    case FailSerialise(t) => s.tasks[t].id == x
    case _ => false
  }

  /** `x` is gone from the window after another id was reserved. */
  predicate Evicts(s: Sink, e: Event, x: Id)
    requires Enabled(s, e)
  {
    match e
    case Check(t) => x in s.window && x !in Next(s, e).window
    case FailSerialise(t) => x in s.window && x !in Next(s, e).window
    case _ => false
  }

  /** A write of `x` is given up when its reservation has been evicted already. */
  predicate GivesUpEvicted(s: Sink, e: Event, x: Id)
    requires Enabled(s, e)
  {
    match e
    case EndWrite(t, result) => s.tasks[t].id == x && result != Landed && x !in s.window
    case Cancel(t) => s.tasks[t].id == x && (s.tasks[t].pc.Reserved? || s.tasks[t].pc.Writing?) && x !in s.window
    case _ => false
  }

  /** A write of `x` is cancelled while it runs, and may still land later. */
  predicate Abandons(s: Sink, e: Event, x: Id)
    requires Enabled(s, e)
  {
    match e
    case Cancel(t) => s.tasks[t].id == x && s.tasks[t].pc.Writing?
    case _ => false
  }

  /** An abandoned write of `x` ends, with a record or without. */
  predicate Settles(e: Event, x: Id) {
    match e
    case LateWrite(y, _) => y == x
    case _ => false
  }

  function One(b: bool): nat {
    if b then 1 else 0
  }

  datatype Tally = Tally(landed: nat, astray: nat, leaks: nat, evictions: nat, givenUp: nat,
                         abandoned: nat, settled: nat)

  /** What the events of a run did to `x`, counted. */
  ghost function Count(s: Sink, es: seq<Event>, x: Id): Tally
    requires Legal(s, es)
    decreases es
  {
    if es == [] then Tally(0, 0, 0, 0, 0, 0, 0)
    else
      var e, rest := es[0], Count(Next(s, es[0]), es[1..], x);
      Tally(rest.landed + One(Lands(s, e, x)), rest.astray + One(LandsAstray(s, e, x)), rest.leaks + One(Leaks(s, e, x)),
            rest.evictions + One(Evicts(s, e, x)), rest.givenUp + One(GivesUpEvicted(s, e, x)),
            rest.abandoned + One(Abandons(s, e, x)), rest.settled + One(Settles(e, x)))
  }

  /** Only the end of a write touches the destination, and only a cancellation or such an end what may still land. */
  lemma OthersWriteNothing(s: Sink, e: Event)
    requires Enabled(s, e)
    ensures !e.EndWrite? && !e.LateWrite? ==> Next(s, e).log == s.log && Next(s, e).strays == s.strays
    ensures !e.Cancel? && !e.LateWrite? ==> Next(s, e).late == s.late
    ensures !e.Cancel? && !e.EndWrite? ==> Next(s, e).lost == s.lost
    ensures !e.FailSerialise? ==> Next(s, e).leaked == s.leaked
  {
  }

  lemma LogAfter(s: Sink, e: Event, x: Id)
    requires Enabled(s, e)
    ensures Next(s, e).log[x] == s.log[x] + One(Lands(s, e, x))
  {
    if !e.EndWrite? && !e.LateWrite? {
      OthersWriteNothing(s, e);
      hide Next, Enabled;
    }
  }

  lemma StraysAfter(s: Sink, e: Event, x: Id)
    requires Enabled(s, e)
    ensures Next(s, e).strays[x] == s.strays[x] + One(LandsAstray(s, e, x))
  {
    if !e.EndWrite? && !e.LateWrite? {
      OthersWriteNothing(s, e);
      hide Next, Enabled;
    }
  }

  lemma LeakedAfter(s: Sink, e: Event, x: Id)
    requires Enabled(s, e)
    ensures Next(s, e).leaked[x] == s.leaked[x] + One(Leaks(s, e, x))
  {
    if !e.FailSerialise? {
      OthersWriteNothing(s, e);
      hide Next, Enabled;
    }
  }

  lemma LostAfter(s: Sink, e: Event, x: Id)
    requires Enabled(s, e)
    ensures Next(s, e).lost[x] == s.lost[x] + One(GivesUpEvicted(s, e, x))
  {
    if !e.Cancel? && !e.EndWrite? {
      OthersWriteNothing(s, e);
      hide Next, Enabled;
    }
  }

  lemma LateAfter(s: Sink, e: Event, x: Id)
    requires Enabled(s, e)
    ensures Next(s, e).late[x] + One(Settles(e, x)) == s.late[x] + One(Abandons(s, e, x))
  {
    if !e.Cancel? && !e.LateWrite? {
      OthersWriteNothing(s, e);
      hide Next, Enabled;
    }
  }

  lemma EvictedAfterEvent(s: Sink, e: Event, x: Id)
    requires Enabled(s, e) && WindowOk(s.window, s.cap)
    ensures Next(s, e).evicted[x] == s.evicted[x] + One(Evicts(s, e, x))
  {
    if e.Check? || e.FailSerialise? {
      var y := s.tasks[e.t].id;
      ReserveMembers(s.window, s.cap, y);
    }
  }

  /** The sink's records and its history are what the events made them, from any sound state on. */
  lemma {:induction false} HistoryIsTheEvents(s: Sink, es: seq<Event>, x: Id)
    requires Inv(s) && Legal(s, es)
    ensures var s', tally := Run(s, es), Count(s, es, x);
            && s'.log[x] == s.log[x] + tally.landed
            && s'.strays[x] == s.strays[x] + tally.astray
            && s'.leaked[x] == s.leaked[x] + tally.leaks
            && s'.evicted[x] == s.evicted[x] + tally.evictions
            && s'.lost[x] == s.lost[x] + tally.givenUp
            && s'.late[x] + tally.settled == s.late[x] + tally.abandoned
    decreases es
  {
    if es != [] {
      assert WindowOk(s.window, s.cap);
      StepKeepsInv(s, es[0]);
      LogAfter(s, es[0], x);
      StraysAfter(s, es[0], x);
      LeakedAfter(s, es[0], x);
      LostAfter(s, es[0], x);
      LateAfter(s, es[0], x);
      EvictedAfterEvent(s, es[0], x);
      hide Inv, Next, Enabled, Lands, LandsAstray, Leaks, GivesUpEvicted, Evicts, Abandons, Settles;
      HistoryIsTheEvents(Next(s, es[0]), es[1..], x);
    }
  }

  /**
   One id in a whole run of a fresh sink: the writes of it that landed are paid for, one each, by its place in the
   window, by an eviction, or by a write that landed without reporting success. If none of the latter two ever happened
   there is at most one record, however many tasks emitted the id at once.
   */
  lemma RecordsByEvents(cap: nat, serial: bool, unserialisable: set<Id>, es: seq<Event>, x: Id)
    requires 1 <= cap && Legal(Init(cap, serial, unserialisable), es)
    ensures var s, tally := Run(Init(cap, serial, unserialisable), es), Count(Init(cap, serial, unserialisable), es, x);
            && s.log[x] == tally.landed
            && tally.landed + TasksInFlight(s.tasks, x) + tally.givenUp + tally.leaks
               == tally.evictions + tally.astray + (if x in s.window then 1 else 0)
            && (tally.evictions == 0 && tally.astray == 0 ==> s.log[x] + TasksInFlight(s.tasks, x) <= 1)
            && (Enabled(s, LateWrite(x, true)) <==> tally.settled < tally.abandoned)
  {
    hide Inv, Run, Legal, Next, Enabled, Count, Init;
    var s := Init(cap, serial, unserialisable);
    NothingYet(cap, serial, unserialisable, x);
    InitInv(cap, serial, unserialisable);
    HistoryIsTheEvents(s, es, x);
    RunKeepsInv(s, es);
    BalanceOf(Run(s, es), x);
  }

  lemma NothingYet(cap: nat, serial: bool, unserialisable: set<Id>, x: Id)
    ensures var s := Init(cap, serial, unserialisable);
            s.log[x] == s.strays[x] == s.leaked[x] == s.evicted[x] == s.lost[x] == s.late[x] == 0
  {
  }

  lemma BalanceOf(s: Sink, x: Id)
    requires Inv(s)
    ensures s.log[x] + TasksInFlight(s.tasks, x) + s.lost[x] + s.leaked[x] == s.evicted[x] + s.strays[x] + Remembered(s.window, x)
    ensures Enabled(s, LateWrite(x, true)) <==> s.late[x] > 0
  {
    hide WindowOk, TableOk, OwnersOk, FileOk, RecordsOk, LeaksOk;
  }
}
