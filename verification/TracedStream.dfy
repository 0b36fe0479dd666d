/**
 The span-scoped stream wrapper: an async generator that makes its span current only while it awaits the inner
 stream. Each program counter is a place in the source's nested try, except and finally blocks; an event is one
 step of the generator, an answer of something it awaits, or its consumer. Exceptions and cancellation can come
 back from either await and be thrown in at a yield.
 */
module TracedStreams {
  import opened Common

  /** An ambient telemetry context; `UnderSpan` is the one the span makes current. */
  datatype Context = Consumer(id: nat) | UnderSpan(parent: Context)

  /** `Fatal` is an exception that is not an ordinary one, and neither a close nor a cancellation. */
  datatype Exception = GeneratorExit | Cancelled | Ordinary(what: string) | Fatal(what: string)

  /** What an `await` of the inner stream's next chunk ends in. */
  datatype Pull = Chunk(text: string) | Exhausted | Fails(e: Exception)

  datatype Pc =
    | Unstarted
    | Top                              // in the loop, before attaching
    | Awaiting                         // attached, awaiting the next chunk
    | Detaching(pull: Pull)            // the inner `finally`
    | Yielding(text: string)           // detached with a chunk in hand
    | Suspended                        // at the yield
    | Handling(e: Exception)           // the `except` clauses
    | Finalizing                       // the outer `finally`, before looking for `aclose`
    | Closing                          // awaiting `aclose`
    | Ending                           // about to end the span
    | Done

  datatype State = State(
    pc: Pc,
    closable: bool,                    // whether the inner stream has an `aclose`; never changes
    current: Context,                  // the ambient context
    tokens: seq<Context>,              // what attaching has saved and detaching has not restored yet
    pending: Option<Exception>,        // the exception on its way out, if any
    started: nat,                      // how often the span has been started and ended
    ended: nat,
    errors: nat,                       // how often it was given an error status
    recorded: seq<Exception>,
    closes: nat,                       // how often `aclose` was called
    // History, used to state what happened; no step depends on it.
    home: Context,                     // the consumer's context when it last resumed the generator
    pulls: seq<Pull>,                  // what the awaited pulls ended in
    yielded: seq<string>,              // chunks the consumer got
    thrown: Option<Exception>,         // what the consumer threw in
    requests: nat)                     // how often the consumer asked for a chunk

  datatype Event =
    | Resume(ambient: Context)                     // the consumer asks for a chunk
    | ThrowIn(ambient: Context, e: Exception)      // the consumer closes it, or throws in at the yield
    | Step                                         // the generator goes on by itself
    | Answer(pull: Pull, left: Context)            // the awaited pull ends, leaving any context current
    | Closed(outcome: Option<Exception>)           // the awaited close ends, with an exception or without

  function Init(closable: bool, current: Context): State {
    State(Unstarted, closable, current, [], None, 0, 0, 0, [], 0, current, [], [], None, 0)
  }

  predicate Enabled(s: State, e: Event) {
    match e
    case Resume(_) => s.pc == Unstarted || s.pc == Suspended
    case ThrowIn(_, _) => s.pc == Suspended
    case Step => s.pc == Top || s.pc.Detaching? || s.pc.Yielding? || s.pc.Handling? || s.pc == Finalizing || s.pc == Ending
    case Answer(_, _) => s.pc == Awaiting
    case Closed(_) => s.pc == Closing
  }

  predicate IsError(e: Exception) {
    e.Ordinary? || e.Fatal?
  }

  function Next(s: State, e: Event): State
    requires Enabled(s, e)
  {
    match e
    case Resume(ambient) =>
      s.(pc := Top, current := ambient, home := ambient, requests := s.requests + 1,
         started := if s.pc == Unstarted then s.started + 1 else s.started)
    case ThrowIn(ambient, ex) =>
      s.(pc := Handling(ex), current := ambient, home := ambient, thrown := Some(ex))
    case Step => Go(s)
    case Answer(pull, left) =>
      s.(pc := Detaching(pull), current := left, pulls := s.pulls + [pull])
    case Closed(outcome) =>
      // An ordinary exception is logged and dropped; any other replaces what was on its way.
      s.(pc := Ending, pending := if outcome.Some? && !outcome.value.Ordinary? then outcome else s.pending)
  }

  /** One step of the generator itself. */
  function Go(s: State): State
    requires Enabled(s, Step)
  {
    match s.pc
    case Top => s.(pc := Awaiting, tokens := s.tokens + [s.current], current := UnderSpan(s.current))
    case Detaching(pull) => Detach(s, pull)
    case Yielding(text) => s.(pc := Suspended, yielded := s.yielded + [text])
    case Handling(ex) =>
      var reraised := s.(pc := Finalizing, pending := Some(ex));
      if IsError(ex) then reraised.(errors := s.errors + 1, recorded := s.recorded + [ex]) else reraised
    case Finalizing => if s.closable then s.(pc := Closing, closes := s.closes + 1) else s.(pc := Ending)
    case _ => s.(pc := Done, ended := s.ended + 1)
  }

  /** The inner `finally` restores the context, then control goes where the pull sends it. */
  function Detach(s: State, pull: Pull): State {
    var restored := if s.tokens == [] then s
                    else s.(current := s.tokens[|s.tokens| - 1], tokens := s.tokens[..|s.tokens| - 1]);
    match pull
    case Chunk(text) => restored.(pc := Yielding(text))
    case Exhausted => restored.(pc := Finalizing)
    case Fails(e) => restored.(pc := Handling(e))
  }

  ghost predicate Legal(s: State, es: seq<Event>)
    decreases es
  {
    es == [] || (Enabled(s, es[0]) && Legal(Next(s, es[0]), es[1..]))
  }

  ghost function Run(s: State, es: seq<Event>): State
    requires Legal(s, es)
    decreases es
  {
    if es == [] then s else Run(Next(s, es[0]), es[1..])
  }

  /* ---------- the invariant ---------- */

  predicate Attached(pc: Pc) {
    pc == Awaiting || pc.Detaching?
  }

  /** While attached exactly one token is out, and it holds the consumer's context; otherwise that is current itself. */
  predicate ContextOk(s: State) {
    && s.tokens == (if Attached(s.pc) then [s.home] else [])
    && (s.pc == Awaiting ==> s.current == UnderSpan(s.home))
    && (!Attached(s.pc) ==> s.current == s.home)
  }

  /** The span is started with the first chunk asked for and ended last of all; the close comes before that, once. */
  predicate SpanOk(s: State) {
    && s.started == (if s.pc == Unstarted then 0 else 1)
    && s.ended == (if s.pc == Done then 1 else 0)
    && s.closes == (if s.closable && (s.pc == Closing || s.pc == Ending || s.pc == Done) then 1 else 0)
    && (s.pc == Closing ==> s.closable)
  }

  /** What was raised while streaming, if anything: thrown in, or by the last pull. */
  function Raised(thrown: Option<Exception>, pulls: seq<Pull>): Option<Exception> {
    if thrown.Some? then thrown
    else if pulls != [] && pulls[|pulls| - 1].Fails? then Some(pulls[|pulls| - 1].e)
    else None
  }

  /** The place in the source is behind the loop. */
  predicate BehindLoop(pc: Pc) {
    pc.Handling? || pc == Finalizing || pc == Closing || pc == Ending || pc == Done
  }

  /** Once the handler has been left, an error has been recorded exactly if one was raised. */
  predicate ErrorsOk(s: State) {
    var raised := Raised(s.thrown, s.pulls);
    var handled := BehindLoop(s.pc) && !s.pc.Handling?;
    && s.recorded == (if handled && raised.Some? && IsError(raised.value) then [raised.value] else [])
    && s.errors == |s.recorded|
    && (!handled ==> s.pending == None)
    && (s.pc == Finalizing || s.pc == Closing ==> s.pending == raised)
    && (s.pc.Handling? ==> raised == Some(s.pc.e))
    && (s.pc == Ending || s.pc == Done ==>
          s.pending == raised || (s.closable && s.pending.Some? && !s.pending.value.Ordinary?))
  }

  predicate AllChunks(pulls: seq<Pull>) {
    forall i :: 0 <= i < |pulls| ==> pulls[i].Chunk?
  }

  /** Chunks, and then one pull that ends the stream. */
  predicate ChunksThenEnd(pulls: seq<Pull>) {
    pulls != [] && AllChunks(pulls[..|pulls| - 1]) && !pulls[|pulls| - 1].Chunk?
  }

  /**
   The loop is left for one of two reasons only: the consumer threw something in at a yield, or the last pull was no
   chunk. Every request but the one being served has been answered by a pull.
   */
  predicate PullsOk(s: State) {
    && |s.pulls| + (if s.pc == Top || s.pc == Awaiting then 1 else 0) == s.requests
    && (s.pc == Unstarted ==> s.pulls == [])
    && (if s.pc.Detaching? then
          s.thrown == None && s.pulls != [] && s.pulls[|s.pulls| - 1] == s.pc.pull && AllChunks(s.pulls[..|s.pulls| - 1])
        else if BehindLoop(s.pc) then (if s.thrown.Some? then AllChunks(s.pulls) else ChunksThenEnd(s.pulls))
        else s.thrown == None && AllChunks(s.pulls))
  }

  /** The texts of the chunks among the pulls, in order. */
  function Texts(pulls: seq<Pull>): seq<string> {
    if pulls == [] then []
    else Texts(pulls[..|pulls| - 1])
         + match pulls[|pulls| - 1]
           case Chunk(text) => [text]
           case _ => []
  }

  /** The consumer has got every chunk the inner stream gave, in order, but the one in hand. */
  predicate ChunksOk(s: State) {
    Texts(s.pulls) == match s.pc
                      case Detaching(Chunk(text)) => s.yielded + [text]
                      case Yielding(text) => s.yielded + [text]
                      case _ => s.yielded
  }

  predicate Inv(s: State) {
    ContextOk(s) && SpanOk(s) && ErrorsOk(s) && PullsOk(s) && ChunksOk(s)
  }

  lemma ContextKept(s: State, e: Event)
    requires ContextOk(s) && Enabled(s, e)
    ensures ContextOk(Next(s, e))
  {
  }

  lemma SpanKept(s: State, e: Event)
    requires SpanOk(s) && Enabled(s, e)
    ensures SpanOk(Next(s, e))
  {
  }

  lemma ErrorsKept(s: State, e: Event)
    requires ErrorsOk(s) && PullsOk(s) && SpanOk(s) && Enabled(s, e)
    ensures ErrorsOk(Next(s, e))
  {
  }

  lemma PullsKept(s: State, e: Event)
    requires PullsOk(s) && Enabled(s, e)
    ensures PullsOk(Next(s, e))
  {
    if e.Answer? {
      assert (s.pulls + [e.pull])[..|s.pulls|] == s.pulls;
    } else if s.pc.Detaching? {
      DetachedPulls(s.pulls, s.pc.pull);
    }
    hide AllChunks;
  }

  lemma DetachedPulls(pulls: seq<Pull>, pull: Pull)
    requires pulls != [] && pulls[|pulls| - 1] == pull && AllChunks(pulls[..|pulls| - 1])
    ensures if pull.Chunk? then AllChunks(pulls) else ChunksThenEnd(pulls)
  {
    assert pulls == pulls[..|pulls| - 1] + [pull];
  }

  lemma ChunksKept(s: State, e: Event)
    requires ChunksOk(s) && Enabled(s, e)
    ensures ChunksOk(Next(s, e))
  {
    if e.Answer? {
      assert (s.pulls + [e.pull])[..|s.pulls|] == s.pulls;
    }
  }

  lemma StepKeepsInv(s: State, e: Event)
    requires Inv(s) && Enabled(s, e)
    ensures Inv(Next(s, e))
  {
    hide ContextOk, SpanOk, ErrorsOk, PullsOk, ChunksOk, Next, Enabled;
    ContextKept(s, e);
    SpanKept(s, e);
    ErrorsKept(s, e);
    PullsKept(s, e);
    ChunksKept(s, e);
  }

  lemma {:induction false} RunKeepsInv(s: State, es: seq<Event>)
    requires Inv(s) && Legal(s, es)
    ensures Inv(Run(s, es)) && Run(s, es).closable == s.closable
    decreases es
  {
    hide Inv, Enabled;
    if es != [] {
      StepKeepsInv(s, es[0]);
      OneMoreEvent(s, es[0]);
      hide Next;
      RunKeepsInv(Next(s, es[0]), es[1..]);
    }
  }

  /* ---------- what every run guarantees ---------- */

  /**
   The span never leaks into the consumer: whenever the generator is not running, suspended at a yield or over, the
   ambient context is the one its consumer resumed it with, and nothing attached is left to restore. The inner stream
   is always awaited under the span, on top of that context.
   */
  lemma ContextIsTheConsumers(closable: bool, current: Context, es: seq<Event>)
    requires Legal(Init(closable, current), es)
    ensures var s := Run(Init(closable, current), es);
            && (s.pc == Suspended || s.pc == Done ==> s.current == s.home && s.tokens == [])
            && (s.pc == Awaiting ==> s.current == UnderSpan(s.home) && s.tokens == [s.home])
  {
    RunKeepsInv(Init(closable, current), es);
  }

  /**
   A started span ends exactly once, when the stream is over however it went, and never while it goes on; by then the
   inner stream has been closed, exactly once, if it can be closed at all.
   */
  lemma SpanEndsOnce(closable: bool, current: Context, es: seq<Event>)
    requires Legal(Init(closable, current), es)
    ensures var s := Run(Init(closable, current), es);
            && s.started <= 1 && s.ended <= s.started
            && (s.pc == Done <==> s.ended == 1)
            && (s.ended == 1 ==> s.closes == if closable then 1 else 0)
            && s.closes <= 1
  {
    RunKeepsInv(Init(closable, current), es);
  }

  /* ---------- when a stream ends ---------- */

  /** What the pulls of a run ended in, in order. */
  function Answers(es: seq<Event>): seq<Pull> {
    if es == [] then [] else (if es[0].Answer? then [es[0].pull] else []) + Answers(es[1..])
  }

  function Requests(es: seq<Event>): nat {
    if es == [] then 0 else (if es[0].Resume? then 1 else 0) + Requests(es[1..])
  }

  /** What the consumer threw in, if anything. */
  function ThrownIn(es: seq<Event>): Option<Exception> {
    if es == [] then None
    else if ThrownIn(es[1..]).Some? then ThrownIn(es[1..])
    else if es[0].ThrowIn? then Some(es[0].e)
    else None
  }

  lemma {:induction false} HistoryIsTheRun(s: State, es: seq<Event>)
    requires Legal(s, es)
    ensures Run(s, es).pulls == s.pulls + Answers(es)
    ensures Run(s, es).requests == s.requests + Requests(es)
    ensures Run(s, es).thrown == if ThrownIn(es).Some? then ThrownIn(es) else s.thrown
    decreases es
  {
    if es != [] {
      HistoryIsTheRun(Next(s, es[0]), es[1..]);
      OneMoreEvent(s, es[0]);
      hide Next, Enabled;
      assert s.pulls + Answers(es) == (s.pulls + (if es[0].Answer? then [es[0].pull] else [])) + Answers(es[1..]);
    }
  }

  lemma OneMoreEvent(s: State, e: Event)
    requires Enabled(s, e)
    ensures Next(s, e).pulls == s.pulls + (if e.Answer? then [e.pull] else [])
    ensures Next(s, e).requests == s.requests + (if e.Resume? then 1 else 0)
    ensures Next(s, e).thrown == if e.ThrowIn? then Some(e.e) else s.thrown
    ensures Next(s, e).closable == s.closable
  {
  }

  /**
   The generator leaves its loop exactly when the consumer has thrown something in or the inner stream has ended,
   normally or by failing, and so no stream is over before. Without a throw every answer before the last was a chunk.
   */
  lemma EndsExactlyWhenOver(closable: bool, current: Context, es: seq<Event>)
    requires Legal(Init(closable, current), es)
    ensures var s := Run(Init(closable, current), es);
            var answers := Answers(es);
            var ended := answers != [] && !answers[|answers| - 1].Chunk?;
            && (ended || ThrownIn(es).Some? <==>
                s.pc == Detaching(Exhausted) || (s.pc.Detaching? && s.pc.pull.Fails?)
                || s.pc.Handling? || s.pc == Finalizing || s.pc == Closing || s.pc == Ending || s.pc == Done)
            && (ThrownIn(es).Some? ==> !ended)
            && (forall i :: 0 <= i < |answers| - 1 ==> answers[i].Chunk?)
  {
    hide ContextOk, SpanOk, ErrorsOk, PullsOk, ChunksOk, Next, Enabled, Legal, Run;
    var s := Init(closable, current);
    assert s.pulls + Answers(es) == Answers(es);
    InitOk(closable, current);
    RunKeepsInv(s, es);
    HistoryIsTheRun(s, es);
    LeftForAReason(Run(s, es));
  }

  lemma InitOk(closable: bool, current: Context)
    ensures Inv(Init(closable, current))
  {
  }

  lemma LeftForAReason(s: State)
    requires PullsOk(s)
    ensures var ended := s.pulls != [] && !s.pulls[|s.pulls| - 1].Chunk?;
            && (ended || s.thrown.Some? <==>
                s.pc == Detaching(Exhausted) || (s.pc.Detaching? && s.pc.pull.Fails?) || BehindLoop(s.pc))
            && (s.thrown.Some? ==> !ended)
            && (forall i :: 0 <= i < |s.pulls| - 1 ==> s.pulls[i].Chunk?)
  {
    assert forall i :: 0 <= i < |s.pulls| - 1 ==> s.pulls[i] == s.pulls[..|s.pulls| - 1][i];
  }

  /** Each request leads to one pull: all but the one being served have been answered. */
  lemma EachRequestPulls(closable: bool, current: Context, es: seq<Event>)
    requires Legal(Init(closable, current), es)
    ensures var s := Run(Init(closable, current), es);
            Requests(es) == |Answers(es)| + (if s.pc == Top || s.pc == Awaiting then 1 else 0)
  {
    RunKeepsInv(Init(closable, current), es);
    HistoryIsTheRun(Init(closable, current), es);
  }

  /** The consumer gets the inner stream's chunks unchanged and in order; at a yield and at the end, all of them. */
  lemma ChunksPassThrough(closable: bool, current: Context, es: seq<Event>)
    requires Legal(Init(closable, current), es)
    ensures var s := Run(Init(closable, current), es);
            && s.yielded <= Texts(Answers(es))
            && (s.pc == Suspended || s.pc == Done ==> s.yielded == Texts(Answers(es)))
  {
    hide Next, Enabled, Legal, Run, ContextOk, SpanOk, PullsOk, ErrorsOk, ChunksOk, Texts;
    var s := Init(closable, current);
    assert s.pulls + Answers(es) == Answers(es);
    InitOk(closable, current);
    RunKeepsInv(s, es);
    HistoryIsTheRun(s, es);
    YieldedIs(Run(s, es));
  }

  lemma YieldedIs(s: State)
    requires ChunksOk(s)
    ensures s.yielded <= Texts(s.pulls)
    ensures s.pc == Suspended || s.pc == Done ==> s.yielded == Texts(s.pulls)
  {
    hide Texts;
  }

  /**
   How a stream that is over came out: an error status, recorded once, exactly if an exception other than a close or a
   cancellation was raised while streaming. What was raised goes on to the consumer; only an interruption of the inner
   stream's close can take its place, and an ordinary failure of that close never does.
   */
  lemma OnlyErrorsAreRecorded(closable: bool, current: Context, es: seq<Event>)
    requires Legal(Init(closable, current), es) && Run(Init(closable, current), es).pc == Done
    ensures var s := Run(Init(closable, current), es);
            var raised := if ThrownIn(es).Some? then ThrownIn(es)
                          else if Answers(es) == [] then None
                          else match Answers(es)[|Answers(es)| - 1] case Fails(e) => Some(e) case _ => None;
            && (s.errors == 1 <==> raised.Some? && raised.value != GeneratorExit && raised.value != Cancelled)
            && s.errors <= 1 && s.recorded == (if s.errors == 1 then [raised.value] else [])
            && (s.pending == raised || (closable && s.pending.Some? && !s.pending.value.Ordinary?))
  {
    hide Next, Enabled, Legal, Run, ContextOk, SpanOk, PullsOk, ChunksOk, ErrorsOk;
    var s := Init(closable, current);
    assert s.pulls + Answers(es) == Answers(es);
    InitOk(closable, current);
    RunKeepsInv(s, es);
    HistoryIsTheRun(s, es);
    OverWithAReason(Run(s, es));
  }

  lemma OverWithAReason(s: State)
    requires ErrorsOk(s) && s.pc == Done
    ensures var raised := Raised(s.thrown, s.pulls);
            && (s.errors == 1 <==> raised.Some? && raised.value != GeneratorExit && raised.value != Cancelled)
            && s.errors <= 1 && s.recorded == (if s.errors == 1 then [raised.value] else [])
            && (s.pending == raised || (s.closable && s.pending.Some? && !s.pending.value.Ordinary?))
  {
  }

  /* ---------- every run comes back to its consumer ---------- */

  /** How many events can follow before the consumer is asked again. */
  function Rank(pc: Pc): nat {
    match pc
    case Unstarted => 0
    case Suspended => 0
    case Done => 0
    case Ending => 1
    case Closing => 2
    case Finalizing => 3
    case Handling(_) => 4
    case Yielding(_) => 1
    case Detaching(_) => 5
    case Awaiting => 6
    case Top => 7
  }

  /** How often the consumer has taken the initiative. */
  function Turns(s: State): nat {
    s.requests + if s.thrown.Some? then 1 else 0
  }

  lemma StepWorks(s: State, e: Event)
    requires Enabled(s, e) && PullsOk(s)
    ensures e.Resume? || e.ThrowIn? ==>
              Rank(s.pc) == 0 && Turns(Next(s, e)) == Turns(s) + 1 && Rank(Next(s, e).pc) <= 7
    ensures !e.Resume? && !e.ThrowIn? ==> Rank(Next(s, e).pc) < Rank(s.pc) && Turns(Next(s, e)) == Turns(s)
  {
  }

  /** Between two turns of the consumer the generator takes at most seven steps; no run goes on by itself for ever. */
  lemma {:induction false} RunsAreBounded(s: State, es: seq<Event>)
    requires Inv(s) && Legal(s, es)
    ensures |es| + Rank(Run(s, es).pc) + 8 * Turns(s) <= 8 * Turns(Run(s, es)) + Rank(s.pc)
    decreases es
  {
    if es != [] {
      StepKeepsInv(s, es[0]);
      StepWorks(s, es[0]);
      RunsAreBounded(Next(s, es[0]), es[1..]);
    }
  }

  /** Until the stream is over there is always a next event, and once it is over there is none. */
  lemma GoesOnUntilDone(s: State) returns (e: Event)
    ensures s.pc != Done ==> Enabled(s, e)
    ensures s.pc == Done ==> forall f: Event :: !Enabled(s, f)
  {
    e := if s.pc == Unstarted || s.pc == Suspended then Resume(s.home)
         else if s.pc == Awaiting then Answer(Exhausted, s.home)
         else if s.pc == Closing then Closed(None)
         else Step;
  }

  /* ---------- the early close ---------- */

  lemma RunCons(s: State, e: Event, es: seq<Event>)
    requires Enabled(s, e) && Legal(Next(s, e), es)
    ensures Legal(s, [e] + es) && Run(s, [e] + es) == Run(Next(s, e), es)
  {
    hide Next, Enabled;
    var all := [e] + es;
    assert all[0] == e && all[1..] == es;
  }

  /**
   A consumer that abandons the stream at a yield: the generator ends by itself within four steps, whatever the close
   of the inner stream does, without an error status and with the inner stream closed before the span ends.
   */
  lemma AbandonedStreamEnds(s: State, ambient: Context, outcome: Option<Exception>)
    requires Inv(s) && s.pc == Suspended
    ensures var es := if s.closable then [ThrowIn(ambient, GeneratorExit), Step, Step, Closed(outcome), Step]
                      else [ThrowIn(ambient, GeneratorExit), Step, Step, Step];
            && Legal(s, es)
            && var s' := Run(s, es);
            && s'.pc == Done && s'.current == ambient && s'.ended == 1 && s'.errors == 0
            && s'.closes == (if s.closable then 1 else 0) && s'.yielded == s.yielded
            && s'.pending == (if s.closable && outcome.Some? && !outcome.value.Ordinary? then outcome else Some(GeneratorExit))
  {
    var s1 := Next(s, ThrowIn(ambient, GeneratorExit));
    var s2 := Next(s1, Step);
    var s3 := Next(s2, Step);
    if s.closable {
      var s4 := Next(s3, Closed(outcome));
      RunCons(s4, Step, []);
      RunCons(s3, Closed(outcome), [Step] + []);
      RunCons(s2, Step, [Closed(outcome)] + ([Step] + []));
      RunCons(s1, Step, [Step] + ([Closed(outcome)] + ([Step] + [])));
      RunCons(s, ThrowIn(ambient, GeneratorExit), [Step] + ([Step] + ([Closed(outcome)] + ([Step] + []))));
      assert [ThrowIn(ambient, GeneratorExit), Step, Step, Closed(outcome), Step]
          == [ThrowIn(ambient, GeneratorExit)] + ([Step] + ([Step] + ([Closed(outcome)] + ([Step] + []))));
    } else {
      RunCons(s3, Step, []);
      RunCons(s2, Step, [Step] + []);
      RunCons(s1, Step, [Step] + ([Step] + []));
      RunCons(s, ThrowIn(ambient, GeneratorExit), [Step] + ([Step] + ([Step] + [])));
      assert [ThrowIn(ambient, GeneratorExit), Step, Step, Step]
          == [ThrowIn(ambient, GeneratorExit)] + ([Step] + ([Step] + ([Step] + [])));
    }
  }

  /* ---------- the stream that is drained ---------- */

  lemma {:induction false} RunAppend(s: State, es: seq<Event>, fs: seq<Event>)
    requires Legal(s, es) && Legal(Run(s, es), fs)
    ensures Legal(s, es + fs) && Run(s, es + fs) == Run(Run(s, es), fs)
    decreases es
  {
    hide Next, Enabled;
    if es == [] {
      assert es + fs == fs;
    } else {
      assert (es + fs)[1..] == es[1..] + fs;
      RunAppend(Next(s, es[0]), es[1..], fs);
    }
  }

  /** The consumer asks, from its context, and the inner stream answers with a chunk. */
  function ServeChunk(ambient: Context, text: string): seq<Event> {
    [Resume(ambient)] + ([Step] + ([Answer(Chunk(text), ambient)] + ([Step] + ([Step] + []))))
  }

  function ServeChunks(ambient: Context, chunks: seq<string>): seq<Event> {
    if chunks == [] then [] else ServeChunk(ambient, chunks[0]) + ServeChunks(ambient, chunks[1..])
  }

  /** From the outer `finally` on. */
  function Wind(closable: bool): seq<Event> {
    [Step] + ((if closable then [Closed(None)] else []) + ([Step] + []))
  }

  /** The consumer asks once more and the inner stream has ended: what follows, up to the end of the span. */
  function ServeEnd(closable: bool, ambient: Context, end: Pull): seq<Event> {
    [Resume(ambient)] + ([Step] + ([Answer(end, ambient)]
      + ([Step] + (if end.Fails? then [Step] + Wind(closable) else Wind(closable)))))
  }

  predicate Ready(s: State) {
    (s.pc == Unstarted || s.pc == Suspended) && Inv(s)
  }

  lemma ChunkIsServed(s: State, ambient: Context, text: string)
    requires Ready(s)
    ensures Legal(s, ServeChunk(ambient, text))
    ensures var s' := Run(s, ServeChunk(ambient, text));
            Ready(s') && s'.pc == Suspended && s'.yielded == s.yielded + [text] && s'.closable == s.closable
  {
    var s1 := Next(s, Resume(ambient));
    var s2 := Next(s1, Step);
    var s3 := Next(s2, Answer(Chunk(text), ambient));
    var s4 := Next(s3, Step);
    assert s4.pc == Yielding(text) && s4.yielded == s.yielded;
    RunCons(s4, Step, []);
    RunCons(s3, Step, [Step] + []);
    RunCons(s2, Answer(Chunk(text), ambient), [Step] + ([Step] + []));
    RunCons(s1, Step, [Answer(Chunk(text), ambient)] + ([Step] + ([Step] + [])));
    RunCons(s, Resume(ambient), [Step] + ([Answer(Chunk(text), ambient)] + ([Step] + ([Step] + []))));
    RunKeepsInv(s, ServeChunk(ambient, text));
  }

  lemma {:induction false} ChunksAreServed(s: State, ambient: Context, chunks: seq<string>)
    requires Ready(s)
    ensures Legal(s, ServeChunks(ambient, chunks))
    ensures var s' := Run(s, ServeChunks(ambient, chunks));
            Ready(s') && s'.yielded == s.yielded + chunks && s'.closable == s.closable
    decreases chunks
  {
    hide Next, Enabled, Inv, ServeChunk;
    if chunks == [] {
      assert s.yielded + [] == s.yielded;
    } else {
      ChunkIsServed(s, ambient, chunks[0]);
      var s' := Run(s, ServeChunk(ambient, chunks[0]));
      ChunksAreServed(s', ambient, chunks[1..]);
      RunAppend(s, ServeChunk(ambient, chunks[0]), ServeChunks(ambient, chunks[1..]));
      assert (s.yielded + [chunks[0]]) + chunks[1..] == s.yielded + chunks;
    }
  }

  /** How the last stretch comes out: over, with nothing more for the consumer, and this on its way out. */
  predicate Over(s: State, s': State, out: Option<Exception>) {
    s'.pc == Done && s'.yielded == s.yielded && s'.home == s.home && s'.pending == out
  }

  lemma Winds(s: State)
    requires s.pc == Finalizing
    ensures Legal(s, Wind(s.closable)) && Over(s, Run(s, Wind(s.closable)), s.pending)
  {
    var s1 := Next(s, Step);
    if s.closable {
      var s2 := Next(s1, Closed(None));
      RunCons(s2, Step, []);
      RunCons(s1, Closed(None), [Step] + []);
      RunCons(s, Step, [Closed(None)] + ([Step] + []));
    } else {
      RunCons(s1, Step, []);
      RunCons(s, Step, [Step] + []);
      assert [] + ([Step] + []) == [Step] + [];
    }
  }

  lemma HandledAndWinds(s: State)
    requires s.pc.Handling?
    ensures Legal(s, [Step] + Wind(s.closable)) && Over(s, Run(s, [Step] + Wind(s.closable)), Some(s.pc.e))
  {
    hide Wind, Legal, Run;
    Winds(Next(s, Step));
    RunCons(s, Step, Wind(s.closable));
  }

  lemma LastPull(s: State, ambient: Context, end: Pull)
    requires s.pc == Awaiting && !end.Chunk? && s.pending == None
    ensures var es := [Answer(end, ambient)]
                      + ([Step] + (if end.Fails? then [Step] + Wind(s.closable) else Wind(s.closable)));
            Legal(s, es) && Over(s, Run(s, es), if end.Fails? then Some(end.e) else None)
  {
    hide Wind, Legal, Run;
    var s1 := Next(s, Answer(end, ambient));
    var s2 := Next(s1, Step);
    assert s2.closable == s.closable;
    if end.Fails? {
      HandledAndWinds(s2);
      RunCons(s1, Step, [Step] + Wind(s.closable));
      RunCons(s, Answer(end, ambient), [Step] + ([Step] + Wind(s.closable)));
    } else {
      Winds(s2);
      RunCons(s1, Step, Wind(s.closable));
      RunCons(s, Answer(end, ambient), [Step] + Wind(s.closable));
    }
  }

  lemma EndIsServed(s: State, ambient: Context, end: Pull)
    requires Ready(s) && !end.Chunk?
    ensures Legal(s, ServeEnd(s.closable, ambient, end))
    ensures var s' := Run(s, ServeEnd(s.closable, ambient, end));
            && s'.pc == Done && s'.yielded == s.yielded && s'.home == ambient
            && s'.pending == if end.Fails? then Some(end.e) else None
  {
    hide Wind, Legal, Run, ContextOk, SpanOk, PullsOk, ChunksOk;
    var s1 := Next(s, Resume(ambient));
    var s2 := Next(s1, Step);
    assert s.pending == None;
    LastPull(s2, ambient, end);
    var es := [Answer(end, ambient)] + ([Step] + (if end.Fails? then [Step] + Wind(s.closable) else Wind(s.closable)));
    RunCons(s1, Step, es);
    RunCons(s, Resume(ambient), [Step] + es);
  }

  /**
   A consumer that drains the stream gets exactly the chunks the inner stream gives, however many, and then the end:
   a normal one when the inner stream is exhausted, the inner stream's exception when it fails.
   */
  lemma DrainedStreamGivesAll(closable: bool, current: Context, ambient: Context, chunks: seq<string>, end: Pull)
    requires !end.Chunk?
    ensures var es := ServeChunks(ambient, chunks) + ServeEnd(closable, ambient, end);
            && Legal(Init(closable, current), es)
            && var s := Run(Init(closable, current), es);
            && s.pc == Done && s.yielded == chunks && s.pending == (if end.Fails? then Some(end.e) else None)
            && s.current == ambient && s.ended == 1
  {
    hide Next, Enabled, Legal, Run, ServeChunks, ServeEnd, SpanOk, ErrorsOk, PullsOk, ChunksOk;
    var s := Init(closable, current);
    InitOk(closable, current);
    ChunksAreServed(s, ambient, chunks);
    var s' := Run(s, ServeChunks(ambient, chunks));
    assert s.yielded + chunks == chunks;
    EndIsServed(s', ambient, end);
    RunAppend(s, ServeChunks(ambient, chunks), ServeEnd(closable, ambient, end));
    var es := ServeChunks(ambient, chunks) + ServeEnd(closable, ambient, end);
    RunKeepsInv(s, es);
    SpanEndsOnce(closable, current, es);
  }
}
