/**
 Any number of threads call `ensure_agent_plugins` for any number of registries at once. A registry is known to the
 latch by its identity, a number that becomes free again when the registry is dropped.
 */
module DiscoveryLatch {
  import opened Common
  import opened Discovery

  type Store = map<string, Factory>

  datatype Phase =
    | Called
    | Missed                                                             // not latched when read without the lock
    | Locked                                                             // holds the lock
    | Scanning(before: Store, done: seq<EntryPoint>, pending: seq<EntryPoint>)
    | Marked                                                             // latched, lock still held
    | Returned
    | Raised

  /** A call for the registry object with index `registry`. */
  datatype Thread = Thread(registry: nat, enabled: bool, phase: Phase)

  /** `builtin` is what it held at first, `stale` whether its identity was latched already when it was created. */
  datatype RegistryObject = RegistryObject(id: nat, live: bool, builtin: Store, store: Store, stale: bool)

  /** A scan that ran to its end: the object it was for, what that held before, the entries. */
  datatype Scan = Scan(registry: nat, before: Store, entries: seq<EntryPoint>)

  datatype State = State(
    threads: seq<Thread>,
    objects: seq<RegistryObject>,
    discovered: set<nat>,          // identities, never removed
    owner: Option<nat>,
    scans: seq<Scan>)

  datatype Event =
    | Create(id: nat, store: Store)
    | Drop(o: nat)
    | Call(registry: nat, enabled: bool)
    | Glance(t: nat)
    | Acquire(t: nat)
    | Recheck(t: nat, entries: seq<EntryPoint>)
    | Advance(t: nat)
    | Abort(t: nat)     // the scan raises between two entries
    | Mark(t: nat)
    | Release(t: nat)

  function Init(): State {
    State([], [], {}, None, [])
  }

  predicate Ended(phase: Phase) {
    phase == Returned || phase == Raised
  }

  predicate OwnStep(e: Event) {
    !e.Create? && !e.Drop? && !e.Call?
  }

  predicate Enabled(s: State, e: Event) {
    match e
    case Create(id, _) => forall o :: 0 <= o < |s.objects| && s.objects[o].id == id ==> !s.objects[o].live
    case Drop(o) =>
      && o < |s.objects| && s.objects[o].live
      && forall t :: 0 <= t < |s.threads| && s.threads[t].registry == o ==> Ended(s.threads[t].phase)
    case Call(o, _) => o < |s.objects| && s.objects[o].live
    case _ => e.t < |s.threads| && s.threads[e.t].registry < |s.objects| && CanStep(s.threads[e.t].phase, s.owner, e)
  }

  predicate CanStep(phase: Phase, owner: Option<nat>, e: Event) {
    match e
    case Glance(_) => phase == Called
    case Acquire(_) => phase == Missed && owner == None
    case Recheck(_, _) => phase == Locked
    case Advance(_) => phase.Scanning? && phase.pending != []
    case Abort(_) => phase.Scanning?
    case Mark(_) => phase.Scanning? && phase.pending == []
    case Release(_) => phase == Marked
    case _ => false
  }

  function Put(s: State, t: nat, phase: Phase): seq<Thread>
    requires t < |s.threads|
  {
    s.threads[t := s.threads[t].(phase := phase)]
  }

  function Next(s: State, e: Event): State
    requires Enabled(s, e)
  {
    match e
    case Create(id, store) => s.(objects := s.objects + [RegistryObject(id, true, store, store, id in s.discovered)])
    case Drop(o) => s.(objects := s.objects[o := s.objects[o].(live := false)])
    case Call(o, enabled) => s.(threads := s.threads + [Thread(o, enabled, Called)])
    case Glance(t) =>
      var quick := !s.threads[t].enabled || s.objects[s.threads[t].registry].id in s.discovered;
      s.(threads := Put(s, t, if quick then Returned else Missed))
    case Acquire(t) => s.(threads := Put(s, t, Locked), owner := Some(t))
    case Recheck(t, entries) =>
      var registry := s.objects[s.threads[t].registry];
      if registry.id in s.discovered then s.(threads := Put(s, t, Returned), owner := None)
      else s.(threads := Put(s, t, Scanning(registry.store, [], entries)))
    case Advance(t) => Read(s, t)
    case Abort(t) => s.(threads := Put(s, t, Raised), owner := None)
    case Mark(t) =>
      var thread := s.threads[t];
      s.(threads := Put(s, t, Marked), discovered := s.discovered + {s.objects[thread.registry].id},
         scans := s.scans + [Scan(thread.registry, thread.phase.before, thread.phase.done)])
    case Release(t) => s.(threads := Put(s, t, Returned), owner := None)
  }

  /** One turn of the scan's loop. */
  function Read(s: State, t: nat): State
    requires t < |s.threads| && s.threads[t].registry < |s.objects|
    requires s.threads[t].phase.Scanning? && s.threads[t].phase.pending != []
  {
    var Scanning(before, done, pending) := s.threads[t].phase;
    var o, entry := s.threads[t].registry, pending[0];
    if Aborts(before.Keys, entry) then s.(threads := Put(s, t, Raised), owner := None)
    else
      var threads := Put(s, t, Scanning(before, done + [entry], pending[1..]));
      if Eligible(before.Keys, entry)
      then s.(threads := threads, objects := s.objects[o := Bind(s.objects[o], entry)])
      else s.(threads := threads)
  }

  function Bind(registry: RegistryObject, entry: EntryPoint): RegistryObject
    requires entry.loaded.Plugin?
  {
    registry.(store := registry.store[entry.name := entry.loaded.factory])
  }

  ghost predicate Legal(s: State, es: seq<Event>)
    decreases es
  {
    es == [] || (Enabled(s, es[0]) && Legal(Next(s, es[0]), es[1..]))
  }

  ghost function Run(s: State, es: seq<Event>): State
    requires Legal(s, es)
    decreases es
  {
    if es == [] then s else Run(Next(s, es[0]), es[1..])
  }

  /* ---------- the invariant ---------- */

  predicate HoldsLock(phase: Phase) {
    phase == Locked || phase.Scanning? || phase == Marked
  }

  ghost predicate OwnerOk(threads: seq<Thread>, owner: Option<nat>) {
    && (forall t :: 0 <= t < |threads| && HoldsLock(threads[t].phase) ==> owner == Some(t))
    && (owner.Some? ==> owner.value < |threads| && HoldsLock(threads[owner.value].phase))
  }

  /** Every binding of `was` is still there. */
  ghost predicate Keeps(was: Store, now: Store) {
    forall n :: n in was ==> n in now && now[n] == was[n]
  }

  /** No two live objects share an identity; what an object held at first it still holds. */
  ghost predicate ObjectsOk(objects: seq<RegistryObject>) {
    && (forall p, o :: 0 <= p < o < |objects| && objects[p].id == objects[o].id ==> !objects[p].live)
    && (forall o :: 0 <= o < |objects| ==> Keeps(objects[o].builtin, objects[o].store))
  }

  ghost predicate ScannedFor(scan: Scan, objects: seq<RegistryObject>, id: nat) {
    scan.registry < |objects| && objects[scan.registry].id == id
  }

  /** Some object up to `o` with this identity was scanned to the end. */
  ghost predicate LatchedUpTo(scans: seq<Scan>, objects: seq<RegistryObject>, id: nat, o: nat) {
    exists i :: 0 <= i < |scans| && ScannedFor(scans[i], objects, id) && scans[i].registry <= o
  }

  /** A scanning thread has layered exactly what it has read on its registry, which is not latched yet. */
  ghost predicate ScanningOk(thread: Thread, registry: RegistryObject, discovered: set<nat>) {
    thread.phase.Scanning? ==>
      && registry.id !in discovered
      && Keeps(registry.builtin, thread.phase.before)
      && Reached(thread.phase.before.Keys, thread.phase.done) == |thread.phase.done|
      && registry.store == thread.phase.before + Provided(thread.phase.before.Keys, thread.phase.done)
  }

  ghost predicate ThreadOk(thread: Thread, objects: seq<RegistryObject>, discovered: set<nat>, scans: seq<Scan>) {
    && thread.registry < |objects|
    && (!Ended(thread.phase) ==> objects[thread.registry].live)
    && ScanningOk(thread, objects[thread.registry], discovered)
    && (thread.enabled && (thread.phase == Marked || thread.phase == Returned) ==>
          LatchedUpTo(scans, objects, objects[thread.registry].id, thread.registry))
    && (!thread.enabled ==> thread.phase == Called || thread.phase == Returned)
  }

  ghost predicate ThreadsOk(threads: seq<Thread>, objects: seq<RegistryObject>, discovered: set<nat>, scans: seq<Scan>) {
    forall t :: 0 <= t < |threads| ==> ThreadOk(threads[t], objects, discovered, scans)
  }

  /** A complete scan, and the registry still holds exactly what it left there. */
  ghost predicate ScanOk(scan: Scan, objects: seq<RegistryObject>, discovered: set<nat>) {
    && scan.registry < |objects| && objects[scan.registry].id in discovered
    && Keeps(objects[scan.registry].builtin, scan.before)
    && Reached(scan.before.Keys, scan.entries) == |scan.entries|
    && objects[scan.registry].store == scan.before + Provided(scan.before.Keys, scan.entries)
  }

  ghost predicate AllScansOk(scans: seq<Scan>, objects: seq<RegistryObject>, discovered: set<nat>) {
    forall i :: 0 <= i < |scans| ==> ScanOk(scans[i], objects, discovered)
  }

  /** No identity is scanned to the end twice. */
  ghost predicate OneScanEach(scans: seq<Scan>, objects: seq<RegistryObject>) {
    forall i, j, id :: 0 <= i < j < |scans| && ScannedFor(scans[i], objects, id) ==> !ScannedFor(scans[j], objects, id)
  }

  ghost predicate LatchedScanned(scans: seq<Scan>, objects: seq<RegistryObject>, discovered: set<nat>) {
    forall id :: id in discovered ==> exists i :: 0 <= i < |scans| && ScannedFor(scans[i], objects, id)
  }

  ghost predicate ScansOk(scans: seq<Scan>, objects: seq<RegistryObject>, discovered: set<nat>) {
    AllScansOk(scans, objects, discovered) && OneScanEach(scans, objects) && LatchedScanned(scans, objects, discovered)
  }

  /** An object is stale exactly when an earlier one with its identity was scanned to the end. */
  ghost predicate StaleOk(objects: seq<RegistryObject>, scans: seq<Scan>) {
    forall o :: 0 <= o < |objects| ==>
                  (objects[o].stale <==> o > 0 && LatchedUpTo(scans, objects, objects[o].id, o - 1))
  }

  ghost predicate Inv(s: State) {
    && OwnerOk(s.threads, s.owner)
    && ObjectsOk(s.objects)
    && ThreadsOk(s.threads, s.objects, s.discovered, s.scans)
    && ScansOk(s.scans, s.objects, s.discovered)
    && StaleOk(s.objects, s.scans)
  }

  lemma OwnerKept(s: State, e: Event)
    requires OwnerOk(s.threads, s.owner) && Enabled(s, e)
    ensures OwnerOk(Next(s, e).threads, Next(s, e).owner)
  {
  }

  /** The identity of a live object is latched only by that object or an earlier one. */
  lemma LatchedByUpTo(s: State, o: nat)
    requires Inv(s) && o < |s.objects| && s.objects[o].live && s.objects[o].id in s.discovered
    ensures LatchedUpTo(s.scans, s.objects, s.objects[o].id, o)
  {
    hide OwnerOk, ThreadsOk, StaleOk, Keeps;
    var i :| 0 <= i < |s.scans| && ScannedFor(s.scans[i], s.objects, s.objects[o].id);
    assert s.scans[i].registry <= o;
  }

  /** A thread moves on without reaching its end or its scan; the rest of the state is as it was. */
  lemma ThreadMoves(threads: seq<Thread>, objects: seq<RegistryObject>, discovered: set<nat>, scans: seq<Scan>, t: nat, thread: Thread)
    requires ThreadsOk(threads, objects, discovered, scans) && ThreadOk(thread, objects, discovered, scans) && t < |threads|
    ensures ThreadsOk(threads[t := thread], objects, discovered, scans)
  {
  }

  lemma LatchedGrows(scans: seq<Scan>, objects: seq<RegistryObject>, scan: Scan, id: nat, o: nat)
    requires LatchedUpTo(scans, objects, id, o)
    ensures LatchedUpTo(scans + [scan], objects, id, o)
  {
    var i :| 0 <= i < |scans| && ScannedFor(scans[i], objects, id) && scans[i].registry <= o;
    assert (scans + [scan])[i] == scans[i];
  }

  /** What one object's change leaves alone: its identity, and for a scanned one its bindings. */
  ghost predicate SameObject(before: RegistryObject, after: RegistryObject) {
    after.id == before.id && after.builtin == before.builtin && after.stale == before.stale
  }

  /** Objects may be added, and may change, as long as they keep their identities: the scans are for the same ones. */
  ghost predicate SameScans(scans: seq<Scan>, objects: seq<RegistryObject>, objects': seq<RegistryObject>) {
    && |objects| <= |objects'|
    && (forall p :: 0 <= p < |objects| ==> SameObject(objects[p], objects'[p]))
    && (forall i :: 0 <= i < |scans| ==> scans[i].registry < |objects|)
  }

  lemma ScannedForAfter(scans: seq<Scan>, objects: seq<RegistryObject>, objects': seq<RegistryObject>, i: nat, id: nat)
    requires SameScans(scans, objects, objects') && i < |scans|
    ensures ScannedFor(scans[i], objects, id) <==> ScannedFor(scans[i], objects', id)
  {
    assert SameObject(objects[scans[i].registry], objects'[scans[i].registry]);
  }

  lemma LatchedAfter(scans: seq<Scan>, objects: seq<RegistryObject>, objects': seq<RegistryObject>, id: nat, o: nat)
    requires SameScans(scans, objects, objects')
    ensures LatchedUpTo(scans, objects, id, o) <==> LatchedUpTo(scans, objects', id, o)
  {
    forall i | 0 <= i < |scans| ensures ScannedFor(scans[i], objects, id) <==> ScannedFor(scans[i], objects', id) {
      ScannedForAfter(scans, objects, objects', i, id);
    }
  }

  lemma ScansAfter(scans: seq<Scan>, objects: seq<RegistryObject>, objects': seq<RegistryObject>, discovered: set<nat>)
    requires SameScans(scans, objects, objects') && OneScanEach(scans, objects) && LatchedScanned(scans, objects, discovered)
    ensures OneScanEach(scans, objects') && LatchedScanned(scans, objects', discovered)
  {
    forall i, id | 0 <= i < |scans| ensures ScannedFor(scans[i], objects, id) <==> ScannedFor(scans[i], objects', id) {
      ScannedForAfter(scans, objects, objects', i, id);
    }
    hide ScannedFor, SameScans, SameObject;
  }

  lemma ScansInRange(scans: seq<Scan>, objects: seq<RegistryObject>, discovered: set<nat>)
    requires AllScansOk(scans, objects, discovered)
    ensures forall i :: 0 <= i < |scans| ==> scans[i].registry < |objects|
  {
    forall i | 0 <= i < |scans| ensures scans[i].registry < |objects| {
      assert ScanOk(scans[i], objects, discovered);
    }
  }

  lemma CreateKeeps(s: State, id: nat, store: Store)
    requires Inv(s) && Enabled(s, Create(id, store))
    ensures Inv(Next(s, Create(id, store)))
  {
    CreateKeepsObjects(s, id, store);
    CreateKeepsScans(s, id, store);
    CreateKeepsStale(s, id, store);
    CreateKeepsThreads(s, id, store);
    hide ThreadsOk, ScansOk, StaleOk, ObjectsOk, OwnerOk;
  }

  lemma CreateKeepsObjects(s: State, id: nat, store: Store)
    requires ObjectsOk(s.objects) && Enabled(s, Create(id, store))
    ensures ObjectsOk(Next(s, Create(id, store)).objects)
  {
  }

  lemma CreateIsSame(s: State, id: nat, store: Store)
    requires ScansOk(s.scans, s.objects, s.discovered) && Enabled(s, Create(id, store))
    ensures SameScans(s.scans, s.objects, Next(s, Create(id, store)).objects)
  {
    ScansInRange(s.scans, s.objects, s.discovered);
  }

  lemma CreateKeepsThreads(s: State, id: nat, store: Store)
    requires ThreadsOk(s.threads, s.objects, s.discovered, s.scans) && ScansOk(s.scans, s.objects, s.discovered)
    requires Enabled(s, Create(id, store))
    ensures ThreadsOk(s.threads, Next(s, Create(id, store)).objects, s.discovered, s.scans)
  {
    var objects := Next(s, Create(id, store)).objects;
    CreateIsSame(s, id, store);
    hide ScansOk, LatchedUpTo, ScanningOk, SameScans;
    forall t | 0 <= t < |s.threads| ensures ThreadOk(s.threads[t], objects, s.discovered, s.scans) {
      var o := s.threads[t].registry;
      assert ThreadOk(s.threads[t], s.objects, s.discovered, s.scans);
      assert objects[o] == s.objects[o];
      LatchedAfter(s.scans, s.objects, objects, s.objects[o].id, o);
    }
  }

  lemma CreateKeepsScans(s: State, id: nat, store: Store)
    requires ScansOk(s.scans, s.objects, s.discovered) && Enabled(s, Create(id, store))
    ensures ScansOk(s.scans, Next(s, Create(id, store)).objects, s.discovered)
  {
    var objects := Next(s, Create(id, store)).objects;
    CreateIsSame(s, id, store);
    ScansAfter(s.scans, s.objects, objects, s.discovered);
    hide OneScanEach, LatchedScanned, Keeps;
    forall i | 0 <= i < |s.scans| ensures ScanOk(s.scans[i], objects, s.discovered) {
      assert ScanOk(s.scans[i], s.objects, s.discovered);
    }
  }

  lemma CreateKeepsStale(s: State, id: nat, store: Store)
    requires ScansOk(s.scans, s.objects, s.discovered) && StaleOk(s.objects, s.scans) && Enabled(s, Create(id, store))
    ensures StaleOk(Next(s, Create(id, store)).objects, s.scans)
  {
    var objects := Next(s, Create(id, store)).objects;
    var n := |s.objects|;
    CreateIsSame(s, id, store);
    LatchedIffScanned(s, id);
    hide ScansOk, LatchedUpTo, SameScans;
    forall o | 0 <= o <= n ensures objects[o].stale <==> o > 0 && LatchedUpTo(s.scans, objects, objects[o].id, o - 1) {
      if o > 0 {
        LatchedAfter(s.scans, s.objects, objects, objects[o].id, o - 1);
      }
    }
  }

  lemma LatchedIffScanned(s: State, id: nat)
    requires ScansOk(s.scans, s.objects, s.discovered)
    ensures id in s.discovered <==> |s.objects| > 0 && LatchedUpTo(s.scans, s.objects, id, |s.objects| - 1)
  {
    hide OneScanEach, Keeps;
    if id in s.discovered {
      hide AllScansOk;
      var i :| 0 <= i < |s.scans| && ScannedFor(s.scans[i], s.objects, id);
      assert s.scans[i].registry <= |s.objects| - 1;
    }
    if |s.objects| > 0 && LatchedUpTo(s.scans, s.objects, id, |s.objects| - 1) {
      hide LatchedScanned;
      var i :| 0 <= i < |s.scans| && ScannedFor(s.scans[i], s.objects, id) && s.scans[i].registry <= |s.objects| - 1;
      assert ScanOk(s.scans[i], s.objects, s.discovered);
    }
  }

  /** An object changes in its bindings or is dropped; nothing the latch knows about is concerned. */
  lemma ObjectChanges(s: State, o: nat, after: RegistryObject)
    requires ScansOk(s.scans, s.objects, s.discovered) && StaleOk(s.objects, s.scans) && ObjectsOk(s.objects)
    requires o < |s.objects| && SameObject(s.objects[o], after) && Keeps(after.builtin, after.store)
    requires after.live ==> s.objects[o].live
    requires after.store == s.objects[o].store || after.id !in s.discovered
    ensures ScansOk(s.scans, s.objects[o := after], s.discovered) && StaleOk(s.objects[o := after], s.scans)
    ensures ObjectsOk(s.objects[o := after])
    ensures forall id, p :: LatchedUpTo(s.scans, s.objects, id, p) <==> LatchedUpTo(s.scans, s.objects[o := after], id, p)
  {
    var objects := s.objects[o := after];
    ScansInRange(s.scans, s.objects, s.discovered);
    assert SameScans(s.scans, s.objects, objects);
    ObjectsAfter(s.objects, o, after);
    ScansAfter(s.scans, s.objects, objects, s.discovered);
    AllScansAfter(s.scans, s.objects, o, after, s.discovered);
    hide OneScanEach, LatchedScanned, AllScansOk, ObjectsOk, SameScans, LatchedUpTo, Keeps;
    forall id, p ensures LatchedUpTo(s.scans, s.objects, id, p) <==> LatchedUpTo(s.scans, objects, id, p) {
      LatchedAfter(s.scans, s.objects, objects, id, p);
    }
  }

  lemma ObjectsAfter(objects: seq<RegistryObject>, o: nat, after: RegistryObject)
    requires ObjectsOk(objects) && o < |objects| && SameObject(objects[o], after) && Keeps(after.builtin, after.store)
    requires after.live ==> objects[o].live
    ensures ObjectsOk(objects[o := after])
  {
    hide Keeps;
  }

  lemma AllScansAfter(scans: seq<Scan>, objects: seq<RegistryObject>, o: nat, after: RegistryObject, discovered: set<nat>)
    requires AllScansOk(scans, objects, discovered) && o < |objects| && SameObject(objects[o], after)
    requires after.store == objects[o].store || after.id !in discovered
    ensures AllScansOk(scans, objects[o := after], discovered)
  {
    hide Keeps;
    forall i | 0 <= i < |scans| ensures ScanOk(scans[i], objects[o := after], discovered) {
      assert ScanOk(scans[i], objects, discovered);
    }
  }

  lemma DropKeeps(s: State, o: nat)
    requires Inv(s) && Enabled(s, Drop(o))
    ensures Inv(Next(s, Drop(o)))
  {
    var after := s.objects[o].(live := false);
    ObjectChanges(s, o, after);
    hide StaleOk, ScansOk, ObjectsOk, LatchedUpTo, Keeps;
    forall t | 0 <= t < |s.threads| ensures ThreadOk(s.threads[t], s.objects[o := after], s.discovered, s.scans) {
      assert ThreadOk(s.threads[t], s.objects, s.discovered, s.scans);
    }
  }

  lemma CallKeeps(s: State, o: nat, enabled: bool)
    requires Inv(s) && Enabled(s, Call(o, enabled))
    ensures Inv(Next(s, Call(o, enabled)))
  {
    hide StaleOk, ScansOk, ObjectsOk, LatchedUpTo, Keeps;
    OwnerKept(s, Call(o, enabled));
    assert ThreadOk(Thread(o, enabled, Called), s.objects, s.discovered, s.scans);
  }

  /** Steps that neither scan nor latch. */
  lemma PlainStepKeeps(s: State, e: Event)
    requires Inv(s) && Enabled(s, e) && (e.Glance? || e.Acquire? || e.Recheck? || e.Abort? || e.Release?)
    ensures Inv(Next(s, e))
  {
    var thread := s.threads[e.t];
    OwnerKept(s, e);
    assert ThreadOk(thread, s.objects, s.discovered, s.scans);
    if thread.enabled && s.objects[thread.registry].id in s.discovered && !Ended(thread.phase) {
      LatchedByUpTo(s, thread.registry);
    }
    FreshScan(s.objects[thread.registry], s.objects);
    hide StaleOk, ScansOk, LatchedUpTo, OwnerOk, Keeps;
    ThreadMoves(s.threads, s.objects, s.discovered, s.scans, e.t, Next(s, e).threads[e.t]);
  }

  /** A scan that has read nothing has layered nothing. */
  lemma FreshScan(registry: RegistryObject, objects: seq<RegistryObject>)
    ensures Reached(registry.store.Keys, []) == 0
    ensures registry.store + Provided(registry.store.Keys, []) == registry.store
  {
  }

  lemma ReadKeepsReached(protected: set<string>, done: seq<EntryPoint>, entry: EntryPoint)
    requires Reached(protected, done) == |done| && !Aborts(protected, entry)
    ensures Reached(protected, done + [entry]) == |done| + 1
  {
    var all := done + [entry];
    assert forall i :: 0 <= i < |done| ==> all[i] == done[i];
  }

  lemma LayerOne(before: Store, provided: Store, entry: EntryPoint)
    requires Eligible(before.Keys, entry)
    ensures (before + provided)[entry.name := entry.loaded.factory]
         == before + provided[entry.name := entry.loaded.factory]
  {
  }

  lemma LayerKeeps(before: Store, entries: seq<EntryPoint>)
    ensures Keeps(before, before + Provided(before.Keys, entries))
  {
    LastPluginWins(before.Keys, entries, 0);
  }

  /** One turn of the loop layers one more entry on the scanned registry. */
  lemma ReadLayers(thread: Thread, registry: RegistryObject, discovered: set<nat>)
    requires ScanningOk(thread, registry, discovered) && thread.phase.Scanning? && thread.phase.pending != []
    requires !Aborts(thread.phase.before.Keys, thread.phase.pending[0])
    ensures var Scanning(before, done, pending) := thread.phase;
            var after := if Eligible(before.Keys, pending[0]) then Bind(registry, pending[0]) else registry;
            var thread' := thread.(phase := Scanning(before, done + [pending[0]], pending[1..]));
            ScanningOk(thread', after, discovered) && Keeps(after.builtin, after.store)
  {
    var Scanning(before, done, pending) := thread.phase;
    var entry := pending[0];
    ReadKeepsReached(before.Keys, done, entry);
    ReadOne(before.Keys, done, entry);
    if Eligible(before.Keys, entry) {
      LayerOne(before, Provided(before.Keys, done), entry);
    }
    LayerKeeps(before, done + [entry]);
  }

  lemma AdvanceKeeps(s: State, t: nat)
    requires Inv(s) && Enabled(s, Advance(t))
    ensures Inv(Next(s, Advance(t)))
  {
    var thread := s.threads[t];
    var Scanning(before, done, pending) := thread.phase;
    var o := thread.registry;
    OwnerKept(s, Advance(t));
    assert ThreadOk(thread, s.objects, s.discovered, s.scans);
    if Aborts(before.Keys, pending[0]) {
      hide StaleOk, ScansOk, OwnerOk, ObjectsOk, LatchedUpTo, Keeps;
      ThreadMoves(s.threads, s.objects, s.discovered, s.scans, t, thread.(phase := Raised));
    } else {
      ReadLayers(thread, s.objects[o], s.discovered);
      var after := if Eligible(before.Keys, pending[0]) then Bind(s.objects[o], pending[0]) else s.objects[o];
      ObjectChanges(s, o, after);
      AdvanceKeepsThreads(s, t, after);
      assert s.objects[o := s.objects[o]] == s.objects;
    }
  }

  lemma AdvanceKeepsThreads(s: State, t: nat, after: RegistryObject)
    requires OwnerOk(s.threads, s.owner) && ThreadsOk(s.threads, s.objects, s.discovered, s.scans)
    requires t < |s.threads| && s.threads[t].phase.Scanning? && s.threads[t].phase.pending != []
    requires s.threads[t].registry < |s.objects| && SameObject(s.objects[s.threads[t].registry], after)
    requires after.live == s.objects[s.threads[t].registry].live
    requires var Scanning(before, done, pending) := s.threads[t].phase;
             ScanningOk(s.threads[t].(phase := Scanning(before, done + [pending[0]], pending[1..])), after, s.discovered)
    requires forall id, p :: LatchedUpTo(s.scans, s.objects, id, p)
                        <==> LatchedUpTo(s.scans, s.objects[s.threads[t].registry := after], id, p)
    ensures var Scanning(before, done, pending) := s.threads[t].phase;
            ThreadsOk(Put(s, t, Scanning(before, done + [pending[0]], pending[1..])), s.objects[s.threads[t].registry := after],
                      s.discovered, s.scans)
  {
    hide LatchedUpTo, Keeps;
    var Scanning(before, done, pending) := s.threads[t].phase;
    var threads := Put(s, t, Scanning(before, done + [pending[0]], pending[1..]));
    var objects := s.objects[s.threads[t].registry := after];
    forall u | 0 <= u < |threads| ensures ThreadOk(threads[u], objects, s.discovered, s.scans) {
      assert ThreadOk(s.threads[u], s.objects, s.discovered, s.scans);
      assert u != t ==> !s.threads[u].phase.Scanning?;
    }
  }

  lemma MarkKeepsScans(scans: seq<Scan>, scan: Scan, objects: seq<RegistryObject>, discovered: set<nat>)
    requires ScansOk(scans, objects, discovered) && scan.registry < |objects|
    requires objects[scan.registry].id !in discovered && ScanOk(scan, objects, discovered + {objects[scan.registry].id})
    ensures ScansOk(scans + [scan], objects, discovered + {objects[scan.registry].id})
  {
    var now := discovered + {objects[scan.registry].id};
    var all := scans + [scan];
    forall i | 0 <= i < |scans|
      ensures ScanOk(scans[i], objects, now) && objects[scans[i].registry].id != objects[scan.registry].id
    {
      assert ScanOk(scans[i], objects, discovered);
    }
    assert forall i :: 0 <= i < |all| ==> all[i] == if i < |scans| then scans[i] else scan;
    hide ScanOk;
    MarkKeepsLatched(scans, scan, objects, discovered);
  }

  lemma MarkKeepsLatched(scans: seq<Scan>, scan: Scan, objects: seq<RegistryObject>, discovered: set<nat>)
    requires LatchedScanned(scans, objects, discovered) && scan.registry < |objects|
    ensures LatchedScanned(scans + [scan], objects, discovered + {objects[scan.registry].id})
  {
    var all := scans + [scan];
    forall r | r in discovered + {objects[scan.registry].id}
      ensures exists i :: 0 <= i < |all| && ScannedFor(all[i], objects, r)
    {
      if r in discovered {
        var i :| 0 <= i < |scans| && ScannedFor(scans[i], objects, r);
        assert ScannedFor(all[i], objects, r);
      } else {
        assert ScannedFor(all[|scans|], objects, r);
      }
    }
  }

  /** A later object with the identity of a live one does not exist, so no object becomes stale after the fact. */
  lemma MarkKeepsStale(scans: seq<Scan>, scan: Scan, objects: seq<RegistryObject>)
    requires StaleOk(objects, scans) && ObjectsOk(objects) && scan.registry < |objects| && objects[scan.registry].live
    ensures StaleOk(objects, scans + [scan])
  {
    hide Keeps;
    var all := scans + [scan];
    forall o | 0 < o < |objects|
      ensures LatchedUpTo(all, objects, objects[o].id, o - 1) <==> LatchedUpTo(scans, objects, objects[o].id, o - 1)
    {
      if LatchedUpTo(scans, objects, objects[o].id, o - 1) {
        LatchedGrows(scans, objects, scan, objects[o].id, o - 1);
      }
      if LatchedUpTo(all, objects, objects[o].id, o - 1) {
        var i :| 0 <= i < |all| && ScannedFor(all[i], objects, objects[o].id) && all[i].registry <= o - 1;
        assert i < |scans|;
        assert scans[i] == all[i];
      }
    }
  }

  lemma MarkKeeps(s: State, t: nat)
    requires Inv(s) && Enabled(s, Mark(t))
    ensures Inv(Next(s, Mark(t)))
  {
    var Thread(o, _, phase) := s.threads[t];
    var scan := Scan(o, phase.before, phase.done);
    var now := s.discovered + {s.objects[o].id};
    OwnerKept(s, Mark(t));
    assert ThreadOk(s.threads[t], s.objects, s.discovered, s.scans);
    MarkKeepsScans(s.scans, scan, s.objects, s.discovered);
    MarkKeepsStale(s.scans, scan, s.objects);
    assert (s.scans + [scan])[|s.scans|] == scan && ScannedFor(scan, s.objects, s.objects[o].id);
    assert LatchedUpTo(s.scans + [scan], s.objects, s.objects[o].id, o);
    hide StaleOk, ScansOk, ObjectsOk, LatchedUpTo, Keeps;
    forall u | 0 <= u < |s.threads| ensures ThreadOk(Next(s, Mark(t)).threads[u], s.objects, now, s.scans + [scan]) {
      assert ThreadOk(s.threads[u], s.objects, s.discovered, s.scans);
      assert u != t ==> !s.threads[u].phase.Scanning?;
      if LatchedUpTo(s.scans, s.objects, s.objects[s.threads[u].registry].id, s.threads[u].registry) {
        LatchedGrows(s.scans, s.objects, scan, s.objects[s.threads[u].registry].id, s.threads[u].registry);
      }
    }
  }

  lemma StepKeepsInv(s: State, e: Event)
    requires Inv(s) && Enabled(s, e)
    ensures Inv(Next(s, e))
  {
    hide Inv, Next, Enabled;
    match e
    case Create(id, store) => CreateKeeps(s, id, store);
    case Drop(o) => DropKeeps(s, o);
    case Call(o, enabled) => CallKeeps(s, o, enabled);
    case Advance(t) => AdvanceKeeps(s, t);
    case Mark(t) => MarkKeeps(s, t);
    case _ => PlainStepKeeps(s, e);
  }

  lemma {:induction false} RunKeepsInv(s: State, es: seq<Event>)
    requires Inv(s) && Legal(s, es)
    ensures Inv(Run(s, es))
    decreases es
  {
    if es != [] {
      StepKeepsInv(s, es[0]);
      RunKeepsInv(Next(s, es[0]), es[1..]);
    }
  }

  /* ---------- what callers may rely on ---------- */

  /** The call for `o` has been answered by a complete scan of `o` itself. */
  ghost predicate OwnScan(s: State, o: nat) {
    exists i :: 0 <= i < |s.scans| && s.scans[i].registry == o
  }

  predicate ReturnedEnabled(s: State, t: nat) {
    t < |s.threads| && s.threads[t].enabled && s.threads[t].phase == Returned && s.threads[t].registry < |s.objects|
  }

  /**
   An enabled call returns without a complete scan of its own registry exactly when that registry was stale: its
   identity was latched, when it was created, by an earlier registry that has been dropped since.
   */
  lemma UnscannedIffStale(es: seq<Event>, t: nat)
    requires Legal(Init(), es) && ReturnedEnabled(Run(Init(), es), t)
    ensures var s := Run(Init(), es); var o := s.threads[t].registry;
            && (!OwnScan(s, o) <==> s.objects[o].stale)
            && (s.objects[o].stale <==>
                exists i :: 0 <= i < |s.scans| && s.scans[i].registry < o
                            && s.objects[s.scans[i].registry].id == s.objects[o].id && !s.objects[s.scans[i].registry].live)
  {
    RunKeepsInv(Init(), es);
    var s := Run(Init(), es);
    hide Legal, Run;
    StaleOrScanned(s, t);
  }

  lemma StaleOrScanned(s: State, t: nat)
    requires Inv(s) && ReturnedEnabled(s, t)
    ensures var o := s.threads[t].registry;
            && (!OwnScan(s, o) <==> s.objects[o].stale)
            && (s.objects[o].stale <==>
                exists i :: 0 <= i < |s.scans| && s.scans[i].registry < o
                            && s.objects[s.scans[i].registry].id == s.objects[o].id && !s.objects[s.scans[i].registry].live)
  {
    var o := s.threads[t].registry;
    var i := LatchingScan(s, t);
    StaleIff(s, o);
    hide Inv, OwnerOk, ThreadsOk, ScansOk, ObjectsOk, StaleOk, LatchedUpTo;
    if s.scans[i].registry < o {
      EarlierIsDead(s, i, o);
    }
    forall j | 0 <= j < |s.scans| && (s.scans[j].registry == o || (s.scans[j].registry < o
                  && s.objects[s.scans[j].registry].id == s.objects[o].id)) ensures j == i {
      OnlyScan(s, i, j, s.objects[o].id);
    }
  }

  /** The one scan that has latched the identity of the call's registry. */
  lemma LatchingScan(s: State, t: nat) returns (i: nat)
    requires Inv(s) && ReturnedEnabled(s, t)
    ensures i < |s.scans| && s.scans[i].registry <= s.threads[t].registry
    ensures ScannedFor(s.scans[i], s.objects, s.objects[s.threads[t].registry].id)
    ensures forall j :: 0 <= j < |s.scans| ==> s.scans[j].registry < |s.objects|
  {
    hide OwnerOk, StaleOk, ObjectsOk, OneScanEach, LatchedScanned;
    ScansInRange(s.scans, s.objects, s.discovered);
    assert ThreadOk(s.threads[t], s.objects, s.discovered, s.scans);
    hide AllScansOk, ScanningOk;
    i :| 0 <= i < |s.scans| && ScannedFor(s.scans[i], s.objects, s.objects[s.threads[t].registry].id)
         && s.scans[i].registry <= s.threads[t].registry;
  }

  lemma StaleIff(s: State, o: nat)
    requires Inv(s) && o < |s.objects|
    ensures s.objects[o].stale <==>
            exists i :: 0 <= i < |s.scans| && ScannedFor(s.scans[i], s.objects, s.objects[o].id) && s.scans[i].registry < o
  {
    hide OwnerOk, ThreadsOk, ScansOk, ObjectsOk, ScannedFor;
    assert s.objects[o].stale <==> o > 0 && LatchedUpTo(s.scans, s.objects, s.objects[o].id, o - 1);
  }

  lemma EarlierIsDead(s: State, i: nat, o: nat)
    requires Inv(s) && o < |s.objects| && i < |s.scans|
    requires ScannedFor(s.scans[i], s.objects, s.objects[o].id) && s.scans[i].registry < o
    ensures !s.objects[s.scans[i].registry].live
  {
    hide OwnerOk, ThreadsOk, ScansOk, StaleOk, Keeps;
  }

  lemma OnlyScan(s: State, i: nat, j: nat, id: nat)
    requires Inv(s) && i < |s.scans| && j < |s.scans|
    requires ScannedFor(s.scans[i], s.objects, id) && ScannedFor(s.scans[j], s.objects, id)
    ensures i == j
  {
    hide OwnerOk, ThreadsOk, ObjectsOk, StaleOk, AllScansOk, LatchedScanned, ScannedFor;
  }

  /** Any other enabled call returns only after one complete scan of its registry, which holds exactly what that left. */
  lemma ReturnsAfterOneScan(es: seq<Event>, t: nat) returns (i: nat)
    requires Legal(Init(), es) && ReturnedEnabled(Run(Init(), es), t)
    requires var s := Run(Init(), es); !s.objects[s.threads[t].registry].stale
    ensures var s := Run(Init(), es); var o := s.threads[t].registry;
            && i < |s.scans| && s.scans[i].registry == o
            && (forall j :: 0 <= j < |s.scans| && s.scans[j].registry == o ==> j == i)
            && Reached(s.scans[i].before.Keys, s.scans[i].entries) == |s.scans[i].entries|
            && Keeps(s.objects[o].builtin, s.scans[i].before)
            && s.objects[o].store == s.scans[i].before + Provided(s.scans[i].before.Keys, s.scans[i].entries)
  {
    UnscannedIffStale(es, t);
    RunKeepsInv(Init(), es);
    var s := Run(Init(), es);
    var o := s.threads[t].registry;
    hide Legal, Run;
    assert OwnScan(s, o);
    i :| 0 <= i < |s.scans| && s.scans[i].registry == o;
    ScanHolds(s, i);
    forall j | 0 <= j < |s.scans| && s.scans[j].registry == o ensures j == i {
      OnlyScan(s, i, j, s.objects[o].id);
    }
  }

  lemma ScanHolds(s: State, i: nat)
    requires Inv(s) && i < |s.scans|
    ensures ScanOk(s.scans[i], s.objects, s.discovered)
  {
    hide OwnerOk, ThreadsOk, ObjectsOk, StaleOk, OneScanEach, LatchedScanned;
  }

  /** At every moment: at most one scan runs, and no name a registry held at first has lost its factory. */
  lemma OneScanAtATime(es: seq<Event>, t: nat, u: nat, o: nat, name: string)
    requires Legal(Init(), es)
    ensures var s := Run(Init(), es);
            && (t < |s.threads| && u < |s.threads| && s.threads[t].phase.Scanning? && s.threads[u].phase.Scanning? ==> t == u)
            && (o < |s.objects| && name in s.objects[o].builtin ==>
                  name in s.objects[o].store && s.objects[o].store[name] == s.objects[o].builtin[name])
  {
    RunKeepsInv(Init(), es);
    assert o < |Run(Init(), es).objects| ==> Keeps(Run(Init(), es).objects[o].builtin, Run(Init(), es).objects[o].store);
  }

  /* ---------- the run that goes unscanned ---------- */

  lemma RunCons(s: State, e: Event, es: seq<Event>)
    requires Enabled(s, e) && Legal(Next(s, e), es)
    ensures Legal(s, [e] + es) && Run(s, [e] + es) == Run(Next(s, e), es)
  {
    hide Next, Enabled;
    var all := [e] + es;
    assert all[0] == e && all[1..] == es;
  }

  lemma {:induction false} RunAppend(s: State, es: seq<Event>, fs: seq<Event>)
    requires Legal(s, es) && Legal(Run(s, es), fs)
    ensures Legal(s, es + fs) && Run(s, es + fs) == Run(Run(s, es), fs)
    decreases es
  {
    hide Next, Enabled;
    if es == [] {
      assert es + fs == fs;
    } else {
      assert (es + fs)[1..] == es[1..] + fs;
      RunAppend(Next(s, es[0]), es[1..], fs);
    }
  }

  /** One more event at the end of a run. */
  lemma RunSnoc(s: State, es: seq<Event>, e: Event)
    requires Legal(s, es) && Enabled(Run(s, es), e)
    ensures Legal(s, es + [e]) && Run(s, es + [e]) == Next(Run(s, es), e)
  {
    hide Next, Enabled;
    RunCons(Run(s, es), e, []);
    assert [e] == [e] + [];
    RunAppend(s, es, [e]);
  }

  /** A registry is scanned, with no entry point to be found, and dropped. */
  lemma ScanAndDrop(id: nat) returns (es: seq<Event>)
    ensures Legal(Init(), es)
    ensures Run(Init(), es) == State([Thread(0, true, Returned)], [RegistryObject(id, false, map[], map[], false)], {id}, None,
                                     [Scan(0, map[], [])])
  {
    var empty := RegistryObject(id, true, map[], map[], false);
    es := [];
    RunSnoc(Init(), es, Create(id, map[]));
    es := es + [Create(id, map[])];
    assert Run(Init(), es) == State([], [empty], {}, None, []);
    RunSnoc(Init(), es, Call(0, true));
    es := es + [Call(0, true)];
    assert Run(Init(), es) == State([Thread(0, true, Called)], [empty], {}, None, []);
    es := ScanAlone(id, es);
    RunSnoc(Init(), es, Drop(0));
    es := es + [Drop(0)];
  }

  lemma ScanAlone(id: nat, es: seq<Event>) returns (es': seq<Event>)
    requires Legal(Init(), es)
    requires Run(Init(), es) == State([Thread(0, true, Called)], [RegistryObject(id, true, map[], map[], false)], {}, None, [])
    ensures Legal(Init(), es')
    ensures Run(Init(), es') == State([Thread(0, true, Returned)], [RegistryObject(id, true, map[], map[], false)], {id}, None,
                                      [Scan(0, map[], [])])
  {
    var empty := RegistryObject(id, true, map[], map[], false);
    RunSnoc(Init(), es, Glance(0));
    es' := es + [Glance(0)];
    assert Run(Init(), es') == State([Thread(0, true, Missed)], [empty], {}, None, []);
    RunSnoc(Init(), es', Acquire(0));
    es' := es' + [Acquire(0)];
    assert Run(Init(), es') == State([Thread(0, true, Locked)], [empty], {}, Some(0), []);
    RunSnoc(Init(), es', Recheck(0, []));
    es' := es' + [Recheck(0, [])];
    assert Run(Init(), es') == State([Thread(0, true, Scanning(map[], [], []))], [empty], {}, Some(0), []);
    RunSnoc(Init(), es', Mark(0));
    es' := es' + [Mark(0)];
    assert Run(Init(), es') == State([Thread(0, true, Marked)], [empty], {id}, Some(0), [Scan(0, map[], [])]);
    RunSnoc(Init(), es', Release(0));
    es' := es' + [Release(0)];
  }

  /** A registry created under the identity of one that was scanned and dropped is never scanned: the call just returns. */
  lemma ReusedIdentityIsNotScanned(id: nat, store: Store) returns (es: seq<Event>)
    ensures Legal(Init(), es)
    ensures var s := Run(Init(), es);
            ReturnedEnabled(s, 1) && s.threads[1].registry == 1 && s.objects[1].store == store && !OwnScan(s, 1)
  {
    es := ScanAndDrop(id);
    RunSnoc(Init(), es, Create(id, store));
    es := es + [Create(id, store)];
    RunSnoc(Init(), es, Call(1, true));
    es := es + [Call(1, true)];
    assert Run(Init(), es).threads == [Thread(0, true, Returned), Thread(1, true, Called)];
    RunSnoc(Init(), es, Glance(1));
    es := es + [Glance(1)];
    assert Run(Init(), es).scans == [Scan(0, map[], [])];
  }

  /** A call for a registry that is latched, or with discovery disabled, returns with its first look and changes nothing. */
  lemma LatchedCallsDoNotWait(s: State, t: nat)
    requires t < |s.threads| && s.threads[t].registry < |s.objects| && s.threads[t].phase == Called
    requires !s.threads[t].enabled || s.objects[s.threads[t].registry].id in s.discovered
    ensures Enabled(s, Glance(t))
    ensures Next(s, Glance(t)) == s.(threads := s.threads[t := Thread(s.threads[t].registry, s.threads[t].enabled, Returned)])
  {
  }

  /* ---------- who raises ---------- */

  /** Nothing among these entries escapes when it is loaded. */
  ghost predicate Loads(entries: seq<EntryPoint>) {
    forall i :: 0 <= i < |entries| ==> !entries[i].loaded.Escapes?
  }

  /** Nothing has raised in the call, and nothing that it still has to read will. */
  ghost predicate Calm(s: State, t: nat) {
    t < |s.threads| ==> s.threads[t].phase != Raised && (s.threads[t].phase.Scanning? ==> Loads(s.threads[t].phase.pending))
  }

  ghost predicate CalmEvent(e: Event, t: nat) {
    e != Abort(t) && (e.Recheck? && e.t == t ==> Loads(e.entries))
  }

  lemma StaysCalm(s: State, e: Event, t: nat)
    requires Enabled(s, e) && Calm(s, t) && CalmEvent(e, t)
    ensures Calm(Next(s, e), t)
  {
    if e.Advance? && e.t == t {
      assert Loads(s.threads[t].phase.pending[1..]);
    }
  }

  /** A call raises only if its own scan did: because loading one of its entries escaped, or in between two entries. */
  lemma {:induction false} RaisesOnItsOwn(s: State, es: seq<Event>, t: nat)
    requires Legal(s, es) && Calm(s, t) && t < |Run(s, es).threads| && Run(s, es).threads[t].phase == Raised
    ensures Abort(t) in es || exists e :: e in es && e.Recheck? && e.t == t && !Loads(e.entries)
    decreases es
  {
    hide Next, Enabled, Loads, Calm;
    if es == [] {
      NotRaised(s, t);
    } else if CalmEvent(es[0], t) {
      StaysCalm(s, es[0], t);
      RaisesOnItsOwn(Next(s, es[0]), es[1..], t);
    }
  }

  lemma NotRaised(s: State, t: nat)
    requires Calm(s, t) && t < |s.threads|
    ensures s.threads[t].phase != Raised
  {
  }

  /* ---------- every call comes back ---------- */

  /** How many steps a call can still take when a scan reads at most `n` entries. */
  function ThreadWork(n: nat): Thread -> nat {
    (thread: Thread) =>
      match thread.phase
      case Called => n + 5
      case Missed => n + 4
      case Locked => n + 3
      case Scanning(_, _, pending) => 2 + |pending|
      case Marked => 1
      case _ => 0
  }

  predicate ReadsAtMost(e: Event, n: nat) {
    e.Recheck? ==> |e.entries| <= n
  }

  /** Every step of a call brings it closer to its end. */
  lemma StepWorks(s: State, e: Event, n: nat)
    requires Enabled(s, e) && OwnStep(e) && ReadsAtMost(e, n)
    ensures Sum(Next(s, e).threads, ThreadWork(n)) < Sum(s.threads, ThreadWork(n))
  {
    var thread := Next(s, e).threads[e.t];
    assert Next(s, e).threads == s.threads[e.t := thread];
    assert ThreadWork(n)(thread) < ThreadWork(n)(s.threads[e.t]);
    hide Next, Enabled, ThreadWork;
    SumUpdate(s.threads, e.t, thread, ThreadWork(n));
  }

  /** Once calls stop coming, only boundedly many events remain, in any schedule. */
  lemma {:induction false} RunsAreBounded(s: State, es: seq<Event>, n: nat)
    requires Legal(s, es) && forall i :: 0 <= i < |es| ==> OwnStep(es[i]) && ReadsAtMost(es[i], n)
    ensures |es| + Sum(Run(s, es).threads, ThreadWork(n)) <= Sum(s.threads, ThreadWork(n))
    decreases es
  {
    if es != [] {
      hide Next, Enabled, ThreadWork;
      StepWorks(s, es[0], n);
      RunsAreBounded(Next(s, es[0]), es[1..], n);
    }
  }

  /** A call that has not ended, or the one that holds the lock, can always take a step: a scan that raised has let go of it. */
  lemma NoDeadlock(es: seq<Event>, t: nat) returns (e: Event)
    requires Legal(Init(), es) && t < |Run(Init(), es).threads|
    requires !Ended(Run(Init(), es).threads[t].phase)
    ensures Enabled(Run(Init(), es), e) && OwnStep(e) && ReadsAtMost(e, 0) && !e.Abort?
  {
    RunKeepsInv(Init(), es);
    var s := Run(Init(), es);
    var u := if s.threads[t].phase == Missed && s.owner.Some? then s.owner.value else t;
    hide ScansOk, StaleOk, ObjectsOk, LatchedUpTo, ScanningOk;
    assert ThreadOk(s.threads[u], s.objects, s.discovered, s.scans);
    var phase := s.threads[u].phase;
    e := if phase == Called then Glance(u)
         else if phase == Missed then Acquire(u)
         else if phase == Locked then Recheck(u, [])
         else if phase == Marked then Release(u)
         else if phase.pending == [] then Mark(u)
         else Advance(u);
  }
}
