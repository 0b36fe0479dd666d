/** Discovery of third-party agents: one scan of the entry points into a registry, and the once-per-registry latch. */
module Discovery {
  import opened Common

  datatype Factory = Factory(id: nat)

  /** What loading an entry point gives. */
  datatype Loaded =
    | Plugin(factory: Factory)
    | NotCallable
    | NoFactory   // loading raised an ordinary exception, or gave nothing
    | Escapes     // loading raised something that is not an ordinary exception

  datatype EntryPoint = EntryPoint(name: string, loaded: Loaded)

  predicate Eligible(protected: set<string>, entry: EntryPoint) {
    entry.name !in protected && entry.loaded.Plugin?
  }

  /** Protected names are skipped before they are loaded. */
  predicate Aborts(protected: set<string>, entry: EntryPoint) {
    entry.name !in protected && entry.loaded.Escapes?
  }

  /** How many entries a scan gets past: all of them, or those before the first whose loading escapes. */
  function Reached(protected: set<string>, entries: seq<EntryPoint>): (k: nat)
    ensures k <= |entries|
    ensures forall i :: 0 <= i < k ==> entries[i].name in protected || !entries[i].loaded.Escapes?
    ensures k < |entries| ==> entries[k].name !in protected && entries[k].loaded.Escapes?
  {
    if entries == [] || Aborts(protected, entries[0]) then 0 else 1 + Reached(protected, entries[1..])
  }

  /** The entries a scan gets past. */
  function Seen(protected: set<string>, entries: seq<EntryPoint>): seq<EntryPoint> {
    entries[..Reached(protected, entries)]
  }

  /** The bindings a scan layers on top of the registry. */
  function Provided(protected: set<string>, entries: seq<EntryPoint>): map<string, Factory> {
    if entries == [] then map[]
    else
      var last, before := entries[|entries| - 1], Provided(protected, entries[..|entries| - 1]);
      if Eligible(protected, last) then before[last.name := last.loaded.factory] else before
  }

  /** The registry after a scan that protects what it holds, complete or aborted. */
  function AfterScan(store: map<string, Factory>, entries: seq<EntryPoint>): map<string, Factory> {
    store + Provided(store.Keys, Seen(store.Keys, entries))
  }

  /** The registry after one scan after another. */
  function AfterScans(store: map<string, Factory>, scans: seq<seq<EntryPoint>>): map<string, Factory> {
    if scans == [] then store else AfterScan(AfterScans(store, scans[..|scans| - 1]), scans[|scans| - 1])
  }

  /** The names a scan reports, one for each registration, in the order of the entries. */
  function Names(protected: set<string>, entries: seq<EntryPoint>): seq<string> {
    if entries == [] then []
    else
      var last, before := entries[|entries| - 1], Names(protected, entries[..|entries| - 1]);
      if Eligible(protected, last) then before + [last.name] else before
  }

  /** Entry `k` is the last plugin for its name, and no built-in agent has that name. */
  predicate IsLastFor(protected: set<string>, entries: seq<EntryPoint>, k: nat) {
    && k < |entries| && entries[k].name !in protected && entries[k].loaded.Plugin?
    && (forall j :: k < j < |entries| && entries[j].name == entries[k].name ==> !entries[j].loaded.Plugin?)
  }

  /** A name is provided exactly when it is reported; no protected name is; and the last plugin to claim a name has it. */
  lemma {:induction false} LastPluginWins(protected: set<string>, entries: seq<EntryPoint>, k: nat)
    ensures Provided(protected, entries).Keys !! protected
    ensures forall n :: n in Provided(protected, entries) <==> n in Names(protected, entries)
    ensures IsLastFor(protected, entries, k) ==>
              && entries[k].name in Provided(protected, entries)
              && Provided(protected, entries)[entries[k].name] == entries[k].loaded.factory
  {
    if entries != [] {
      var n := |entries| - 1;
      LastPluginWins(protected, entries[..n], k);
      assert IsLastFor(protected, entries, k) && k < n ==> IsLastFor(protected, entries[..n], k);
    }
  }

  lemma {:induction false} LastClaim(protected: set<string>, entries: seq<EntryPoint>, name: string) returns (k: nat)
    requires name in Provided(protected, entries)
    ensures IsLastFor(protected, entries, k) && entries[k].name == name
  {
    var n := |entries| - 1;
    if Eligible(protected, entries[n]) && entries[n].name == name {
      k := n;
    } else {
      k := LastClaim(protected, entries[..n], name);
    }
  }

  /** Protecting more names removes exactly those names from what a scan provides. */
  lemma {:induction false} ProtectingRemoves(protected: set<string>, more: set<string>, entries: seq<EntryPoint>)
    ensures Provided(protected + more, entries) == Provided(protected, entries) - more
  {
    if entries != [] {
      ProtectingRemoves(protected, more, entries[..|entries| - 1]);
    }
  }

  /** Reading one more entry layers it on top when it is eligible and changes nothing otherwise. */
  lemma ReadOne(protected: set<string>, entries: seq<EntryPoint>, entry: EntryPoint)
    ensures Provided(protected, entries + [entry])
         == if Eligible(protected, entry) then Provided(protected, entries)[entry.name := entry.loaded.factory]
            else Provided(protected, entries)
    ensures Names(protected, entries + [entry])
         == if Eligible(protected, entry) then Names(protected, entries) + [entry.name] else Names(protected, entries)
  {
    assert (entries + [entry])[..|entries|] == entries;
  }

  /** Two groups of entries scanned one after the other are scanned like one: order and repetitions are kept. */
  lemma {:induction false} ScanInTwoParts(protected: set<string>, a: seq<EntryPoint>, b: seq<EntryPoint>)
    ensures Names(protected, a + b) == Names(protected, a) + Names(protected, b)
    ensures Provided(protected, a + b) == Provided(protected, a) + Provided(protected, b)
  {
    if b == [] {
      assert a + b == a;
    } else {
      var n := |b| - 1;
      ScanInTwoParts(protected, a, b[..n]);
      assert a + b == (a + b[..n]) + [b[n]] && b == b[..n] + [b[n]];
      ReadOne(protected, a + b[..n], b[n]);
      ReadOne(protected, b[..n], b[n]);
    }
  }

  /** One entry: registered and reported exactly if it is a plugin under a name that is not protected. */
  lemma OneEntry(protected: set<string>, entry: EntryPoint)
    ensures Names(protected, [entry]) == if entry.name !in protected && entry.loaded.Plugin? then [entry.name] else []
    ensures Provided(protected, [entry])
         == if entry.name !in protected && entry.loaded.Plugin? then map[entry.name := entry.loaded.factory] else map[]
  {
    assert [entry][..0] == [];
  }

  class Registry {
    var store: map<string, Factory>

    constructor ()
      ensures store == map[]
    {
      store := map[];
    }

    method Register(name: string, factory: Factory)
      modifies this
      ensures store == old(store)[name := factory]
    {
      store := store[name := factory];
    }

    /** No result when loading an entry escapes; what was registered by then stays. */
    method DiscoverAgents(protected: set<string>, entries: seq<EntryPoint>) returns (r: Option<seq<string>>)
      modifies this
      ensures r == if Reached(protected, entries) == |entries| then Some(Names(protected, entries)) else None
      ensures store == old(store) + Provided(protected, Seen(protected, entries))
      ensures forall n :: n in protected && n in old(store) ==> n in store && store[n] == old(store)[n]
    {
      var discovered := [];
      ghost var before := store;
      NothingRead(protected, entries);
      ProtectedStay(before, protected, Seen(protected, entries));
      hide Provided, Names, Reached;
      for i := 0 to |entries|
        invariant i <= Reached(protected, entries)
        invariant discovered == Names(protected, entries[..i])
        invariant store == before + Provided(protected, entries[..i])
      {
        var entry := entries[i];
        ReadNext(protected, entries, i);
        if entry.name !in protected {
          match entry.loaded
          case Escapes =>
            return None;
          case NoFactory =>
          case NotCallable =>
          case Plugin(factory) =>
            Register(entry.name, factory);
            discovered := discovered + [entry.name];
        }
      }
      assert entries[..|entries|] == entries;
      r := Some(discovered);
    }
  }

  lemma NothingRead(protected: set<string>, entries: seq<EntryPoint>)
    ensures Provided(protected, entries[..0]) == map[] && Names(protected, entries[..0]) == []
  {
  }

  /** The entry at `i`, reached: the scan stops there or reads it. */
  lemma ReadNext(protected: set<string>, entries: seq<EntryPoint>, i: nat)
    requires i < |entries| && i <= Reached(protected, entries)
    ensures Aborts(protected, entries[i]) ==> Reached(protected, entries) == i
    ensures !Aborts(protected, entries[i]) ==> i + 1 <= Reached(protected, entries)
    ensures Provided(protected, entries[..i + 1])
         == if Eligible(protected, entries[i])
            then Provided(protected, entries[..i])[entries[i].name := entries[i].loaded.factory]
            else Provided(protected, entries[..i])
    ensures Names(protected, entries[..i + 1])
         == if Eligible(protected, entries[i])
            then Names(protected, entries[..i]) + [entries[i].name]
            else Names(protected, entries[..i])
  {
    assert entries[..i + 1] == entries[..i] + [entries[i]];
    ReadOne(protected, entries[..i], entries[i]);
    hide Provided, Names;
  }

  lemma ProtectedStay(before: map<string, Factory>, protected: set<string>, entries: seq<EntryPoint>)
    ensures forall n :: n in protected && n in before ==>
              n in before + Provided(protected, entries) && (before + Provided(protected, entries))[n] == before[n]
  {
    LastPluginWins(protected, entries, 0);
  }

  class PluginLatch {
    var discovered: set<Registry>

    constructor ()
      ensures discovered == {}
    {
      discovered := {};
    }

    /** One call with no other thread about; `ok` is false when the scan was aborted, and then the latch stays open. */
    method EnsureAgentPlugins(enabled: bool, registry: Registry, entries: seq<EntryPoint>) returns (ok: bool)
      modifies this, registry
      ensures (var scans := enabled && registry !in old(discovered);
               var builtin := old(registry.store);
               var reached := Reached(builtin.Keys, entries);
               && ok == (!scans || reached == |entries|)
               && discovered == (if scans && ok then old(discovered) + {registry} else old(discovered))
               && registry.store == (if scans then AfterScan(builtin, entries) else builtin)
               && (forall n :: n in builtin ==> n in registry.store && registry.store[n] == builtin[n]))
    {
      ok := true;
      if !enabled || registry in discovered {
        return;
      }
      var protected := registry.store.Keys;
      var r := registry.DiscoverAgents(protected, entries);
      if r.None? {
        return false;
      }
      discovered := discovered + {registry};
    }
  }

  lemma LayeringIs(base: map<string, Factory>, early: map<string, Factory>, clean: map<string, Factory>)
    requires early.Keys !! base.Keys && clean.Keys !! base.Keys
    ensures (base + early) + (clean - early.Keys) == base + clean + early
    ensures base + clean + early == base + clean <==> (forall n :: n in early ==> n in clean && clean[n] == early[n])
  {
    var both := base + clean;
    forall n | n in early && both + early == both
      ensures n in clean && clean[n] == early[n]
    {
      assert n in both + early;
    }
    if forall n :: n in early ==> n in clean && clean[n] == early[n] {
      assert both + early == both;
    }
  }

  /** What the scans have layered on top of the built-in bindings. */
  function Early(builtin: map<string, Factory>, scans: seq<seq<EntryPoint>>): map<string, Factory> {
    if scans == [] then map[]
    else
      var rest, last := scans[..|scans| - 1], scans[|scans| - 1];
      var held := AfterScans(builtin, rest);
      Early(builtin, rest) + Provided(held.Keys, Seen(held.Keys, last))
  }

  lemma {:induction false} EarlyIs(builtin: map<string, Factory>, scans: seq<seq<EntryPoint>>)
    ensures AfterScans(builtin, scans) == builtin + Early(builtin, scans)
    ensures Early(builtin, scans).Keys !! builtin.Keys
  {
    if scans != [] {
      var rest, last := scans[..|scans| - 1], scans[|scans| - 1];
      EarlyIs(builtin, rest);
      var held := AfterScans(builtin, rest);
      NothingProtected(held.Keys, Seen(held.Keys, last));
      hide Provided, Seen, Reached;
      Layers(builtin, Early(builtin, rest), Provided(held.Keys, Seen(held.Keys, last)));
    }
  }

  lemma Layers(a: map<string, Factory>, b: map<string, Factory>, c: map<string, Factory>)
    ensures (a + b) + c == a + (b + c)
    ensures (a + b).Keys == a.Keys + b.Keys
  {
  }

  lemma NothingProtected(protected: set<string>, entries: seq<EntryPoint>)
    ensures Provided(protected, entries).Keys !! protected
  {
    LastPluginWins(protected, entries, 0);
  }

  lemma LastHas(protected: set<string>, entries: seq<EntryPoint>, k: nat)
    requires IsLastFor(protected, entries, k)
    ensures entries[k].name in Provided(protected, entries)
    ensures Provided(protected, entries)[entries[k].name] == entries[k].loaded.factory
  {
    LastPluginWins(protected, entries, k);
  }

  /** More protected names abort no scan that did not abort without them. */
  lemma {:induction false} ProtectingAbortsLess(protected: set<string>, more: set<string>, entries: seq<EntryPoint>)
    requires protected <= more && Reached(protected, entries) == |entries|
    ensures Reached(more, entries) == |entries|
  {
    if entries != [] {
      ProtectingAbortsLess(protected, more, entries[1..]);
    }
  }

  predicate Within(part: map<string, Factory>, whole: map<string, Factory>) {
    forall n :: n in part ==> n in whole && whole[n] == part[n]
  }

  /** The scan `entries` gives the claim's name to the very same plugin. */
  ghost predicate Confirms(protected: set<string>, entries: seq<EntryPoint>, claim: EntryPoint) {
    exists j: nat :: IsLastFor(protected, entries, j) && entries[j] == claim
  }

  /** Every name the entries of `part` get is confirmed by `entries`. */
  ghost predicate AllConfirmed(held: set<string>, part: seq<EntryPoint>, protected: set<string>, entries: seq<EntryPoint>) {
    forall k: nat :: IsLastFor(held, part, k) ==> Confirms(protected, entries, part[k])
  }

  /** The bindings of one scan are within those of another exactly when each of its last claims is confirmed there. */
  lemma WithinIffConfirmed(held: set<string>, part: seq<EntryPoint>, protected: set<string>, entries: seq<EntryPoint>)
    ensures Within(Provided(held, part), Provided(protected, entries)) <==> AllConfirmed(held, part, protected, entries)
  {
    hide Provided;
    if Within(Provided(held, part), Provided(protected, entries)) {
      forall k: nat | IsLastFor(held, part, k) ensures Confirms(protected, entries, part[k]) {
        ClaimConfirmed(held, part, protected, entries, k);
      }
    }
    if AllConfirmed(held, part, protected, entries) {
      forall n | n in Provided(held, part)
        ensures n in Provided(protected, entries) && Provided(protected, entries)[n] == Provided(held, part)[n]
      {
        NameWithin(held, part, protected, entries, n);
      }
    }
  }

  lemma ClaimConfirmed(held: set<string>, part: seq<EntryPoint>, protected: set<string>, entries: seq<EntryPoint>, k: nat)
    requires Within(Provided(held, part), Provided(protected, entries)) && IsLastFor(held, part, k)
    ensures Confirms(protected, entries, part[k])
  {
    hide Provided;
    LastHas(held, part, k);
    var j := LastClaim(protected, entries, part[k].name);
    LastHas(protected, entries, j);
    assert entries[j] == part[k];
  }

  lemma NameWithin(held: set<string>, part: seq<EntryPoint>, protected: set<string>, entries: seq<EntryPoint>, n: string)
    requires AllConfirmed(held, part, protected, entries) && n in Provided(held, part)
    ensures n in Provided(protected, entries) && Provided(protected, entries)[n] == Provided(held, part)[n]
  {
    hide Provided;
    var k := LastClaim(held, part, n);
    LastHas(held, part, k);
    assert Confirms(protected, entries, part[k]);
    var j: nat :| IsLastFor(protected, entries, j) && entries[j] == part[k];
    LastHas(protected, entries, j);
  }

  /** Every name an aborted scan gave away before it was aborted is confirmed by the entries of the retry. */
  ghost predicate EarlyClaimsConfirmed(builtin: map<string, Factory>, aborted: seq<seq<EntryPoint>>, entries: seq<EntryPoint>) {
    forall m :: 0 <= m < |aborted| ==> ClaimsConfirmed(builtin, aborted, m, entries)
  }

  ghost predicate ClaimsConfirmed(builtin: map<string, Factory>, aborted: seq<seq<EntryPoint>>, m: nat, entries: seq<EntryPoint>)
    requires m < |aborted|
  {
    var held := AfterScans(builtin, aborted[..m]).Keys;
    AllConfirmed(held, Seen(held, aborted[m]), builtin.Keys, entries)
  }

  lemma {:induction false} EarlyWithin(builtin: map<string, Factory>, aborted: seq<seq<EntryPoint>>, entries: seq<EntryPoint>)
    ensures Within(Early(builtin, aborted), Provided(builtin.Keys, entries)) <==> EarlyClaimsConfirmed(builtin, aborted, entries)
  {
    hide AllConfirmed, Provided, AfterScans, Seen, Reached;
    if aborted != [] {
      var n := |aborted| - 1;
      var rest := aborted[..n];
      var held := AfterScans(builtin, rest);
      var now := Provided(held.Keys, Seen(held.Keys, aborted[n]));
      EarlyWithin(builtin, rest, entries);
      EarlyIs(builtin, rest);
      Layers(builtin, Early(builtin, rest), now);
      NothingProtected(held.Keys, Seen(held.Keys, aborted[n]));
      WithinIffConfirmed(held.Keys, Seen(held.Keys, aborted[n]), builtin.Keys, entries);
      DisjointWithin(Early(builtin, rest), now, Provided(builtin.Keys, entries));
      hide Within;
      ClaimsSnoc(builtin, aborted, entries);
    }
  }

  lemma ClaimsSnoc(builtin: map<string, Factory>, aborted: seq<seq<EntryPoint>>, entries: seq<EntryPoint>)
    requires aborted != []
    ensures EarlyClaimsConfirmed(builtin, aborted, entries) <==>
            && EarlyClaimsConfirmed(builtin, aborted[..|aborted| - 1], entries)
            && ClaimsConfirmed(builtin, aborted, |aborted| - 1, entries)
  {
    var rest := aborted[..|aborted| - 1];
    forall m | 0 <= m < |rest| ensures ClaimsConfirmed(builtin, aborted, m, entries) <==> ClaimsConfirmed(builtin, rest, m, entries) {
      assert rest[..m] == aborted[..m];
    }
    hide ClaimsConfirmed;
  }

  lemma DisjointWithin(a: map<string, Factory>, b: map<string, Factory>, whole: map<string, Factory>)
    requires a.Keys !! b.Keys
    ensures Within(a + b, whole) <==> Within(a, whole) && Within(b, whole)
  {
    if Within(a + b, whole) {
      forall n | n in a ensures n in whole && whole[n] == a[n] {
        assert n in a + b && (a + b)[n] == a[n];
      }
      forall n | n in b ensures n in whole && whole[n] == b[n] {
        assert n in a + b;
      }
    }
  }

  /**
   After any number of aborted scans the next scan takes what they registered for built-in. It leaves the registry as a
   scan without any abort before it would exactly when each name they gave away, entry by entry, goes to the very same
   plugin in the entries of the retry: otherwise the last plugin to claim a name does not win.
   */
  lemma RetryAfterAborts(builtin: map<string, Factory>, aborted: seq<seq<EntryPoint>>, entries: seq<EntryPoint>)
    requires Reached(builtin.Keys, entries) == |entries|
    ensures var held := AfterScans(builtin, aborted);
            && Reached(held.Keys, entries) == |entries|
            && (AfterScan(held, entries) == AfterScan(builtin, entries) <==> EarlyClaimsConfirmed(builtin, aborted, entries))
  {
    var early, held := Early(builtin, aborted), AfterScans(builtin, aborted);
    EarlyIs(builtin, aborted);
    EarlyWithin(builtin, aborted, entries);
    assert held.Keys == builtin.Keys + early.Keys;
    ProtectingAbortsLess(builtin.Keys, held.Keys, entries);
    ProtectingRemoves(builtin.Keys, early.Keys, entries);
    LastPluginWins(builtin.Keys, entries, 0);
    assert entries[..|entries|] == entries;
    LayeringIs(builtin, early, Provided(builtin.Keys, entries));
  }

  /** Two plugins claim one name and an entry between them aborts the first scan: the retry keeps the first of the two,
      though the last should win. */
  lemma AbortedScanKeepsTheFirst() returns (entries: seq<EntryPoint>, repaired: seq<EntryPoint>)
    ensures Reached({}, entries) == 1 && Reached({}, repaired) == |repaired|
    ensures AfterScan(AfterScan(map[], entries), repaired) != AfterScan(map[], repaired)
  {
    var first, last := EntryPoint("a", Plugin(Factory(0))), EntryPoint("a", Plugin(Factory(1)));
    var broken, fixed := EntryPoint("b", Escapes), EntryPoint("b", NoFactory);
    entries, repaired := [first] + [broken, last], [first, fixed] + [last];
    assert entries[1..] == [broken, last];
    assert repaired[1..] == [fixed, last] && [fixed, last][1..] == [last] && [last][1..] == [];
    assert Seen({}, entries) == [first] && Seen({}, repaired) == repaired;
    LastHas({}, [first], 0);
    LastHas({}, repaired, 2);
    hide Provided;
    var early := AfterScan(map[], entries);
    assert early["a"] == Factory(0);
    assert AfterScan(map[], repaired)["a"] == Factory(1);
    NothingProtected(early.Keys, Seen(early.Keys, repaired));
    assert AfterScan(early, repaired)["a"] == Factory(0);
  }
}
