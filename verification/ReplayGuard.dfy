/**
 The bounded window of recently seen signal ids (`ReplayGuard`) and the refcounted table of
 per-key locks (`_PerKeyLock`), each as a class proved against functions on plain values.
 The emit protocol uses the same functions.
 */
module ReplayGuards {
  import opened Common

  type Id = string

  /* ---------- the window of remembered ids, oldest first ---------- */

  /** The window after reserving `x`: a repeat changes nothing, a fresh id may push the oldest out. */
  function Reserve(w: seq<Id>, cap: nat, x: Id): seq<Id> {
    if x in w then w
    else if |w| + 1 > cap then (w + [x])[1..]
    else w + [x]
  }

  /** The id pushed out by reserving `x`, if any. */
  function PushedOut(w: seq<Id>, cap: nat, x: Id): Option<Id> {
    if x !in w && |w| + 1 > cap then Some((w + [x])[0]) else None
  }

  /** The window after giving `x` back; a no-op when `x` is not there. */
  function Unreserve(w: seq<Id>, x: Id): seq<Id> {
    if w == [] then []
    else if w[0] == x then w[1..]
    else [w[0]] + Unreserve(w[1..], x)
  }

  ghost predicate WindowOk(w: seq<Id>, cap: nat) {
    1 <= cap && Distinct(w) && |w| <= cap
  }

  lemma {:induction false} UnreserveMembers(w: seq<Id>, x: Id)
    requires Distinct(w)
    ensures Distinct(Unreserve(w, x)) && |Unreserve(w, x)| <= |w|
    ensures forall y :: y in Unreserve(w, x) <==> y in w && y != x
  {
    if w != [] {
      assert w == [w[0]] + w[1..];
      if w[0] != x {
        UnreserveMembers(w[1..], x);
        var r := Unreserve(w[1..], x);
        assert w[0] !in r;
        assert forall y :: y in [w[0]] + r <==> y == w[0] || y in r;
      }
    }
  }

  /** What reserving does to membership: the id itself always survives its own insertion. */
  lemma ReserveMembers(w: seq<Id>, cap: nat, x: Id)
    requires WindowOk(w, cap)
    ensures WindowOk(Reserve(w, cap, x), cap)
    ensures x in Reserve(w, cap, x)
    ensures PushedOut(w, cap, x).Some? ==> PushedOut(w, cap, x).value in w && PushedOut(w, cap, x).value != x
    ensures forall y :: y in Reserve(w, cap, x) <==>
                        (y in w || y == x) && PushedOut(w, cap, x) != Some(y)
  {
    if x !in w {
      var all := w + [x];
      assert forall y :: y in all <==> y in w || y == x;
      if |w| + 1 > cap {
        assert all == [all[0]] + all[1..];
        assert all[|all| - 1] == x;
        assert all[0] == w[0];
        assert forall y :: y in all[1..] <==> y in all && y != all[0];
      }
    }
  }

  /* ---------- the guard itself ---------- */

  class ReplayGuard {
    const maxEntries: nat
    var entries: seq<Id>

    ghost predicate Valid()
      reads this
    {
      WindowOk(entries, maxEntries)
    }

    constructor (maxEntries: nat)
      requires 1 <= maxEntries
      ensures Valid() && this.maxEntries == maxEntries && entries == []
    {
      this.maxEntries := maxEntries;
      entries := [];
    }

    method Seen(signalId: Id) returns (replay: bool)
      requires Valid()
      modifies this
      ensures Valid()
      ensures replay <==> signalId in old(entries)
      ensures entries == Reserve(old(entries), maxEntries, signalId)
    {
      ReserveMembers(entries, maxEntries, signalId);
      if signalId in entries {
        return true;
      }
      entries := entries + [signalId];
      if |entries| > maxEntries {
        entries := entries[1..];
      }
      return false;
    }

    method Release(signalId: Id)
      requires Valid()
      modifies this
      ensures Valid()
      ensures entries == Unreserve(old(entries), signalId)
      ensures signalId !in entries
      ensures forall y :: y != signalId ==> (y in entries <==> y in old(entries))
    {
      UnreserveMembers(entries, signalId);
      entries := Unreserve(entries, signalId);
    }
  }

  /** A useless bound is refused instead of producing a guard. */
  method NewReplayGuard(maxEntries: int) returns (r: Result<ReplayGuard, string>)
    ensures r.Success? <==> 1 <= maxEntries
    ensures r.Success? ==> fresh(r.value) && r.value.Valid() && r.value.entries == [] && r.value.maxEntries == maxEntries
  {
    if maxEntries < 1 {
      return Failure("max_entries must be >= 1");
    }
    var guard := new ReplayGuard(maxEntries);
    return Success(guard);
  }

  /* ---------- whole histories of guard calls ---------- */

  datatype GuardOp = See(id: Id) | GiveBack(id: Id)

  function ApplyOp(w: seq<Id>, cap: nat, op: GuardOp): seq<Id> {
    match op
    case See(x) => Reserve(w, cap, x)
    case GiveBack(x) => Unreserve(w, x)
  }

  function ApplyOps(w: seq<Id>, cap: nat, ops: seq<GuardOp>): seq<Id>
    decreases ops
  {
    if ops == [] then w else ApplyOps(ApplyOp(w, cap, ops[0]), cap, ops[1..])
  }

  /** How many calls in `ops` reserved an id that was not remembered at that moment. */
  function FreshReservations(w: seq<Id>, cap: nat, ops: seq<GuardOp>): nat
    decreases ops
  {
    if ops == [] then 0
    else (if ops[0].See? && ops[0].id !in w then 1 else 0)
         + FreshReservations(ApplyOp(w, cap, ops[0]), cap, ops[1..])
  }

  lemma ApplyOpOk(w: seq<Id>, cap: nat, op: GuardOp)
    requires WindowOk(w, cap)
    ensures WindowOk(ApplyOp(w, cap, op), cap)
  {
    match op
    case See(x) => ReserveMembers(w, cap, x);
    case GiveBack(x) => UnreserveMembers(w, x);
  }

  /** Memory stays bounded over every history of calls, and an id is never remembered twice. */
  lemma {:induction false} WindowStaysBounded(w: seq<Id>, cap: nat, ops: seq<GuardOp>)
    requires WindowOk(w, cap)
    ensures WindowOk(ApplyOps(w, cap, ops), cap)
    decreases ops
  {
    if ops != [] {
      ApplyOpOk(w, cap, ops[0]);
      WindowStaysBounded(ApplyOp(w, cap, ops[0]), cap, ops[1..]);
    }
  }

  /** The number of ids remembered after `x`; reservations push `x` towards the front, nothing else does. */
  function Younger(w: seq<Id>, x: Id): nat {
    if w == [] then 0 else if w[0] == x then |w| - 1 else Younger(w[1..], x)
  }

  lemma {:induction false} YoungerOf(w: seq<Id>, x: Id, i: nat)
    requires Distinct(w) && i < |w| && w[i] == x
    ensures Younger(w, x) == |w| - 1 - i
  {
    if i > 0 {
      assert w[0] != x;
      YoungerOf(w[1..], x, i - 1);
    }
  }

  lemma {:induction false} YoungerUnreserve(w: seq<Id>, x: Id, y: Id)
    requires Distinct(w) && x in w && x != y
    ensures Younger(Unreserve(w, y), x) <= Younger(w, x)
  {
    UnreserveMembers(w[1..], y);
    if w[0] == x {
      assert |Unreserve(w[1..], y)| <= |w[1..]|;
      assert Unreserve(w, y)[0] == x;
    } else {
      assert w == [w[0]] + w[1..];
      if w[0] != y {
        YoungerUnreserve(w[1..], x, y);
        assert ([w[0]] + Unreserve(w[1..], y))[1..] == Unreserve(w[1..], y);
      }
    }
  }

  lemma YoungerReserve(w: seq<Id>, cap: nat, x: Id, y: Id)
    requires WindowOk(w, cap) && x in w
    ensures y in w ==> Reserve(w, cap, y) == w
    ensures y !in w && x in Reserve(w, cap, y) ==> Younger(Reserve(w, cap, y), x) == Younger(w, x) + 1
    ensures y !in w ==> (x !in Reserve(w, cap, y) <==> Younger(w, x) + 1 == cap)
  {
    ReserveMembers(w, cap, y);
    if y !in w {
      var i :| 0 <= i < |w| && w[i] == x;
      YoungerOf(w, x, i);
      var r := Reserve(w, cap, y);
      if |w| + 1 > cap {
        if i > 0 {
          assert r[i - 1] == x;
          YoungerOf(r, x, i - 1);
        } else {
          assert PushedOut(w, cap, y) == Some(x);
        }
      } else {
        assert r[i] == x;
        YoungerOf(r, x, i);
      }
    }
  }

  ghost predicate NeverGivenBack(ops: seq<GuardOp>, x: Id) {
    forall i :: 0 <= i < |ops| ==> ops[i] != GiveBack(x)
  }

  /** A remembered id that is not given back stays while fewer than `cap` fresh ids come after it. */
  lemma {:induction false} StaysWhileFewFresh(w: seq<Id>, cap: nat, x: Id, ops: seq<GuardOp>)
    requires WindowOk(w, cap) && x in w && NeverGivenBack(ops, x)
    requires Younger(w, x) + FreshReservations(w, cap, ops) < cap
    ensures x in ApplyOps(w, cap, ops)
    decreases ops
  {
    if ops != [] {
      var op := ops[0];
      var w' := ApplyOp(w, cap, op);
      ApplyOpOk(w, cap, op);
      match op {
        case See(y) =>
          YoungerReserve(w, cap, x, y);
        case GiveBack(y) =>
          UnreserveMembers(w, y);
          YoungerUnreserve(w, x, y);
      }
      StaysWhileFewFresh(w', cap, x, ops[1..]);
    }
  }

  /**
   A just-reserved id is forgotten only after at least `cap` later fresh reservations, whatever else
   is replayed or given back in between: replays neither extend nor shorten its stay.
   */
  lemma {:induction false} EvictedOnlyAfterCapFresh(w: seq<Id>, cap: nat, x: Id, ops: seq<GuardOp>)
    requires WindowOk(w, cap) && x !in w && NeverGivenBack(ops, x)
    requires x !in ApplyOps(Reserve(w, cap, x), cap, ops)
    ensures cap <= FreshReservations(Reserve(w, cap, x), cap, ops)
  {
    var r := Reserve(w, cap, x);
    ReserveMembers(w, cap, x);
    assert r[|r| - 1] == x;
    YoungerOf(r, x, |r| - 1);
    if FreshReservations(r, cap, ops) < cap {
      StaysWhileFewFresh(r, cap, x, ops);
    }
  }

  ghost predicate OnlySees(ops: seq<GuardOp>) {
    forall i :: 0 <= i < |ops| ==> ops[i].See?
  }

  /** `x` is remembered now and after every one of the calls. */
  ghost predicate StaysThroughout(w: seq<Id>, cap: nat, x: Id, ops: seq<GuardOp>) {
    forall k :: 0 <= k <= |ops| ==> x in ApplyOps(w, cap, ops[..k])
  }

  lemma StaysThroughoutCons(w: seq<Id>, cap: nat, x: Id, ops: seq<GuardOp>)
    requires ops != []
    ensures StaysThroughout(w, cap, x, ops) <==> x in w && StaysThroughout(ApplyOp(w, cap, ops[0]), cap, x, ops[1..])
  {
    var w', rest := ApplyOp(w, cap, ops[0]), ops[1..];
    assert ApplyOps(w, cap, ops[..0]) == w;
    forall k | 0 <= k <= |rest| ensures ApplyOps(w', cap, rest[..k]) == ApplyOps(w, cap, ops[..k + 1]) {
      assert ops[..k + 1][1..] == rest[..k];
    }
    forall k | 0 < k <= |ops| && StaysThroughout(w', cap, x, rest) ensures x in ApplyOps(w, cap, ops[..k]) {
      assert x in ApplyOps(w', cap, rest[..k - 1]);
    }
  }

  /**
   With nothing given back the stay is exact, whatever is replayed, the id itself included: it is remembered
   throughout if and only if fewer fresh ids than its distance from the exit follow. A replay cannot keep it alive.
   */
  lemma {:induction false} StayIsExact(w: seq<Id>, cap: nat, x: Id, ops: seq<GuardOp>)
    requires WindowOk(w, cap) && x in w && OnlySees(ops)
    ensures StaysThroughout(w, cap, x, ops) <==> Younger(w, x) + FreshReservations(w, cap, ops) < cap
    decreases ops
  {
    YoungerInside(w, x);
    if ops == [] {
      assert forall k :: 0 <= k <= |ops| ==> ops[..k] == [];
    } else {
      StaysThroughoutCons(w, cap, x, ops);
      ApplyOpOk(w, cap, ops[0]);
      YoungerReserve(w, cap, x, ops[0].id);
      var w' := ApplyOp(w, cap, ops[0]);
      if x in w' {
        StayIsExact(w', cap, x, ops[1..]);
      } else {
        assert ApplyOps(w', cap, ops[1..][..0]) == w';
      }
    }
  }

  lemma YoungerInside(w: seq<Id>, x: Id)
    requires Distinct(w) && x in w
    ensures Younger(w, x) < |w|
  {
    var i :| 0 <= i < |w| && w[i] == x;
    YoungerOf(w, x, i);
  }

  /* ---------- the table of per-key locks ---------- */

  /** One row of the table: the lock its users share, and how many are inside `hold`. */
  datatype LockEntry<L> = LockEntry(lock: L, holders: nat)

  /** The lock a caller entering `hold(key)` will use; `spare` is the lock created for the miss. */
  function LockFor<L>(table: map<Id, LockEntry<L>>, key: Id, spare: L): L {
    if key in table then table[key].lock else spare
  }

  function HolderCount<L>(table: map<Id, LockEntry<L>>, key: Id): nat {
    if key in table then table[key].holders else 0
  }

  function EnterTable<L>(table: map<Id, LockEntry<L>>, key: Id, spare: L): map<Id, LockEntry<L>> {
    table[key := LockEntry(LockFor(table, key, spare), HolderCount(table, key) + 1)]
  }

  function LeaveTable<L>(table: map<Id, LockEntry<L>>, key: Id): map<Id, LockEntry<L>>
    requires key in table
  {
    if table[key].holders <= 1 then table - {key}
    else table[key := LockEntry(table[key].lock, table[key].holders - 1)]
  }

  class AsyncLock {
    constructor () {}
  }

  class PerKeyLock {
    var locks: map<Id, LockEntry<AsyncLock>>

    constructor ()
      ensures locks == map[]
    {
      locks := map[];
    }

    /** The part of `hold` before its first suspension. */
    method Enter(key: Id) returns (lock: AsyncLock, spare: AsyncLock)
      modifies this
      ensures fresh(spare)
      ensures lock == LockFor(old(locks), key, spare)
      ensures locks == EnterTable(old(locks), key, spare)
    {
      spare := new AsyncLock();
      var entry := if key in locks then locks[key] else LockEntry(spare, 0);
      lock := entry.lock;
      locks := locks[key := LockEntry(lock, entry.holders + 1)];
    }

    /** The `finally` part of `hold`. */
    method Leave(key: Id)
      requires key in locks
      modifies this
      ensures locks == LeaveTable(old(locks), key)
    {
      var entry := locks[key];
      if entry.holders <= 1 {
        locks := locks - {key};
      } else {
        locks := locks[key := LockEntry(entry.lock, entry.holders - 1)];
      }
    }
  }
}
