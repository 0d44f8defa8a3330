/** The mutexes of the scheduler: one for the status and one for the dependents of every
    transaction. Two operations take the dependents lock of one transaction and the
    status lock of a higher one in opposite orders; this module proves that they never
    wait for each other in a circle all the same. */
module Locks {
  import opened Types

  datatype Lock = StatusLock(tx: nat) | DependentsLock(tx: nat)

  /** Where a worker stands inside an operation. Want names the lock it asks for next,
      Inside means that it holds all it needs for now. */
  datatype Pc =
    | Outside
    // Looking at or changing one status: most operations.
    | WantOne(t: nat)
    | InsideOne(t: nat)
    // add_dependency: t waits for the transaction on.
    | WantBlocking(t: nat, on: nat)
    | InsideBlocking(t: nat, on: nat)
    | WantBlocked(t: nat, on: nat)
    | WantBlockingList(t: nat, on: nat)
    | InsideBlockingList(t: nat, on: nat)
    // finish_execution of t: wake the dependents one by one.
    | WantFinished(t: nat)
    | WantFinishedList(t: nat)
    | InsideFinishedList(t: nat, wake: seq<nat>)
    | WantDependent(t: nat, wake: seq<nat>)
    | InsideDependent(t: nat, wake: seq<nat>)

  /** Guards live until the end of the operation, those on dependents only for one turn
      of the loop. */
  predicate Holds(pc: Pc, l: Lock) {
    match pc
    case InsideOne(t) => l == StatusLock(t)
    case InsideBlocking(_, on) => l == StatusLock(on)
    case WantBlocked(_, on) => l == StatusLock(on)
    case WantBlockingList(t, on) => l == StatusLock(on) || l == StatusLock(t)
    case InsideBlockingList(t, on) => l == StatusLock(on) || l == StatusLock(t) || l == DependentsLock(on)
    case WantFinishedList(t) => l == StatusLock(t)
    case InsideFinishedList(t, _) => l == StatusLock(t) || l == DependentsLock(t)
    case WantDependent(t, _) => l == StatusLock(t) || l == DependentsLock(t)
    case InsideDependent(t, wake) => l == StatusLock(t) || l == DependentsLock(t) || (wake != [] && l == StatusLock(wake[0]))
    case _ => false
  }

  function Wants(pc: Pc): Option<Lock> {
    match pc
    case WantOne(t) => Some(StatusLock(t))
    case WantBlocking(_, on) => Some(StatusLock(on))
    case WantBlocked(t, _) => Some(StatusLock(t))
    case WantBlockingList(_, on) => Some(DependentsLock(on))
    case WantFinished(t) => Some(StatusLock(t))
    case WantFinishedList(t) => Some(DependentsLock(t))
    case WantDependent(_, wake) => if wake == [] then None else Some(StatusLock(wake[0]))
    case _ => None
  }

  /** A transaction only waits for a lower one, so dependents are higher. */
  predicate Ordered(pc: Pc) {
    match pc
    case WantBlocking(t, on) => on < t
    case InsideBlocking(t, on) => on < t
    case WantBlocked(t, on) => on < t
    case WantBlockingList(t, on) => on < t
    case InsideBlockingList(t, on) => on < t
    case InsideFinishedList(t, wake) => forall d :: d in wake ==> t < d
    case WantDependent(t, wake) => wake != [] && forall d :: d in wake ==> t < d
    case InsideDependent(t, wake) => wake != [] && forall d :: d in wake ==> t < d
    case _ => true
  }

  /** What a worker may do next, once it has the lock it wants, if any. */
  predicate Next(pc: Pc, pc': Pc) {
    match pc
    case Outside => pc'.WantOne? || (pc'.WantBlocking? && Ordered(pc')) || pc'.WantFinished?
    case WantOne(t) => pc' == InsideOne(t)
    case InsideOne(_) => pc' == Outside
    case WantBlocking(t, on) => pc' == InsideBlocking(t, on)
    // The blocking transaction may be done by now.
    case InsideBlocking(t, on) => pc' == Outside || pc' == WantBlocked(t, on)
    case WantBlocked(t, on) => pc' == WantBlockingList(t, on)
    case WantBlockingList(t, on) => pc' == InsideBlockingList(t, on)
    case InsideBlockingList(_, _) => pc' == Outside
    case WantFinished(t) => pc' == WantFinishedList(t)
    // The list read under both locks holds higher transactions only.
    case WantFinishedList(t) => pc'.InsideFinishedList? && pc'.t == t && Ordered(pc')
    case InsideFinishedList(t, wake) => if wake == [] then pc' == Outside else pc' == WantDependent(t, wake)
    case WantDependent(t, wake) => pc' == InsideDependent(t, wake)
    case InsideDependent(t, wake) => wake != [] && pc' == InsideFinishedList(t, wake[1..])
  }

  predicate Free(pcs: seq<Pc>, l: Lock) {
    forall v :: 0 <= v < |pcs| ==> !Holds(pcs[v], l)
  }

  predicate CanMove(pcs: seq<Pc>, w: nat) {
    w < |pcs| && (Wants(pcs[w]).Some? ==> Free(pcs, Wants(pcs[w]).value))
  }

  ghost predicate Step(pcs: seq<Pc>, pcs': seq<Pc>) {
    exists w: nat, pc :: CanMove(pcs, w) && Next(pcs[w], pc) && pcs' == pcs[w := pc]
  }

  ghost predicate IsRun(run: seq<seq<Pc>>) {
    && run != []
    && (forall w :: 0 <= w < |run[0]| ==> run[0][w] == Outside)
    && forall k :: 0 <= k < |run| - 1 ==> Step(run[k], run[k + 1])
  }

  ghost predicate Reachable(pcs: seq<Pc>) {
    exists run :: IsRun(run) && run[|run| - 1] == pcs
  }

  // ---------- Invariant ----------

  /** Mutexes exclude each other, and operations are on ordered transactions. */
  ghost predicate Exclusive(pcs: seq<Pc>) {
    && (forall w :: 0 <= w < |pcs| ==> Ordered(pcs[w]))
    && forall v, w, l :: 0 <= v < |pcs| && 0 <= w < |pcs| && Holds(pcs[v], l) && Holds(pcs[w], l) ==> v == w
  }

  /** A step acquires at most the lock that was wanted. */
  lemma NextHolds(pc: Pc, pc': Pc, l: Lock)
    requires Next(pc, pc') && Holds(pc', l) && Ordered(pc)
    ensures Holds(pc, l) || Wants(pc) == Some(l)
  {
  }

  lemma StaysOrdered(pc: Pc, pc': Pc)
    requires Next(pc, pc') && Ordered(pc)
    ensures Ordered(pc')
  {
    if pc.InsideDependent? {
      assert forall d :: d in pc.wake[1..] ==> d in pc.wake;
    }
  }

  lemma StepKeepsExclusive(pcs: seq<Pc>, pcs': seq<Pc>)
    requires Exclusive(pcs) && Step(pcs, pcs')
    ensures Exclusive(pcs')
  {
    var w: nat, pc :| CanMove(pcs, w) && Next(pcs[w], pc) && pcs' == pcs[w := pc];
    StaysOrdered(pcs[w], pc);
    forall u, v, l | 0 <= u < |pcs'| && 0 <= v < |pcs'| && Holds(pcs'[u], l) && Holds(pcs'[v], l) ensures u == v {
      if u == w { NextHolds(pcs[w], pc, l); }
      if v == w { NextHolds(pcs[w], pc, l); }
    }
  }

  lemma {:induction false} RunExclusive(run: seq<seq<Pc>>, k: nat)
    requires IsRun(run) && k < |run|
    ensures Exclusive(run[k])
  {
    if k > 0 {
      RunExclusive(run, k - 1);
      assert Step(run[k - 1], run[k - 1 + 1]);
      StepKeepsExclusive(run[k - 1], run[k]);
    }
  }

  // ---------- No circle ----------

  /** The gate: whoever holds or wants a dependents lock holds the status lock of the
      same transaction, so nobody ever has to wait for a dependents lock. */
  lemma DependentsAreGated(pcs: seq<Pc>, v: nat, w: nat, t: nat)
    requires Exclusive(pcs) && v < |pcs| && w < |pcs|
    requires Wants(pcs[w]) == Some(DependentsLock(t))
    ensures !Holds(pcs[v], DependentsLock(t))
  {
    assert Holds(pcs[w], StatusLock(t));
    if Holds(pcs[v], DependentsLock(t)) {
      assert Holds(pcs[v], StatusLock(t));
    }
  }

  /** Status locks are taken in ascending order. */
  lemma StatusAscends(pc: Pc, held: nat, wanted: nat)
    requires Ordered(pc) && Holds(pc, StatusLock(held)) && Wants(pc) == Some(StatusLock(wanted))
    ensures held < wanted
  {
    if pc.WantDependent? {
      assert pc.wake[0] in pc.wake;
    }
  }

  predicate WaitsFor(pcs: seq<Pc>, w: nat, v: nat) {
    w < |pcs| && v < |pcs| && Wants(pcs[w]).Some? && Holds(pcs[v], Wants(pcs[w]).value)
  }

  predicate WantsStatus(pcs: seq<Pc>, w: nat) {
    w < |pcs| && Wants(pcs[w]).Some? && Wants(pcs[w]).value.StatusLock?
  }

  /** Along a chain of workers each of which waits for the next, the wanted status locks
      ascend. */
  lemma {:induction false} WaitsAscend(pcs: seq<Pc>, chain: seq<nat>, i: nat, j: nat)
    requires Exclusive(pcs) && i <= j < |chain| - 1
    requires forall k :: 0 <= k < |chain| - 1 ==> WaitsFor(pcs, chain[k], chain[k + 1])
    ensures WantsStatus(pcs, chain[i]) && WantsStatus(pcs, chain[j])
    ensures Wants(pcs[chain[i]]).value.tx <= Wants(pcs[chain[j]]).value.tx
    ensures i < j ==> Wants(pcs[chain[i]]).value.tx < Wants(pcs[chain[j]]).value.tx
    decreases j - i
  {
    assert WaitsFor(pcs, chain[i], chain[i + 1]) && WaitsFor(pcs, chain[j], chain[j + 1]);
    var l := Wants(pcs[chain[i]]).value;
    if l.DependentsLock? {
      DependentsAreGated(pcs, chain[i + 1], chain[i], l.tx);
    }
    if i < j {
      assert WaitsFor(pcs, chain[i + 1], chain[i + 1 + 1]);
      WaitsAscend(pcs, chain, i + 1, j);
      StatusAscends(pcs[chain[i + 1]], l.tx, Wants(pcs[chain[i + 1]]).value.tx);
    }
  }

  /** No reachable state has a circle of workers, of any length, each waiting for a lock
      the next one holds. */
  lemma NoCyclicWait(pcs: seq<Pc>, circle: seq<nat>)
    requires Reachable(pcs) && |circle| >= 2 && circle[0] == circle[|circle| - 1]
    ensures !(forall k :: 0 <= k < |circle| - 1 ==> WaitsFor(pcs, circle[k], circle[k + 1]))
  {
    var run :| IsRun(run) && run[|run| - 1] == pcs;
    RunExclusive(run, |run| - 1);
    if forall k :: 0 <= k < |circle| - 1 ==> WaitsFor(pcs, circle[k], circle[k + 1]) {
      var n := |circle| - 2;
      assert WaitsFor(pcs, circle[n], circle[n + 1]) && WaitsFor(pcs, circle[0], circle[0 + 1]);
      WaitsAscend(pcs, circle, 0, n);
      StatusAscends(pcs[circle[0]], Wants(pcs[circle[n]]).value.tx, Wants(pcs[circle[0]]).value.tx);
      assert false;
    }
  }

  /** And it never comes to a standstill: as long as some worker is inside an operation,
      one that is inside can go on. */
  lemma SomebodyMoves(pcs: seq<Pc>, w: nat) returns (v: nat)
    requires Reachable(pcs) && w < |pcs| && pcs[w] != Outside
    ensures v < |pcs| && pcs[v] != Outside && CanMove(pcs, v)
  {
    var run :| IsRun(run) && run[|run| - 1] == pcs;
    RunExclusive(run, |run| - 1);
    v := MoverFrom(pcs, w, MostWanted(pcs, |pcs|));
  }

  /** An upper bound on the status locks that are wanted. */
  function MostWanted(pcs: seq<Pc>, n: nat): (m: nat)
    requires n <= |pcs|
    ensures forall w :: 0 <= w < n && Wants(pcs[w]).Some? ==> Wants(pcs[w]).value.tx <= m
  {
    if n == 0 then 0
    else
      var m := MostWanted(pcs, n - 1);
      if Wants(pcs[n - 1]).Some? && m < Wants(pcs[n - 1]).value.tx then Wants(pcs[n - 1]).value.tx else m
  }

  lemma {:induction false} MoverFrom(pcs: seq<Pc>, w: nat, bound: nat) returns (v: nat)
    requires Exclusive(pcs) && w < |pcs| && pcs[w] != Outside
    requires forall u :: 0 <= u < |pcs| && Wants(pcs[u]).Some? ==> Wants(pcs[u]).value.tx <= bound
    ensures v < |pcs| && pcs[v] != Outside && CanMove(pcs, v)
    decreases if Wants(pcs[w]).Some? then bound - Wants(pcs[w]).value.tx + 1 else 0
  {
    v := w;
    if !CanMove(pcs, w) {
      var l := Wants(pcs[w]).value;
      var u: nat :| u < |pcs| && Holds(pcs[u], l);
      if l.DependentsLock? { DependentsAreGated(pcs, u, w, l.tx); }
      if Wants(pcs[u]).Some? {
        var m := Wants(pcs[u]).value;
        if m.StatusLock? { StatusAscends(pcs[u], l.tx, m.tx); }
        if m.DependentsLock? {
          forall x | 0 <= x < |pcs| ensures !Holds(pcs[x], m) { DependentsAreGated(pcs, x, u, m.tx); }
          assert CanMove(pcs, u);
          return u;
        }
      }
      v := MoverFrom(pcs, u, bound);
    }
  }
}
