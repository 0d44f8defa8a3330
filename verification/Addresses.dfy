/** The addresses that took lazy updates: whoever is left with one at the end of a block is
    among those the end of the block evaluates. */
module Addresses {
  import opened Types
  import opened MultiVersion
  import opened SchedulerSteps
  import opened Engine
  import opened Columns
  import opened Invariant

  /** Only beneficiaries and the parties of a lazy transaction are written lazily. */
  ghost predicate LazinessIsKnown(b: Block) {
    forall t: nat, lazy, vs :: b.vm(t, lazy, vs).Finish? ==> WrittenLazilyIsKnown(b, t, lazy, b.vm(t, lazy, vs).writes)
  }

  ghost predicate WrittenLazilyIsKnown(b: Block, t: nat, lazy: bool, writes: map<Loc, Write>) {
    forall l :: l in writes && IsLazy(writes[l]) ==> l.Basic? && (l.address in b.beneficiaries || (lazy && l.address in b.parties(t)))
  }

  /** The parties of every lazy execution recorded so far have been noted. */
  ghost predicate AddressesOk(b: Block, s: State) {
    && b.beneficiaries <= s.lazyAddresses
    && forall v :: v in s.log && s.log[v].lazy ==> b.parties(v.tx) <= s.lazyAddresses
  }

  ghost predicate SameNotes(s: State, s': State) {
    s'.log == s.log && s'.lazyAddresses == s.lazyAddresses
  }

  lemma CheckKeepsNotes(b: Block, s: State, w: nat, s': State)
    requires Shape(b, s) && w < |s.pcs| && s.pcs[w].Validating? && s.pcs[w].tx < b.n && CheckStep(b, s, w, s')
    ensures SameNotes(s, s')
  {
  }

  lemma AbortKeepsNotes(b: Block, s: State, w: nat, s': State)
    requires Shape(b, s) && w < |s.pcs| && s.pcs[w].Aborting? && s.pcs[w].tx < b.n && AbortStep(b, s, w, s')
    ensures SameNotes(s, s')
  {
  }

  lemma OthersKeepNotes(b: Block, s: State, w: nat, s': State)
    requires Shape(b, s) && w < |s.pcs|
    requires
      || (s.pcs[w].Idle? && IdleStep(b, s, w, s'))
      || (s.pcs[w].Claimed? && s.pcs[w].tx < b.n && ClaimStep(b, s, w, s'))
      || (s.pcs[w].Rescheduling? && s.pcs[w].tx < b.n && RescheduleStep(b, s, w, s'))
    ensures SameNotes(s, s')
  {
  }

  lemma WorkKeepsNotes(b: Block, s: State, w: nat, s': State)
    requires Shape(b, s) && w < |s.pcs| && s.pcs[w].Working? && s.pcs[w].tx < b.n && !s.pcs[w].work.Running? && WorkStep(b, s, w, s')
    ensures SameNotes(s, s')
  {
    match s.pcs[w].work
    case Writing(_, _, _) =>
    case Resume(_) =>
    case _ =>
  }

  lemma RunKeepsAddresses(b: Block, s: State, w: nat, s': State)
    requires Shape(b, s) && w < |s.pcs| && s.pcs[w].Working? && s.pcs[w].tx < b.n && s.pcs[w].work.Running?
    requires RunStep(b, s, w, s') && AddressesOk(b, s)
    ensures AddressesOk(b, s')
  {
  }

  lemma StepKeepsAddresses(b: Block, s: State, s': State)
    requires Step(b, s, s') && AddressesOk(b, s)
    ensures AddressesOk(b, s')
  {
    var w: nat :| WorkerStep(b, s, w, s');
    match s.pcs[w]
    case Working(_, _, stage) =>
      if stage.Running? { RunKeepsAddresses(b, s, w, s'); } else { WorkKeepsNotes(b, s, w, s'); }
    case Validating(_, _, _) => CheckKeepsNotes(b, s, w, s');
    case Aborting(_, _) => AbortKeepsNotes(b, s, w, s');
    case Idle(_) => OthersKeepNotes(b, s, w, s');
    case Claimed(_, _) => OthersKeepNotes(b, s, w, s');
    case Rescheduling(_, _) => OthersKeepNotes(b, s, w, s');
  }

  lemma {:induction false} RunAddresses(b: Block, run: seq<State>, k: nat)
    requires IsRun(b, run) && k < |run|
    ensures AddressesOk(b, run[k])
  {
    if k > 0 {
      RunAddresses(b, run, k - 1);
      RunIsSteps(b, run, k);
      StepKeepsAddresses(b, run[k - 1], run[k]);
    }
  }

  lemma ReachableAddresses(b: Block, s: State)
    requires Reachable(b, s)
    ensures AddressesOk(b, s)
  {
    var run :| IsRun(b, run) && run[|run| - 1] == s;
    RunAddresses(b, run, |run| - 1);
  }

  lemma WritesAreKnown(b: Block, t: nat, e: Exec, l: Loc)
    requires LazinessIsKnown(b) && NextAction(b, t, e).Finish? && l in WritesBy(b, t, e) && IsLazy(WritesBy(b, t, e)[l])
    ensures l.Basic? && (l.address in b.beneficiaries || (e.lazy && l.address in b.parties(t)))
  {
    assert WrittenLazilyIsKnown(b, t, e.lazy, NextAction(b, t, e).writes);
  }

  /** At rest every location that holds a lazy entry belongs to an address that is going to
      be evaluated. */
  lemma LazyEntriesAreKnown(b: Block, s: State, l: Loc, t: nat)
    requires WellFormed(b) && LazinessIsKnown(b) && Reachable(b, s) && !s.aborted && AtRest(b, s)
    requires EntryAt(s.store, l, t).Some? && EntryAt(s.store, l, t).value.Data? && IsLazy(EntryAt(s.store, l, t).value.write)
    ensures l.Basic? && l.address in s.lazyAddresses
  {
    ReachableAddresses(b, s);
    ReachableInv(b, s);
    AtRestIsSettled(b, s);
    PrefixColumn(b, s, b.n, t);
    WritesAreKnown(b, t, s.log[Current(s, t)], l);
  }
}
