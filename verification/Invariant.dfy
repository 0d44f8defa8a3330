/** What every reachable state satisfies, and what follows for states at rest. */
module Invariant {
  import opened Types
  import opened MultiVersion
  import opened SchedulerSteps
  import opened Engine
  import opened Owners
  import opened Columns
  import opened History
  import opened Coverage
  import opened Progress

  ghost predicate Inv(b: Block, s: State) {
    Ownership(b, s) && ColumnsOk(b, s) && HistoryOk(b, s) && CoverageOk(b, s) && ProgressOk(b, s)
  }

  lemma InitInv(b: Block, s: State)
    requires WellFormed(b) && Init(b, s)
    ensures Inv(b, s)
  {
    InitOwnership(b, s);
    InitColumns(b, s);
    InitHistory(b, s);
    InitCoverage(b, s);
    InitProgress(b, s);
  }

  lemma StepInv(b: Block, s: State, w: nat, s': State)
    requires WellFormed(b) && Inv(b, s) && WorkerStep(b, s, w, s') && !s.aborted && !s'.aborted
    ensures Inv(b, s')
  {
    StepKeepsOwnership(b, s, w, s');
    StepKeepsColumns(b, s, w, s');
    StepKeepsHistory(b, s, w, s');
    StepKeepsCoverage(b, s, w, s');
    StepKeepsProgress(b, s, w, s');
  }

  lemma WorkKeepsAborted(b: Block, s: State, w: nat, s': State)
    requires Shape(b, s) && w < |s.pcs| && s.pcs[w].Working? && s.pcs[w].tx < b.n && WorkStep(b, s, w, s') && s.aborted
    ensures s'.aborted
  {
    match s.pcs[w].work
    case Running(_) =>
    case Writing(_, _, _) =>
    case Resume(_) =>
    case _ =>
  }

  /** An abort is final. */
  lemma StepKeepsAborted(b: Block, s: State, w: nat, s': State)
    requires WorkerStep(b, s, w, s') && s.aborted
    ensures s'.aborted
  {
    match s.pcs[w]
    case Working(_, _, _) => WorkKeepsAborted(b, s, w, s');
    case Validating(_, _, check) => if check.Checking? {}
    case Aborting(_, abort) => if abort.Converting? {}
    case _ =>
  }

  lemma AnyStepInv(b: Block, s: State, s': State)
    requires WellFormed(b) && Step(b, s, s') && (s.aborted || Inv(b, s))
    ensures s'.aborted || Inv(b, s')
  {
    var w: nat :| WorkerStep(b, s, w, s');
    if s.aborted {
      StepKeepsAborted(b, s, w, s');
    } else if !s'.aborted {
      StepInv(b, s, w, s');
    }
  }

  lemma RunIsSteps(b: Block, run: seq<State>, k: nat)
    requires IsRun(b, run) && 0 < k < |run|
    ensures Step(b, run[k - 1], run[k])
  {
    assert StepsAt(b, run, k - 1);
  }

  /** Safety over whole runs: until the run is aborted, the invariant holds. */
  lemma {:induction false} RunInv(b: Block, run: seq<State>, k: nat)
    requires WellFormed(b) && IsRun(b, run) && k < |run| && !run[k].aborted
    ensures Inv(b, run[k])
  {
    if k == 0 {
      InitInv(b, run[0]);
    } else {
      RunIsSteps(b, run, k);
      if !run[k - 1].aborted {
        RunInv(b, run, k - 1);
      }
      AnyStepInv(b, run[k - 1], run[k]);
    }
  }

  lemma ReachableInv(b: Block, s: State)
    requires WellFormed(b) && Reachable(b, s) && !s.aborted
    ensures Inv(b, s)
  {
    var run :| IsRun(b, run) && run[|run| - 1] == s;
    RunInv(b, run, |run| - 1);
  }

  // ---------- At rest ----------

  /** No worker holds or is about to look at a transaction, and both counters are past
      the block. Workers may still be looping or may have left. */
  ghost predicate AtRest(b: Block, s: State) {
    && (forall w :: 0 <= w < |s.pcs| ==> s.pcs[w].Idle? || s.pcs[w].Exited?)
    && s.sched.executionIdx >= b.n && s.sched.validationIdx >= b.n
  }

  ghost predicate AllExited(s: State) {
    forall w :: 0 <= w < |s.pcs| ==> s.pcs[w].Exited?
  }

  /** The last worker to leave has seen both counters past the block, and nobody can
      have lowered one since. */
  lemma ExitedIsAtRest(b: Block, s: State)
    requires ProgressOk(b, s) && AllExited(s)
    ensures AtRest(b, s)
  {
  }

  /** Nobody waits for a transaction that is done, so the lowest unfinished one would
      have to be in some worker's hands. */
  lemma {:induction false} AtRestFinished(b: Block, s: State, t: nat)
    requires Inv(b, s) && AtRest(b, s) && t < b.n
    ensures s.sched.status[t].status == Validated
  {
    assert OwnerOk(b, s, t);
    assert s.sched.status[t].status == ReadyToExecute ==> ReadyAhead(s, t);
    assert s.sched.status[t].status == Executed ==> ExecutedAhead(s, t);
    if s.owner[t].Queue? {
      var on := s.owner[t].on;
      assert ListOk(b, s, on);
      AtRestFinished(b, s, on);
    }
  }

  lemma {:induction false} CountAllValidated(status: seq<TxStatus>)
    requires forall t :: 0 <= t < |status| ==> status[t].status == Validated
    ensures CountValidated(status) == |status|
  {
    if status != [] { CountAllValidated(status[..|status| - 1]); }
  }

  /** No lost work and correct exit: at rest everything is validated, so the exit test
      is met whatever the minimum is and no worker can loop there for ever. */
  lemma AtRestExitTestMet(b: Block, s: State)
    requires WellFormed(b) && Reachable(b, s) && !s.aborted && AtRest(b, s)
    ensures Shape(b, s) && forall t :: 0 <= t < b.n ==> s.sched.status[t].status == Validated
    ensures s.sched.numValidated == b.n
    ensures IdleNext(b.n, s.sched, s.aborted, ExitMin(s.sched.numValidated)) == Exited
  {
    ReachableInv(b, s);
    forall t | 0 <= t < b.n ensures s.sched.status[t].status == Validated {
      AtRestFinished(b, s, t);
    }
    CountAllValidated(s.sched.status);
  }

  /** At rest no estimate is left anywhere, seeded ones included. */
  lemma AtRestNoEstimates(b: Block, s: State, l: Loc, t: nat)
    requires WellFormed(b) && Reachable(b, s) && !s.aborted && AtRest(b, s)
    ensures EntryAt(s.store, l, t) != Some(Estimate)
  {
    ReachableInv(b, s);
    if EntryAt(s.store, l, t).Some? {
      AtRestIsSettled(b, s);
      PrefixColumn(b, s, b.n, t);
    }
  }

  // ---------- A settled prefix ----------

  /** Nobody works on, waits for, or is about to look at a transaction below k, and all
      of them are finished. */
  ghost predicate PrefixSettled(b: Block, s: State, k: nat) {
    && Shape(b, s) && k <= b.n
    && (forall t :: 0 <= t < k ==> IsFinished(s.sched.status[t].status) && s.sched.dependents[t] == [])
    && (forall w :: 0 <= w < |s.pcs| ==> s.pcs[w].Idle? || s.pcs[w].Exited? || k <= s.pcs[w].tx)
    && s.sched.executionIdx >= k && s.sched.validationIdx >= k
  }

  /** Every finished transaction below k has its write set and its result in place. */
  lemma PrefixColumn(b: Block, s: State, k: nat, t: nat)
    requires Inv(b, s) && PrefixSettled(b, s, k) && t < k
    ensures
      var v := Current(s, t);
      && v in s.log && NextAction(b, t, s.log[v]).Finish? && s.lastRead[t] == s.log[v].readSet
      && s.results[t] == Some(ResultBy(b, t, s.log[v]))
      && forall l :: EntryAt(s.store, l, t) ==
                     if l in WritesBy(b, t, s.log[v]) then Some(Data(v.incarnation, WritesBy(b, t, s.log[v])[l])) else None
  {
    assert OwnerOk(b, s, t);
    assert ColumnOk(b, s, t, PhaseOf(s, t));
    assert Filled(b, s, t, s.log[Current(s, t)], {});
  }

  /** And nobody is left who could still find a mismatch there, so there is none. */
  lemma PrefixMatches(b: Block, s: State, k: nat, t: nat, l: Loc)
    requires Inv(b, s) && PrefixSettled(b, s, k) && t < k && l in s.lastRead[t]
    ensures Matches(s.store, l, t, s.lastRead[t][l])
  {
    assert Mismatch(b, s, t, l) ==> Covered(s, t, l);
  }

  /** At rest the whole block is settled. */
  lemma AtRestIsSettled(b: Block, s: State)
    requires Inv(b, s) && AtRest(b, s)
    ensures PrefixSettled(b, s, b.n)
  {
    forall t | 0 <= t < b.n ensures IsFinished(s.sched.status[t].status) && s.sched.dependents[t] == [] {
      AtRestFinished(b, s, t);
      assert ListOk(b, s, t);
    }
  }
}
