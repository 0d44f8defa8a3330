/** No work is lost. A transaction that is ready, or executed but not validated, is
    ahead of its counter or about to be picked up, and the last worker does not leave
    while a counter is inside the block. */
module Progress {
  import opened Types
  import opened SchedulerSteps
  import opened Engine
  import opened Owners
  import opened Coverage

  predicate WillTake(pc: Pc, t: nat) {
    match pc
    case Claimed(x, _) => x == t
    case Rescheduling(x, _) => x == t
    case Working(_, _, stage) => stage.Resumed? && stage.dependent == t
    case _ => false
  }

  predicate WillVerify(pc: Pc, t: nat) {
    match pc
    case Claimed(x, forValidation) => x == t && forValidation
    case Validating(x, _, _) => x == t
    case _ => false
  }

  /** The worker has seen the execution counter past the block and will not look again. */
  predicate SawExecution(n: nat, pc: Pc) {
    pc.Exited? || (pc.Idle? && (pc.idle.ExitCount? || pc.idle.ExitMin? || (pc.idle.LoadValidation? && pc.idle.e >= n)))
  }

  predicate SawValidation(pc: Pc) {
    pc.Exited? || (pc.Idle? && (pc.idle.ExitCount? || pc.idle.ExitMin?))
  }

  ghost predicate ReadyAhead(s: State, t: nat) {
    s.sched.executionIdx <= t || exists u :: 0 <= u < |s.pcs| && WillTake(s.pcs[u], t)
  }

  ghost predicate ExecutedAhead(s: State, t: nat) {
    s.sched.validationIdx <= t || exists u :: 0 <= u < |s.pcs| && WillVerify(s.pcs[u], t)
  }

  ghost predicate ProgressOk(b: Block, s: State) {
    && Shape(b, s)
    && (forall t: nat :: t < b.n && s.sched.status[t].status == ReadyToExecute ==> ReadyAhead(s, t))
    && (forall t: nat :: t < b.n && s.sched.status[t].status == Executed ==> ExecutedAhead(s, t))
    && (s.sched.executionIdx < b.n ==> exists u :: 0 <= u < |s.pcs| && !SawExecution(b.n, s.pcs[u]))
    && (s.sched.validationIdx < b.n ==> exists u :: 0 <= u < |s.pcs| && !SawValidation(s.pcs[u]))
  }

  lemma InitProgress(b: Block, s: State)
    requires Init(b, s)
    ensures ProgressOk(b, s)
  {
    assert !SawExecution(b.n, s.pcs[0]);
  }

  // ---------- Frames ----------

  ghost predicate KeepsReady(s: State, w: nat, s': State, t: nat)
    requires w < |s.pcs| && w < |s'.pcs| && t < |s.sched.status|
  {
    || s'.sched.executionIdx <= t
    || WillTake(s'.pcs[w], t)
    || (s.sched.status[t].status == ReadyToExecute && s.sched.executionIdx > t && !WillTake(s.pcs[w], t))
  }

  ghost predicate KeepsExecuted(s: State, w: nat, s': State, t: nat)
    requires w < |s.pcs| && w < |s'.pcs| && t < |s.sched.status|
  {
    || s'.sched.validationIdx <= t
    || WillVerify(s'.pcs[w], t)
    || (s.sched.status[t].status == Executed && s.sched.validationIdx > t && !WillVerify(s.pcs[w], t))
  }

  lemma ProgressStep(b: Block, s: State, w: nat, s': State)
    requires ProgressOk(b, s) && Shape(b, s') && w < |s.pcs|
    requires |s'.pcs| == |s.pcs| && s'.pcs == s.pcs[w := s'.pcs[w]]
    requires forall t: nat :: t < b.n && s'.sched.status[t].status == ReadyToExecute ==> KeepsReady(s, w, s', t)
    requires forall t: nat :: t < b.n && s'.sched.status[t].status == Executed ==> KeepsExecuted(s, w, s', t) || ExecutedAhead(s', t)
    requires s'.sched.executionIdx < b.n && SawExecution(b.n, s'.pcs[w]) ==> s.sched.executionIdx < b.n && SawExecution(b.n, s.pcs[w])
    requires s'.sched.validationIdx < b.n && SawValidation(s'.pcs[w]) ==> s.sched.validationIdx < b.n && SawValidation(s.pcs[w])
    ensures ProgressOk(b, s')
  {
    forall t: nat | t < b.n && s'.sched.status[t].status == ReadyToExecute ensures ReadyAhead(s', t) {
      assert KeepsReady(s, w, s', t);
      if s'.sched.executionIdx > t && !WillTake(s'.pcs[w], t) {
        var u :| 0 <= u < |s.pcs| && WillTake(s.pcs[u], t);
        assert s'.pcs[u] == s.pcs[u];
      }
    }
    forall t: nat | t < b.n && s'.sched.status[t].status == Executed ensures ExecutedAhead(s', t) {
      if KeepsExecuted(s, w, s', t) && s'.sched.validationIdx > t && !WillVerify(s'.pcs[w], t) {
        var u :| 0 <= u < |s.pcs| && WillVerify(s.pcs[u], t);
        assert s'.pcs[u] == s.pcs[u];
      }
    }
    if s'.sched.executionIdx < b.n && SawExecution(b.n, s'.pcs[w]) {
      var u :| 0 <= u < |s.pcs| && !SawExecution(b.n, s.pcs[u]);
      assert s'.pcs[u] == s.pcs[u];
    }
    if s'.sched.validationIdx < b.n && SawValidation(s'.pcs[w]) {
      var u :| 0 <= u < |s.pcs| && !SawValidation(s.pcs[u]);
      assert s'.pcs[u] == s.pcs[u];
    }
  }

  // ---------- The actions ----------

  lemma IdleKeepsProgress(b: Block, s: State, w: nat, s': State)
    requires ProgressOk(b, s) && w < |s.pcs| && s.pcs[w].Idle? && IdleStep(b, s, w, s') && !s.aborted
    ensures ProgressOk(b, s')
  {
    ProgressStep(b, s, w, s');
  }

  lemma ClaimKeepsProgress(b: Block, s: State, w: nat, s': State)
    requires ProgressOk(b, s) && w < |s.pcs| && s.pcs[w].Claimed? && s.pcs[w].tx < b.n && ClaimStep(b, s, w, s')
    ensures ProgressOk(b, s')
  {
    ProgressStep(b, s, w, s');
  }

  lemma RunKeepsProgress(b: Block, s: State, w: nat, s': State)
    requires ProgressOk(b, s) && w < |s.pcs| && s.pcs[w].Working? && s.pcs[w].tx < b.n && s.pcs[w].work.Running?
    requires RunStep(b, s, w, s') && !s'.aborted
    ensures ProgressOk(b, s')
  {
    ProgressStep(b, s, w, s');
  }

  lemma RecordKeepsProgress(b: Block, s: State, w: nat, s': State)
    requires ProgressOk(b, s) && Shape(b, s) && w < |s.pcs| && s.pcs[w].Working? && s.pcs[w].tx < b.n
    requires
      || (s.pcs[w].work.Clearing? && ClearStep(b, s, w, s'))
      || (s.pcs[w].work.Writing? && WriteStep(b, s, w, s'))
      || (s.pcs[w].work.Publish? && PublishStep(b, s, w, s'))
    ensures ProgressOk(b, s')
  {
    ProgressStep(b, s, w, s');
  }

  lemma BlockKeepsProgress(b: Block, s: State, w: nat, s': State)
    requires ProgressOk(b, s) && w < |s.pcs| && s.pcs[w].Working? && s.pcs[w].tx < b.n && s.pcs[w].work.Blocking?
    requires BlockStep(b, s, w, s')
    ensures ProgressOk(b, s')
  {
    ProgressStep(b, s, w, s');
  }

  lemma ResumeKeepsProgress(b: Block, s: State, w: nat, s': State)
    requires ProgressOk(b, s) && w < |s.pcs| && s.pcs[w].Working? && s.pcs[w].tx < b.n && s.pcs[w].work.Resume?
    requires ResumeStep(b, s, w, s')
    ensures ProgressOk(b, s')
  {
    ProgressStep(b, s, w, s');
  }

  lemma AdjustKeepsProgress(b: Block, s: State, w: nat, s': State)
    requires ProgressOk(b, s) && w < |s.pcs| && s.pcs[w].Working? && s.pcs[w].tx < b.n && Adjusts(s.pcs[w].work)
    requires AdjustStep(b, s, w, s')
    ensures ProgressOk(b, s')
  {
    ProgressStep(b, s, w, s');
  }

  lemma ConcludeKeepsProgress(b: Block, s: State, w: nat, s': State)
    requires CoverageOk(b, s) && ProgressOk(b, s)
    requires w < |s.pcs| && s.pcs[w].Working? && s.pcs[w].tx < b.n && s.pcs[w].work.Conclude? && ConcludeStep(b, s, w, s')
    ensures ProgressOk(b, s')
  {
    var t := s.pcs[w].tx;
    if !s.pcs[w].work.revalidate {
      assert StillAhead(s, t);
      if s.sched.validationIdx > t {
        var u :| 0 <= u < |s.pcs| && s.pcs[u] == Claimed(t, true);
        assert s'.pcs[u] == s.pcs[u];
      }
      assert ExecutedAhead(s', t);
    }
    ProgressStep(b, s, w, s');
  }

  lemma WorkKeepsProgress(b: Block, s: State, w: nat, s': State)
    requires CoverageOk(b, s) && ProgressOk(b, s)
    requires w < |s.pcs| && s.pcs[w].Working? && s.pcs[w].tx < b.n && WorkStep(b, s, w, s') && !s'.aborted
    ensures ProgressOk(b, s')
  {
    match s.pcs[w].work
    case Start => ProgressStep(b, s, w, s');
    case Running(_) => RunKeepsProgress(b, s, w, s');
    case Blocking(_) => BlockKeepsProgress(b, s, w, s');
    case Clearing(_) => RecordKeepsProgress(b, s, w, s');
    case Writing(_, _, _) => RecordKeepsProgress(b, s, w, s');
    case Publish(_, _) => RecordKeepsProgress(b, s, w, s');
    case Resume(_) => ResumeKeepsProgress(b, s, w, s');
    case Conclude(_) => ConcludeKeepsProgress(b, s, w, s');
    case _ => AdjustKeepsProgress(b, s, w, s');
  }

  lemma RevokeKeepsProgress(b: Block, s: State, w: nat, s': State)
    requires ProgressOk(b, s) && w < |s.pcs| && s.pcs[w].Validating? && s.pcs[w].tx < b.n && RevokeStep(b, s, w, s')
    ensures ProgressOk(b, s')
  {
    ProgressStep(b, s, w, s');
  }

  lemma ConfirmKeepsProgress(b: Block, s: State, w: nat, s': State)
    requires ProgressOk(b, s) && w < |s.pcs| && s.pcs[w].Validating? && s.pcs[w].tx < b.n && ConfirmStep(b, s, w, s')
    ensures ProgressOk(b, s')
  {
    ProgressStep(b, s, w, s');
  }

  lemma CheckKeepsProgress(b: Block, s: State, w: nat, s': State)
    requires ProgressOk(b, s) && w < |s.pcs| && s.pcs[w].Validating? && s.pcs[w].tx < b.n && CheckStep(b, s, w, s')
    ensures ProgressOk(b, s')
  {
    match s.pcs[w].check
    case Begin => ProgressStep(b, s, w, s');
    case Checking(_) => ProgressStep(b, s, w, s');
    case Invalid => RevokeKeepsProgress(b, s, w, s');
    case Valid => ConfirmKeepsProgress(b, s, w, s');
  }

  lemma ResetKeepsProgress(b: Block, s: State, w: nat, s': State)
    requires ProgressOk(b, s) && w < |s.pcs| && s.pcs[w].Aborting? && s.pcs[w].tx < b.n && ResetStep(b, s, w, s')
    ensures ProgressOk(b, s')
  {
    ProgressStep(b, s, w, s');
  }

  lemma AbortKeepsProgress(b: Block, s: State, w: nat, s': State)
    requires ProgressOk(b, s) && w < |s.pcs| && s.pcs[w].Aborting? && s.pcs[w].tx < b.n && AbortStep(b, s, w, s')
    ensures ProgressOk(b, s')
  {
    match s.pcs[w].abort
    case Converting(_) => ProgressStep(b, s, w, s');
    case Reset => ResetKeepsProgress(b, s, w, s');
  }

  lemma RetakeKeepsProgress(b: Block, s: State, w: nat, s': State)
    requires ProgressOk(b, s) && w < |s.pcs| && s.pcs[w].Rescheduling? && s.pcs[w].tx < b.n && s.pcs[w].reschedule.Retake?
    requires RescheduleStep(b, s, w, s')
    ensures ProgressOk(b, s')
  {
    if s.sched.status[s.pcs[w].tx].status == ReadyToExecute {
      assert s' == Take(s, w, s.pcs[w].tx);
      ProgressStep(b, s, w, s');
    } else {
      ProgressStep(b, s, w, s');
    }
  }

  lemma RescheduleKeepsProgress(b: Block, s: State, w: nat, s': State)
    requires ProgressOk(b, s) && w < |s.pcs| && s.pcs[w].Rescheduling? && s.pcs[w].tx < b.n && RescheduleStep(b, s, w, s')
    ensures ProgressOk(b, s')
  {
    match s.pcs[w].reschedule
    case Retake => RetakeKeepsProgress(b, s, w, s');
    case _ => ProgressStep(b, s, w, s');
  }

  lemma StepKeepsProgress(b: Block, s: State, w: nat, s': State)
    requires CoverageOk(b, s) && ProgressOk(b, s) && WorkerStep(b, s, w, s') && !s'.aborted
    ensures ProgressOk(b, s')
  {
    match s.pcs[w]
    case Idle(_) => IdleKeepsProgress(b, s, w, s');
    case Claimed(_, _) => ClaimKeepsProgress(b, s, w, s');
    case Working(_, _, _) => WorkKeepsProgress(b, s, w, s');
    case Validating(_, _, _) => CheckKeepsProgress(b, s, w, s');
    case Aborting(_, _) => AbortKeepsProgress(b, s, w, s');
    case Rescheduling(_, _) => RescheduleKeepsProgress(b, s, w, s');
  }
}
