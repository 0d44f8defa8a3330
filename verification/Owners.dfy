/** Who is responsible for a transaction. Every transaction that is being executed or
    aborted is held by exactly one worker or waits in exactly one list; a list only
    belongs to a transaction that has yet to finish. */
module Owners {
  import opened Types
  import opened SchedulerSteps
  import opened Engine

  function CountValidated(status: seq<TxStatus>): nat {
    if status == [] then 0
    else CountValidated(status[..|status| - 1]) + if status[|status| - 1].status == Validated then 1 else 0
  }

  /** The list of dependents has been emptied and stays empty under the lock. */
  predicate PastResuming(stage: WorkStage) {
    stage.SetMin? || stage.Look? || stage.Lower? || stage.Conclude?
  }

  predicate PcOk(b: Block, pc: Pc) {
    match pc
    case Idle(_) => true
    case Exited => true
    case Working(t, _, stage) =>
      t < b.n && (stage.Blocking? ==> stage.on < t) && (stage.Resumed? ==> t < stage.dependent < b.n)
    case Claimed(t, _) => t < b.n
    case Validating(t, _, _) => t < b.n
    case Aborting(t, _) => t < b.n
    case Rescheduling(t, _) => t < b.n
  }

  predicate Owns(pc: Pc) {
    pc.Working? || pc.Aborting?
  }

  ghost predicate OwnerOk(b: Block, s: State, t: nat)
    requires Shape(b, s) && t < b.n
  {
    match s.owner[t]
    case Nobody => s.sched.status[t].status in {ReadyToExecute, Executed, Validated}
    case Worker(w) =>
      && w < |s.pcs| && Owns(s.pcs[w]) && s.pcs[w].tx == t
      && (s.pcs[w].Working? ==> s.sched.status[t] == TxStatus(s.pcs[w].incarnation, Executing))
      && (s.pcs[w].Aborting? ==> s.sched.status[t].status == Status.Aborting)
    case Queue(on) =>
      && on < t && t in s.sched.dependents[on] && s.sched.status[t].status == Status.Aborting
  }

  ghost predicate WorkerOk(b: Block, s: State, w: nat)
    requires Shape(b, s) && w < |s.pcs|
  {
    && PcOk(b, s.pcs[w])
    && (Owns(s.pcs[w]) ==> s.owner[s.pcs[w].tx] == Worker(w))
    && (s.pcs[w].Working? && PastResuming(s.pcs[w].work) ==> s.sched.dependents[s.pcs[w].tx] == [])
  }

  ghost predicate ListOk(b: Block, s: State, on: nat)
    requires Shape(b, s) && on < b.n
  {
    && (forall k :: 0 <= k < |s.sched.dependents[on]| ==>
          s.sched.dependents[on][k] < b.n && s.owner[s.sched.dependents[on][k]] == Queue(on))
    && NoDuplicates(s.sched.dependents[on])
    && (IsFinished(s.sched.status[on].status) ==> s.sched.dependents[on] == [])
  }

  ghost predicate Ownership(b: Block, s: State) {
    && Shape(b, s)
    && (forall w :: 0 <= w < |s.pcs| ==> WorkerOk(b, s, w))
    && (forall t :: 0 <= t < b.n ==> OwnerOk(b, s, t))
    && (forall on :: 0 <= on < b.n ==> ListOk(b, s, on))
    && s.sched.numValidated == CountValidated(s.sched.status)
  }

  lemma {:induction false} CountValidatedUpdate(status: seq<TxStatus>, t: nat, x: TxStatus)
    requires t < |status|
    ensures CountValidated(status[t := x]) == CountValidated(status)
            - (if status[t].status == Validated then 1 else 0) + (if x.status == Validated then 1 else 0)
    decreases |status|
  {
    var m := |status| - 1;
    if t == m {
      assert status[t := x][..m] == status[..m];
    } else {
      assert status[t := x][..m] == status[..m][t := x];
      CountValidatedUpdate(status[..m], t, x);
    }
  }

  lemma {:induction false} CountValidatedNone(status: seq<TxStatus>)
    requires forall t :: 0 <= t < |status| ==> status[t].status != Validated
    ensures CountValidated(status) == 0
  {
    if status != [] { CountValidatedNone(status[..|status| - 1]); }
  }

  lemma InitOwnership(b: Block, s: State)
    requires Init(b, s)
    ensures Ownership(b, s)
  {
    CountValidatedNone(s.sched.status);
  }

  /** Only worker w moves, and only transaction t and the list of transaction on may
      change: what is known about all the others carries over. */
  lemma Handover(b: Block, s: State, s': State, w: nat, t: nat, on: nat)
    requires Ownership(b, s) && Shape(b, s') && w < |s.pcs| == |s'.pcs| && t < b.n && on < b.n
    requires s'.pcs == s.pcs[w := s'.pcs[w]]
    requires forall x :: 0 <= x < b.n && x != t ==> s'.sched.status[x] == s.sched.status[x] && s'.owner[x] == s.owner[x]
    requires forall x :: 0 <= x < b.n && x != on ==> s'.sched.dependents[x] == s.sched.dependents[x]
    requires WorkerOk(b, s', w) && OwnerOk(b, s', t) && ListOk(b, s', on)
    requires s.owner[t].Worker? ==> s.owner[t].id == w
    requires s.owner[t].Queue? ==> s.owner[t].on == on
    requires Owns(s.pcs[w]) && s.pcs[w].tx != t ==> s.pcs[w].tx < b.n && OwnerOk(b, s', s.pcs[w].tx)
    requires IsFinished(s'.sched.status[t].status) ==> s'.sched.dependents[t] == []
    requires forall x :: x in s.sched.dependents[on] && x != t ==> x in s'.sched.dependents[on]
    requires s.sched.dependents[on] == [] && s'.sched.dependents[on] != [] ==> LockFree(s, on)
    requires s'.sched.numValidated - s.sched.numValidated ==
             (if s'.sched.status[t].status == Validated then 1 else 0) - (if s.sched.status[t].status == Validated then 1 else 0)
    ensures Ownership(b, s')
  {
    forall u | 0 <= u < |s'.pcs| ensures WorkerOk(b, s', u) {
      assert WorkerOk(b, s, u);
      if u != w && s.pcs[u].Working? && PastResuming(s.pcs[u].work) {
        assert HoldsLock(s.pcs[u], s.pcs[u].tx);
      }
    }
    forall x | 0 <= x < b.n ensures OwnerOk(b, s', x) {
      assert OwnerOk(b, s, x);
    }
    forall o | 0 <= o < b.n ensures ListOk(b, s', o) {
      assert ListOk(b, s, o);
    }
    assert s'.sched.status == s.sched.status[t := s'.sched.status[t]];
    CountValidatedUpdate(s.sched.status, t, s'.sched.status[t]);
  }

  /** Actions that change no status, list or owner. */
  lemma QuietStep(b: Block, s: State, w: nat, s': State)
    requires Ownership(b, s) && Shape(b, s') && w < |s.pcs|
    requires s'.sched.status == s.sched.status && s'.sched.dependents == s.sched.dependents
    requires s'.sched.numValidated == s.sched.numValidated && s'.owner == s.owner
    requires |s'.pcs| == |s.pcs| && s'.pcs == s.pcs[w := s'.pcs[w]]
    requires WorkerOk(b, s', w)
    requires match s.pcs[w]
             case Working(t, i, _) => s'.pcs[w].Working? && s'.pcs[w].tx == t && s'.pcs[w].incarnation == i
             case Aborting(t, _) => s'.pcs[w].Aborting? && s'.pcs[w].tx == t
             case _ => true
    ensures Ownership(b, s')
  {
    forall u | 0 <= u < |s'.pcs| ensures WorkerOk(b, s', u) {
      assert WorkerOk(b, s, u);
    }
    forall t | 0 <= t < b.n ensures OwnerOk(b, s', t) {
      assert OwnerOk(b, s, t);
    }
    forall on | 0 <= on < b.n ensures ListOk(b, s', on) {
      assert ListOk(b, s, on);
    }
  }

  lemma IdleKeepsOwnership(b: Block, s: State, w: nat, s': State)
    requires Ownership(b, s) && w < |s.pcs| && s.pcs[w].Idle? && IdleStep(b, s, w, s')
    ensures Ownership(b, s')
  {
    QuietStep(b, s, w, s');
  }

  /** A ready transaction is nobody's; taking it makes it the worker's. */
  lemma TakeKeepsOwnership(b: Block, s: State, w: nat, t: nat)
    requires Ownership(b, s) && w < |s.pcs| && t < b.n && !Owns(s.pcs[w])
    requires s.sched.status[t].status == ReadyToExecute
    ensures Ownership(b, Take(s, w, t))
  {
    assert OwnerOk(b, s, t) && ListOk(b, s, t);
    Handover(b, s, Take(s, w, t), w, t, t);
  }

  lemma ClaimKeepsOwnership(b: Block, s: State, w: nat, s': State)
    requires Ownership(b, s) && w < |s.pcs| && s.pcs[w].Claimed? && s.pcs[w].tx < b.n && ClaimStep(b, s, w, s')
    ensures Ownership(b, s')
  {
    if s.sched.status[s.pcs[w].tx].status == ReadyToExecute {
      TakeKeepsOwnership(b, s, w, s.pcs[w].tx);
    } else {
      QuietStep(b, s, w, s');
    }
  }

  /** Waiting for a lower transaction hands the transaction over to that one's list. */
  lemma EnqueueKeepsOwnership(b: Block, s: State, w: nat, t: nat, on: nat)
    requires Ownership(b, s) && w < |s.pcs| && s.pcs[w].Working? && s.pcs[w].tx == t && s.pcs[w].work == Blocking(on)
    requires t < b.n && on < b.n && LockFree(s, on) && !IsFinished(s.sched.status[on].status)
    ensures Ownership(b, Own(Go(s.(sched := Enqueue(s.sched, t, on)), w, TOP), t, Queue(on)))
  {
    var s' := Own(Go(s.(sched := Enqueue(s.sched, t, on)), w, TOP), t, Queue(on));
    assert WorkerOk(b, s, w) && OwnerOk(b, s, t) && ListOk(b, s, on);
    var list := s.sched.dependents[on];
    assert s'.sched.dependents[on] == list + [t];
    assert (list + [t])[|list|] == t;
    assert forall k :: 0 <= k < |list| ==> (list + [t])[k] == list[k];
    assert forall x :: x in list ==> x in list + [t];
    Handover(b, s, s', w, t, on);
  }

  lemma BlockKeepsOwnership(b: Block, s: State, w: nat, s': State)
    requires Ownership(b, s) && w < |s.pcs| && s.pcs[w].Working? && s.pcs[w].tx < b.n && s.pcs[w].work.Blocking?
    requires BlockStep(b, s, w, s')
    ensures Ownership(b, s')
  {
    assert WorkerOk(b, s, w);
    if IsFinished(s.sched.status[s.pcs[w].work.on].status) {
      WorkerAdvances(b, s, w, s, Start);
    } else {
      EnqueueKeepsOwnership(b, s, w, s.pcs[w].tx, s.pcs[w].work.on);
    }
  }

  /** The stage of an execution moves on while statuses, lists and owners stay. */
  lemma WorkerAdvances(b: Block, s: State, w: nat, m: State, stage: WorkStage)
    requires Ownership(b, s) && Shape(b, m) && w < |s.pcs| && s.pcs[w].Working? && s.pcs[w].tx < b.n && m.pcs == s.pcs
    requires m.owner == s.owner && m.sched.status == s.sched.status && m.sched.dependents == s.sched.dependents
    requires m.sched.numValidated == s.sched.numValidated
    requires (stage.Blocking? ==> stage.on < s.pcs[w].tx) && !stage.Resumed?
    requires PastResuming(stage) ==> s.sched.dependents[s.pcs[w].tx] == []
    ensures Ownership(b, Go(m, w, Working(s.pcs[w].tx, s.pcs[w].incarnation, stage)))
  {
    assert WorkerOk(b, s, w);
    QuietStep(b, s, w, Go(m, w, Working(s.pcs[w].tx, s.pcs[w].incarnation, stage)));
  }

  /** Resuming a dependent takes it out of the list and gives it to nobody. */
  lemma ResumeKeepsOwnership(b: Block, s: State, w: nat, s': State)
    requires Ownership(b, s) && w < |s.pcs| && s.pcs[w].Working? && s.pcs[w].tx < b.n && s.pcs[w].work.Resume?
    requires ResumeStep(b, s, w, s')
    ensures Ownership(b, s')
  {
    var t := s.pcs[w].tx;
    assert WorkerOk(b, s, w) && OwnerOk(b, s, t) && ListOk(b, s, t);
    var list := s.sched.dependents[t];
    if list == [] {
      QuietStep(b, s, w, s');
    } else {
      var d := list[0];
      assert OwnerOk(b, s, d) && ListOk(b, s, d);
      assert s'.sched.dependents[t] == list[1..];
      assert forall k :: 0 <= k < |list[1..]| ==> list[1..][k] == list[k + 1];
      forall x | x in list && x != d ensures x in list[1..] {
        var k :| 0 <= k < |list| && list[k] == x;
        assert list[1..][k - 1] == x;
      }
      Handover(b, s, s', w, d, t);
    }
  }

  lemma ConcludeKeepsOwnership(b: Block, s: State, w: nat, s': State)
    requires Ownership(b, s) && w < |s.pcs| && s.pcs[w].Working? && s.pcs[w].tx < b.n && s.pcs[w].work.Conclude?
    requires ConcludeStep(b, s, w, s')
    ensures Ownership(b, s')
  {
    var t := s.pcs[w].tx;
    assert WorkerOk(b, s, w) && OwnerOk(b, s, t) && ListOk(b, s, t);
    Handover(b, s, s', w, t, t);
  }

  lemma RunKeepsOwnership(b: Block, s: State, w: nat, s': State)
    requires Ownership(b, s) && w < |s.pcs| && s.pcs[w].Working? && s.pcs[w].tx < b.n && s.pcs[w].work.Running?
    requires RunStep(b, s, w, s') && !s'.aborted
    ensures Ownership(b, s')
  {
    var t, i, e := s.pcs[w].tx, s.pcs[w].incarnation, s.pcs[w].work.exec;
    if NextAction(b, t, e).Finish? {
      var m := s.(lastRead := s.lastRead[t := e.readSet], lazyAddresses := s'.lazyAddresses, log := s.log[TxVersion(t, i) := e]);
      WorkerAdvances(b, s, w, m, Clearing(e));
    } else {
      WorkerAdvances(b, s, w, s, RunNext(b, s.store, t, e));
    }
  }

  lemma ClearKeepsOwnership(b: Block, s: State, w: nat, s': State)
    requires Ownership(b, s) && w < |s.pcs| && s.pcs[w].Working? && s.pcs[w].tx < b.n && s.pcs[w].work.Clearing?
    requires ClearStep(b, s, w, s')
    ensures Ownership(b, s')
  {
    assert WorkerOk(b, s, w);
    QuietStep(b, s, w, s');
  }

  lemma WriteKeepsOwnership(b: Block, s: State, w: nat, s': State)
    requires Ownership(b, s) && w < |s.pcs| && s.pcs[w].Working? && s.pcs[w].tx < b.n && s.pcs[w].work.Writing?
    requires WriteStep(b, s, w, s')
    ensures Ownership(b, s')
  {
    assert WorkerOk(b, s, w);
    QuietStep(b, s, w, s');
  }

  lemma AdjustKeepsOwnership(b: Block, s: State, w: nat, s': State)
    requires Ownership(b, s) && w < |s.pcs| && s.pcs[w].Working? && s.pcs[w].tx < b.n && Adjusts(s.pcs[w].work)
    requires AdjustStep(b, s, w, s')
    ensures Ownership(b, s')
  {
    assert WorkerOk(b, s, w);
    var t, stage := s.pcs[w].tx, s.pcs[w].work;
    WorkerAdvances(b, s, w, s.(sched := AdjustSched(s.sched, t, stage)), AdjustNext(s.sched, t, stage));
  }

  lemma WorkKeepsOwnership(b: Block, s: State, w: nat, s': State)
    requires Ownership(b, s) && w < |s.pcs| && s.pcs[w].Working? && s.pcs[w].tx < b.n && WorkStep(b, s, w, s')
    requires !s'.aborted
    ensures Ownership(b, s')
  {
    match s.pcs[w].work
    case Start =>
      var lazy :| s' == Go(s, w, Working(s.pcs[w].tx, s.pcs[w].incarnation, Running(Exec(lazy, [], map[]))));
      WorkerAdvances(b, s, w, s, Running(Exec(lazy, [], map[])));
    case Running(_) => RunKeepsOwnership(b, s, w, s');
    case Blocking(_) => BlockKeepsOwnership(b, s, w, s');
    case Clearing(_) => ClearKeepsOwnership(b, s, w, s');
    case Writing(_, _, _) => WriteKeepsOwnership(b, s, w, s');
    case Publish(e, wroteNew) =>
      WorkerAdvances(b, s, w, s.(results := s.results[s.pcs[w].tx := Some(ResultBy(b, s.pcs[w].tx, e))]), Resume(wroteNew));
    case Resume(_) => ResumeKeepsOwnership(b, s, w, s');
    case Conclude(_) => ConcludeKeepsOwnership(b, s, w, s');
    case _ => AdjustKeepsOwnership(b, s, w, s');
  }

  lemma RevokeKeepsOwnership(b: Block, s: State, w: nat, s': State)
    requires Ownership(b, s) && w < |s.pcs| && s.pcs[w].Validating? && s.pcs[w].tx < b.n && RevokeStep(b, s, w, s')
    ensures Ownership(b, s')
  {
    var t := s.pcs[w].tx;
    if IsFinished(s.sched.status[t].status) {
      assert OwnerOk(b, s, t) && ListOk(b, s, t);
      Handover(b, s, s', w, t, t);
    } else {
      QuietStep(b, s, w, s');
    }
  }

  lemma ConfirmKeepsOwnership(b: Block, s: State, w: nat, s': State)
    requires Ownership(b, s) && w < |s.pcs| && s.pcs[w].Validating? && s.pcs[w].tx < b.n && ConfirmStep(b, s, w, s')
    ensures Ownership(b, s')
  {
    var t := s.pcs[w].tx;
    if s.sched.status[t].status == Executed {
      assert OwnerOk(b, s, t) && ListOk(b, s, t);
      Handover(b, s, s', w, t, t);
    } else {
      QuietStep(b, s, w, s');
    }
  }

  lemma CheckKeepsOwnership(b: Block, s: State, w: nat, s': State)
    requires Ownership(b, s) && w < |s.pcs| && s.pcs[w].Validating? && s.pcs[w].tx < b.n && CheckStep(b, s, w, s')
    ensures Ownership(b, s')
  {
    match s.pcs[w].check
    case Begin => QuietStep(b, s, w, s');
    case Checking(_) => QuietStep(b, s, w, s');
    case Invalid => RevokeKeepsOwnership(b, s, w, s');
    case Valid => ConfirmKeepsOwnership(b, s, w, s');
  }

  lemma ResetKeepsOwnership(b: Block, s: State, w: nat, s': State)
    requires Ownership(b, s) && w < |s.pcs| && s.pcs[w].Aborting? && s.pcs[w].tx < b.n && ResetStep(b, s, w, s')
    ensures Ownership(b, s')
  {
    var t := s.pcs[w].tx;
    assert WorkerOk(b, s, w) && OwnerOk(b, s, t) && ListOk(b, s, t);
    Handover(b, s, s', w, t, t);
  }

  lemma AbortKeepsOwnership(b: Block, s: State, w: nat, s': State)
    requires Ownership(b, s) && w < |s.pcs| && s.pcs[w].Aborting? && s.pcs[w].tx < b.n && AbortStep(b, s, w, s')
    ensures Ownership(b, s')
  {
    assert WorkerOk(b, s, w);
    match s.pcs[w].abort
    case Converting(_) => QuietStep(b, s, w, s');
    case Reset => ResetKeepsOwnership(b, s, w, s');
  }

  lemma RescheduleKeepsOwnership(b: Block, s: State, w: nat, s': State)
    requires Ownership(b, s) && w < |s.pcs| && s.pcs[w].Rescheduling? && s.pcs[w].tx < b.n && RescheduleStep(b, s, w, s')
    ensures Ownership(b, s')
  {
    var t := s.pcs[w].tx;
    if s.pcs[w].reschedule.Retake? && s.sched.status[t].status == ReadyToExecute {
      TakeKeepsOwnership(b, s, w, t);
    } else {
      QuietStep(b, s, w, s');
    }
  }

  lemma StepKeepsOwnership(b: Block, s: State, w: nat, s': State)
    requires Ownership(b, s) && WorkerStep(b, s, w, s') && !s'.aborted
    ensures Ownership(b, s')
  {
    match s.pcs[w]
    case Idle(_) => IdleKeepsOwnership(b, s, w, s');
    case Claimed(_, _) => ClaimKeepsOwnership(b, s, w, s');
    case Working(_, _, _) => WorkKeepsOwnership(b, s, w, s');
    case Validating(_, _, _) => CheckKeepsOwnership(b, s, w, s');
    case Aborting(_, _) => AbortKeepsOwnership(b, s, w, s');
    case Rescheduling(_, _) => RescheduleKeepsOwnership(b, s, w, s');
  }
}
