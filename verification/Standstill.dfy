/** The engine never comes to a standstill: as long as some worker is busy with a
    transaction, one that is busy can act, whatever idle workers do besides. Only the
    status lock that finish_execution keeps makes others wait, and it is kept in
    ascending order. */
module Standstill {
  import opened Types
  import opened SchedulerSteps
  import opened Engine
  import opened Owners
  import opened Columns
  import opened Invariant

  /** The status locks the next action of a worker takes. */
  predicate NeedsLock(s: State, pc: Pc, x: nat) {
    match pc
    case Claimed(t, _) => x == t
    case Validating(t, _, check) => x == t && (check.Invalid? || check.Valid?)
    case Aborting(t, abort) => x == t && abort.Reset?
    case Rescheduling(t, reschedule) => x == t && reschedule.Retake?
    case Working(t, _, Blocking(on)) => x == t || x == on
    case Working(t, _, Publish(_, _)) => x == t
    case Working(t, _, Resume(_)) => t < |s.sched.dependents| && s.sched.dependents[t] != [] && x == s.sched.dependents[t][0]
    case _ => false
  }

  ghost predicate CanAct(b: Block, s: State, w: nat) {
    exists s' :: WorkerStep(b, s, w, s')
  }

  /** Neither looking for a task nor gone. */
  predicate IsBusy(s: State, w: nat) {
    w < |s.pcs| && !s.pcs[w].Idle? && !s.pcs[w].Exited?
  }

  lemma Acts(b: Block, s: State, w: nat, s': State)
    requires WorkerStep(b, s, w, s')
    ensures CanAct(b, s, w)
  {
  }

  lemma RecordActs(b: Block, s: State, w: nat)
    requires Ownership(b, s) && ColumnsOk(b, s) && w < |s.pcs| && s.pcs[w].Working? && (s.pcs[w].work.Clearing? || s.pcs[w].work.Writing?)
    ensures CanAct(b, s, w)
  {
    assert WorkerOk(b, s, w);
    var t, i, stage := s.pcs[w].tx, s.pcs[w].incarnation, s.pcs[w].work;
    var writes := WritesBy(b, t, stage.exec);
    assert ColumnOk(b, s, t, PhaseOf(s, t));
    if stage.Clearing? {
      if s.lastWrite[t] <= writes.Keys {
        Acts(b, s, w, Go(s, w, Working(t, i, Writing(stage.exec, writes.Keys, false))));
      } else {
        var l :| l in s.lastWrite[t] && l !in writes;
        Acts(b, s, w, ClearOne(s, t, l));
      }
    } else if stage.todo == {} {
      Acts(b, s, w, Go(s, w, Working(t, i, Publish(stage.exec, stage.wroteNew))));
    } else {
      var l :| l in stage.todo;
      Acts(b, s, w, WriteOne(s, w, t, i, writes[l], stage.exec, stage.todo, stage.wroteNew, l));
    }
  }

  lemma ResumeActs(b: Block, s: State, w: nat)
    requires Ownership(b, s) && w < |s.pcs| && s.pcs[w].Working? && s.pcs[w].work.Resume?
    requires forall x :: NeedsLock(s, s.pcs[w], x) ==> LockFree(s, x)
    ensures CanAct(b, s, w)
  {
    assert WorkerOk(b, s, w);
    var t, i, wroteNew := s.pcs[w].tx, s.pcs[w].incarnation, s.pcs[w].work.wroteNew;
    var list := s.sched.dependents[t];
    if list == [] {
      Acts(b, s, w, Go(s, w, Working(t, i, SetMin(wroteNew))));
    } else {
      assert ListOk(b, s, t);
      Acts(b, s, w, Own(Go(s.(sched := ResumeFirst(s.sched, t)), w, Working(t, i, Resumed(wroteNew, list[0]))), list[0], Nobody));
    }
  }

  lemma WorkActs(b: Block, s: State, w: nat)
    requires Ownership(b, s) && ColumnsOk(b, s) && w < |s.pcs| && s.pcs[w].Working?
    requires forall x :: NeedsLock(s, s.pcs[w], x) ==> LockFree(s, x)
    ensures CanAct(b, s, w)
  {
    assert WorkerOk(b, s, w);
    var t, i, stage := s.pcs[w].tx, s.pcs[w].incarnation, s.pcs[w].work;
    match stage {
      case Start =>
        Acts(b, s, w, Go(s, w, Working(t, i, Running(Exec(false, [], map[])))));
      case Running(e) =>
        Acts(b, s, w, if Fails(b, t, e) then Go(s.(aborted := true), w, Exited)
                      else if NextAction(b, t, e).Finish? then BeginRecord(b, s, w, t, i, e)
                      else Go(s, w, Working(t, i, RunNext(b, s.store, t, e))));
      case Blocking(on) =>
        Acts(b, s, w, if IsFinished(s.sched.status[on].status) then Go(s, w, Working(t, i, Start))
                      else Own(Go(s.(sched := Enqueue(s.sched, t, on)), w, TOP), t, Queue(on)));
      case Clearing(_) => RecordActs(b, s, w);
      case Writing(_, _, _) => RecordActs(b, s, w);
      case Publish(e, wroteNew) =>
        Acts(b, s, w, Go(s.(results := s.results[t := Some(ResultBy(b, t, e))]), w, Working(t, i, Resume(wroteNew))));
      case Resume(_) => ResumeActs(b, s, w);
      case Conclude(revalidate) =>
        Acts(b, s, w, Own(Go(s.(sched := SetStatus(s.sched, t, Executed)), w,
                             if revalidate then Validating(t, i, Begin) else TOP), t, Nobody));
      case _ =>
        Acts(b, s, w, Go(s.(sched := AdjustSched(s.sched, t, stage)), w, Working(t, i, AdjustNext(s.sched, t, stage))));
    }
  }

  lemma CheckActs(b: Block, s: State, w: nat)
    requires Ownership(b, s) && ColumnsOk(b, s) && w < |s.pcs| && s.pcs[w].Validating?
    requires forall x :: NeedsLock(s, s.pcs[w], x) ==> LockFree(s, x)
    ensures CanAct(b, s, w)
  {
    assert WorkerOk(b, s, w);
    var t, i := s.pcs[w].tx, s.pcs[w].incarnation;
    match s.pcs[w].check {
      case Begin =>
        Acts(b, s, w, Go(s, w, Validating(t, i, Checking(s.lastRead[t].Keys))));
      case Checking(todo) =>
        if todo == {} {
          Acts(b, s, w, Go(s, w, Validating(t, i, Valid)));
        } else {
          var l :| l in todo;
          Acts(b, s, w, Go(s, w, Validating(t, i, CheckOne(s, t, todo, l))));
        }
      case Invalid =>
        Acts(b, s, w, if IsFinished(s.sched.status[t].status)
                      then Own(Go(s.(sched := Revoke(s.sched, t)), w, Pc.Aborting(t, Converting(s.lastWrite[t]))), t, Worker(w))
                      else Go(s, w, Validating(t, i, Valid)));
      case Valid =>
        Acts(b, s, w, Go(s.(sched := Confirm(s.sched, t)), w, TOP));
    }
  }

  /** A worker that gets the locks it needs can act. */
  lemma WorkerActs(b: Block, s: State, w: nat)
    requires Ownership(b, s) && ColumnsOk(b, s) && w < |s.pcs| && !s.pcs[w].Exited?
    requires forall x :: NeedsLock(s, s.pcs[w], x) ==> LockFree(s, x)
    ensures CanAct(b, s, w)
  {
    assert WorkerOk(b, s, w);
    match s.pcs[w] {
      case Idle(stage) =>
        Acts(b, s, w, Go(s.(sched := IdleSched(s.sched, stage)), w, IdleNext(b.n, s.sched, s.aborted, stage)));
      case Exited =>
      case Claimed(t, forValidation) =>
        var tx := s.sched.status[t];
        Acts(b, s, w, if tx.status == ReadyToExecute then Take(s, w, t) else Go(s, w, ClaimNext(tx, t, forValidation)));
      case Working(_, _, _) => WorkActs(b, s, w);
      case Validating(_, _, _) => CheckActs(b, s, w);
      case Aborting(t, abort) =>
        match abort {
          case Converting(todo) =>
            if todo == {} {
              Acts(b, s, w, Go(s, w, Pc.Aborting(t, Reset)));
            } else {
              var l :| l in todo;
              Acts(b, s, w, Go(s.(store := ConvertOne(s.store, l, t)), w, Pc.Aborting(t, Converting(todo - {l}))));
            }
          case Reset =>
            Acts(b, s, w, Own(Go(s.(sched := SetReady(s.sched, t)), w, Rescheduling(t, LowerAfterAbort)), t, Nobody));
        }
      case Rescheduling(t, reschedule) =>
        match reschedule {
          case LowerAfterAbort =>
            Acts(b, s, w, Go(s.(sched := LowerValidation(s.sched, t + 1)), w, Rescheduling(t, LookExecution)));
          case LookExecution =>
            Acts(b, s, w, Go(s, w, if s.sched.executionIdx > t then Rescheduling(t, Retake) else TOP));
          case Retake =>
            Acts(b, s, w, if s.sched.status[t].status == ReadyToExecute then Take(s, w, t) else Go(s, w, TOP));
        }
    }
  }

  predicate IsHolder(s: State, w: nat) {
    w < |s.pcs| && s.pcs[w].Working? && HoldsLock(s.pcs[w], s.pcs[w].tx)
  }

  /** Among the first n workers, the holder of the highest lock, if there is any. */
  function HighestHolder(s: State, n: nat): (r: Option<nat>)
    requires n <= |s.pcs|
    ensures r.None? ==> forall w: nat :: w < n ==> !IsHolder(s, w)
    ensures r.Some? ==> r.value < n && IsHolder(s, r.value)
                        && forall w: nat :: w < n && IsHolder(s, w) ==> s.pcs[w].tx <= s.pcs[r.value].tx
  {
    if n == 0 then None
    else
      var r := HighestHolder(s, n - 1);
      if !IsHolder(s, n - 1) then r
      else if r.None? || s.pcs[r.value].tx < s.pcs[n - 1].tx then Some(n - 1)
      else r
  }

  /** No standstill: in every reachable state with a busy worker, some busy worker can
      act. */
  lemma SomebodyBusyCanAct(b: Block, s: State, w: nat) returns (v: nat)
    requires WellFormed(b) && Reachable(b, s) && !s.aborted && IsBusy(s, w)
    ensures IsBusy(s, v) && exists s' :: WorkerStep(b, s, v, s')
  {
    ReachableInv(b, s);
    match HighestHolder(s, |s.pcs|) {
      case None =>
        v := w;
        forall x, u | 0 <= u < |s.pcs| && NeedsLock(s, s.pcs[w], x) ensures !HoldsLock(s.pcs[u], x) {
          assert !IsHolder(s, u);
        }
        WorkerActs(b, s, w);
      case Some(highest) =>
        v := highest;
        assert WorkerOk(b, s, v) && ListOk(b, s, s.pcs[v].tx);
        forall x, u | 0 <= u < |s.pcs| && NeedsLock(s, s.pcs[v], x) ensures !HoldsLock(s.pcs[u], x) {
          assert OwnerOk(b, s, x);
          assert HoldsLock(s.pcs[u], x) ==> IsHolder(s, u);
        }
        WorkerActs(b, s, v);
    }
  }

  /** A worker without a task waits for nobody, so some worker can act unless all have left. */
  lemma SomebodyCanAct(b: Block, s: State)
    requires WellFormed(b) && Reachable(b, s) && !s.aborted && !AllExited(s)
    ensures exists s' :: Step(b, s, s')
  {
    ReachableInv(b, s);
    var w: nat :| w < |s.pcs| && !s.pcs[w].Exited?;
    if IsBusy(s, w) {
      var v := SomebodyBusyCanAct(b, s, w);
      var s' :| WorkerStep(b, s, v, s');
      assert Step(b, s, s');
    } else {
      WorkerActs(b, s, w);
      var s' :| WorkerStep(b, s, w, s');
      assert Step(b, s, s');
    }
  }
}
