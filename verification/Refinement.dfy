/** The engine cuts the scheduler's operations into atomic actions. A worker that happens
    not to be interrupted performs the very operations the scheduler class implements. */
module Refinement {
  import opened Types
  import opened MultiVersion
  import opened SchedulerSteps
  import opened Engine
  import opened Owners

  /** A stretch of a run in which only worker w acts. */
  ghost predicate Alone(b: Block, w: nat, path: seq<State>) {
    path != [] && forall k: nat :: ActsAt(b, w, path, k)
  }

  ghost predicate ActsAt(b: Block, w: nat, path: seq<State>, k: nat) {
    k < |path| - 1 ==> WorkerStep(b, path[k], w, path[k + 1])
  }

  function Last(path: seq<State>): State
    requires path != []
  {
    path[|path| - 1]
  }

  lemma One(b: Block, w: nat, s: State, s': State)
    requires WorkerStep(b, s, w, s')
    ensures Alone(b, w, [s, s']) && Last([s, s']) == s'
  {
    forall k: nat ensures ActsAt(b, w, [s, s'], k) {}
  }

  lemma Extend(b: Block, w: nat, path: seq<State>, s: State)
    requires Alone(b, w, path) && WorkerStep(b, Last(path), w, s)
    ensures Alone(b, w, path + [s]) && (path + [s])[0] == path[0] && Last(path + [s]) == s
  {
    forall k: nat ensures ActsAt(b, w, path + [s], k) {
      assert ActsAt(b, w, path, k);
    }
  }

  lemma Join(b: Block, w: nat, p: seq<State>, q: seq<State>)
    requires Alone(b, w, p) && Alone(b, w, q) && Last(p) == q[0]
    ensures Alone(b, w, p + q[1..]) && (p + q[1..])[0] == p[0] && Last(p + q[1..]) == Last(q)
  {
    forall k: nat ensures ActsAt(b, w, p + q[1..], k) {
      if k < |p| - 1 { assert ActsAt(b, w, p, k); }
      else { assert ActsAt(b, w, q, k - |p| + 1); }
    }
  }

  /** Apart from the scheduler, the worker itself and the auxiliary owners, nothing
      has changed. */
  predicate OnlyScheduler(s: State, w: nat, s': State, q: Sched, pc: Pc)
    requires w < |s.pcs|
  {
    |s'.owner| == |s.owner| && s'.(owner := s.owner) == s.(sched := q, pcs := s.pcs[w := pc])
  }

  lemma OwnershipGivesLists(b: Block, s: State)
    requires Ownership(b, s)
    ensures ListsInBlock(s.sched)
  {
    forall on, k | 0 <= on < b.n && 0 <= k < |s.sched.dependents[on]|
      ensures s.sched.dependents[on][k] < b.n && s.sched.dependents[on][k] != on
    {
      assert ListOk(b, s, on) && OwnerOk(b, s, s.sched.dependents[on][k]);
    }
  }

  // ---------- finish_execution ----------

  predicate Finishing(b: Block, s: State, w: nat, t: nat) {
    && Shape(b, s) && w < |s.pcs| && t < b.n && s.pcs[w].Working? && s.pcs[w].tx == t && s.pcs[w].work.Resume?
    && ListsInBlock(s.sched)
  }

  ghost predicate OthersHoldNothing(s: State, w: nat) {
    forall v, x :: 0 <= v < |s.pcs| && v != w ==> !HoldsLock(s.pcs[v], x)
  }

  /** Waking the first dependent takes two actions. */
  lemma WakeOne(b: Block, s: State, w: nat, t: nat) returns (path: seq<State>)
    requires Finishing(b, s, w, t) && OthersHoldNothing(s, w) && s.sched.dependents[t] != []
    ensures Alone(b, w, path) && path[0] == s
    ensures OnlyScheduler(s, w, Last(path), LowerExecution(ResumeFirst(s.sched, t), s.sched.dependents[t][0]), s.pcs[w])
  {
    var i, wroteNew, d := s.pcs[w].incarnation, s.pcs[w].work.wroteNew, s.sched.dependents[t][0];
    var s1 := Own(Go(s.(sched := ResumeFirst(s.sched, t)), w, Working(t, i, Resumed(wroteNew, d))), d, Nobody);
    assert ResumeStep(b, s, w, s1);
    One(b, w, s, s1);
    var s2 := Go(s1.(sched := LowerExecution(s1.sched, d)), w, Working(t, i, Resume(wroteNew)));
    assert AdjustStep(b, s1, w, s2);
    assert s2.pcs == s.pcs;
    Extend(b, w, [s, s1], s2);
    path := [s, s1] + [s2];
  }

  lemma {:induction false} WakeAll(b: Block, s: State, w: nat, t: nat) returns (path: seq<State>)
    requires Finishing(b, s, w, t) && OthersHoldNothing(s, w)
    ensures Alone(b, w, path) && path[0] == s
    ensures OnlyScheduler(s, w, Last(path), ResumeAll(s.sched, t),
                          Working(t, s.pcs[w].incarnation, SetMin(s.pcs[w].work.wroteNew)))
    decreases |s.sched.dependents[t]|
  {
    if s.sched.dependents[t] == [] {
      var s' := Go(s, w, Working(t, s.pcs[w].incarnation, SetMin(s.pcs[w].work.wroteNew)));
      assert ResumeStep(b, s, w, s');
      One(b, w, s, s');
      path := [s, s'];
    } else {
      var first := WakeOne(b, s, w, t);
      var rest := WakeAll(b, Last(first), w, t);
      Join(b, w, first, rest);
      path := first + rest[1..];
    }
  }

  lemma OneAdjust(b: Block, s: State, w: nat, t: nat) returns (path: seq<State>)
    requires Shape(b, s) && w < |s.pcs| && t < b.n && s.pcs[w].Working? && s.pcs[w].tx == t && Adjusts(s.pcs[w].work)
    ensures Alone(b, w, path) && path[0] == s
    ensures OnlyScheduler(s, w, Last(path), AdjustSched(s.sched, t, s.pcs[w].work),
                          Working(t, s.pcs[w].incarnation, AdjustNext(s.sched, t, s.pcs[w].work)))
  {
    var stage := s.pcs[w].work;
    var s' := Go(s.(sched := AdjustSched(s.sched, t, stage)), w, Working(t, s.pcs[w].incarnation, AdjustNext(s.sched, t, stage)));
    assert AdjustStep(b, s, w, s');
    One(b, w, s, s');
    path := [s, s'];
  }

  lemma OneConclude(b: Block, s: State, w: nat, t: nat) returns (path: seq<State>)
    requires Shape(b, s) && w < |s.pcs| && t < b.n && s.pcs[w].Working? && s.pcs[w].tx == t && s.pcs[w].work.Conclude?
    ensures Alone(b, w, path) && path[0] == s
    ensures OnlyScheduler(s, w, Last(path), SetStatus(s.sched, t, Executed),
                          if s.pcs[w].work.revalidate then Validating(t, s.pcs[w].incarnation, Begin) else TOP)
  {
    var s' := Own(Go(s.(sched := SetStatus(s.sched, t, Executed)), w,
                     if s.pcs[w].work.revalidate then Validating(t, s.pcs[w].incarnation, Begin) else TOP), t, Nobody);
    assert ConcludeStep(b, s, w, s');
    One(b, w, s, s');
    path := [s, s'];
  }

  /** The counters are settled: the minimum first, then the validation counter. */
  lemma Settle(b: Block, s: State, w: nat, t: nat) returns (path: seq<State>)
    requires Shape(b, s) && w < |s.pcs| && t < b.n && s.pcs[w].Working? && s.pcs[w].tx == t && s.pcs[w].work.SetMin?
    ensures Alone(b, w, path) && path[0] == s
    ensures
      var q := LowerMinValidation(s.sched, t);
      var q' := if t < q.validationIdx && s.pcs[w].work.wroteNew then LowerValidation(q, t + 1) else q;
      OnlyScheduler(s, w, Last(path), q', Working(t, s.pcs[w].incarnation, Conclude(t < q.validationIdx)))
  {
    path := OneAdjust(b, s, w, t);
    var look := OneAdjust(b, Last(path), w, t);
    Join(b, w, path, look);
    path := path + look[1..];
    if Last(path).pcs[w].work.Lower? {
      var lower := OneAdjust(b, Last(path), w, t);
      Join(b, w, path, lower);
      path := path + lower[1..];
    }
  }

  /** From the minimum to the end of finish_execution. */
  lemma Decide(b: Block, s: State, w: nat, t: nat) returns (path: seq<State>)
    requires Shape(b, s) && w < |s.pcs| && t < b.n && s.pcs[w].Working? && s.pcs[w].tx == t && s.pcs[w].work.SetMin?
    ensures Alone(b, w, path) && path[0] == s
    ensures
      var q := LowerMinValidation(s.sched, t);
      var q' := if t < q.validationIdx && s.pcs[w].work.wroteNew then LowerValidation(q, t + 1) else q;
      OnlyScheduler(s, w, Last(path), SetStatus(q', t, Executed), if t < q.validationIdx then Validating(t, s.pcs[w].incarnation, Begin) else TOP)
  {
    var settle := Settle(b, s, w, t);
    var conclude := OneConclude(b, Last(settle), w, t);
    Join(b, w, settle, conclude);
    path := settle + conclude[1..];
  }

  /** finish_execution, uninterrupted, is the operation of the scheduler: the same
      scheduler results, and the worker goes on with the task it returns. */
  lemma FinishExecutionAlone(b: Block, s: State, w: nat, t: nat) returns (path: seq<State>)
    requires Ownership(b, s) && OthersHoldNothing(s, w)
    requires t < b.n && w < |s.pcs| && s.pcs[w].Working? && s.pcs[w].tx == t && s.pcs[w].work.Resume?
    ensures ListsInBlock(s.sched)
    ensures Alone(b, w, path) && path[0] == s
    ensures
      var (q, task) := FinishExecution(s.sched, TxVersion(t, s.pcs[w].incarnation), true, s.pcs[w].work.wroteNew);
      OnlyScheduler(s, w, Last(path), q, if task.Some? then Validating(t, s.pcs[w].incarnation, Begin) else TOP)
  {
    OwnershipGivesLists(b, s);
    ResumeAllKeeps(s.sched, t);
    var first := WakeAll(b, s, w, t);
    var second := Decide(b, Last(first), w, t);
    Join(b, w, first, second);
    path := first + second[1..];
  }

  // ---------- finish_validation ----------

  /** After an abort: the transaction becomes ready, higher ones are validated again, and
      the worker takes the transaction on if the execution counter has passed it. */
  lemma FinishValidationAlone(b: Block, s: State, w: nat, t: nat) returns (path: seq<State>)
    requires Shape(b, s) && w < |s.pcs| && t < b.n && s.pcs[w] == Pc.Aborting(t, Reset) && OthersHoldNothing(s, w)
    ensures Alone(b, w, path) && path[0] == s
    ensures
      var (q, task) := FinishValidation(s.sched, t, true);
      OnlyScheduler(s, w, Last(path), q, if task.Some? then Working(t, task.value.version.incarnation, Start) else TOP)
  {
    var s1 := Own(Go(s.(sched := SetReady(s.sched, t)), w, Rescheduling(t, LowerAfterAbort)), t, Nobody);
    assert ResetStep(b, s, w, s1);
    One(b, w, s, s1);
    var s2 := Go(s1.(sched := LowerValidation(s1.sched, t + 1)), w, Rescheduling(t, LookExecution));
    assert RescheduleStep(b, s1, w, s2);
    Extend(b, w, [s, s1], s2);
    var s3 := Go(s2, w, if s2.sched.executionIdx > t then Rescheduling(t, Retake) else TOP);
    assert RescheduleStep(b, s2, w, s3);
    Extend(b, w, [s, s1] + [s2], s3);
    path := [s, s1] + [s2] + [s3];
    if s2.sched.executionIdx > t {
      var s4 := Take(s3, w, t);
      assert LockFree(s3, t);
      Extend(b, w, path, s4);
      path := path + [s4];
    }
  }

  /** After a valid verdict: one action, and the worker is idle again. */
  lemma ValidVerdictAlone(b: Block, s: State, w: nat, t: nat) returns (path: seq<State>)
    requires Shape(b, s) && w < |s.pcs| && t < b.n && OthersHoldNothing(s, w)
    requires s.pcs[w].Validating? && s.pcs[w].tx == t && s.pcs[w].check.Valid?
    ensures Alone(b, w, path) && path[0] == s
    ensures OnlyScheduler(s, w, Last(path), FinishValidation(s.sched, t, false).0, TOP)
    ensures FinishValidation(s.sched, t, false).1.None?
  {
    var s' := Go(s.(sched := Confirm(s.sched, t)), w, TOP);
    assert LockFree(s, t);
    assert ConfirmStep(b, s, w, s');
    One(b, w, s, s');
    path := [s, s'];
  }

  // ---------- try_validation_abort, add_dependency ----------

  /** After an invalid verdict: either the worker goes on with the abort, or it is too late
      and nothing is left to do but what a valid verdict asks for. */
  lemma AbortAlone(b: Block, s: State, w: nat, t: nat) returns (path: seq<State>)
    requires Shape(b, s) && w < |s.pcs| && t < b.n && OthersHoldNothing(s, w)
    requires s.pcs[w].Validating? && s.pcs[w].tx == t && s.pcs[w].check.Invalid?
    ensures Alone(b, w, path) && path[0] == s
    ensures
      var (q, aborting) := TryValidationAbort(s.sched, t);
      OnlyScheduler(s, w, Last(path), q,
                    if aborting then Pc.Aborting(t, Converting(s.lastWrite[t])) else Validating(t, s.pcs[w].incarnation, Valid))
  {
    var s' := if IsFinished(s.sched.status[t].status)
              then Own(Go(s.(sched := Revoke(s.sched, t)), w, Pc.Aborting(t, Converting(s.lastWrite[t]))), t, Worker(w))
              else Go(s, w, Validating(t, s.pcs[w].incarnation, Valid));
    assert LockFree(s, t);
    assert RevokeStep(b, s, w, s');
    One(b, w, s, s');
    path := [s, s'];
  }

  /** A blocked execution is put to sleep, or starts over if it need not wait any more. */
  lemma AddDependencyAlone(b: Block, s: State, w: nat, t: nat, on: nat) returns (path: seq<State>)
    requires Shape(b, s) && w < |s.pcs| && t < b.n && on < b.n && OthersHoldNothing(s, w)
    requires s.pcs[w].Working? && s.pcs[w].tx == t && s.pcs[w].work == Blocking(on)
    ensures Alone(b, w, path) && path[0] == s
    ensures
      var (q, added) := AddDependency(s.sched, t, on);
      OnlyScheduler(s, w, Last(path), q, if added then TOP else Working(t, s.pcs[w].incarnation, Start))
  {
    var s' := if IsFinished(s.sched.status[on].status) then Go(s, w, Working(t, s.pcs[w].incarnation, Start))
              else Own(Go(s.(sched := Enqueue(s.sched, t, on)), w, TOP), t, Queue(on));
    assert LockFree(s, on) && LockFree(s, t);
    assert BlockStep(b, s, w, s');
    One(b, w, s, s');
    path := [s, s'];
  }

  // ---------- next_task ----------

  /** Where a worker goes with the result of one turn. A turn without a result, and one
      after which it has to wait, lead back to the top of the loop. */
  function Destination(next: Option<Next>): Pc {
    match next
    case Some(Found(Execution(v))) => Working(v.tx, v.incarnation, Start)
    case Some(Found(Validation(v))) => Validating(v.tx, v.incarnation, Begin)
    case Some(Finished) => Exited
    case _ => TOP
  }

  predicate IsIdle(b: Block, s: State, w: nat, stage: IdleStage) {
    Shape(b, s) && w < |s.pcs| && !s.aborted && s.pcs[w] == Idle(stage)
  }

  lemma OneIdle(b: Block, s: State, w: nat) returns (path: seq<State>)
    requires Shape(b, s) && w < |s.pcs| && s.pcs[w].Idle?
    ensures Alone(b, w, path) && path[0] == s
    ensures OnlyScheduler(s, w, Last(path), IdleSched(s.sched, s.pcs[w].idle),
                          IdleNext(b.n, s.sched, s.aborted, s.pcs[w].idle))
  {
    var s' := Go(s.(sched := IdleSched(s.sched, s.pcs[w].idle)), w, IdleNext(b.n, s.sched, s.aborted, s.pcs[w].idle));
    assert IdleStep(b, s, w, s');
    One(b, w, s, s');
    path := [s, s'];
  }

  lemma OneClaim(b: Block, s: State, w: nat, t: nat) returns (path: seq<State>)
    requires Shape(b, s) && w < |s.pcs| && t < b.n && s.pcs[w].Claimed? && s.pcs[w].tx == t && OthersHoldNothing(s, w)
    ensures Alone(b, w, path) && path[0] == s
    ensures
      var ready := s.sched.status[t].status == ReadyToExecute;
      OnlyScheduler(s, w, Last(path), if ready then SetStatus(s.sched, t, Executing) else s.sched,
                    if ready then Working(t, s.sched.status[t].incarnation, Start)
                    else ClaimNext(s.sched.status[t], t, s.pcs[w].forValidation))
  {
    var s' := if s.sched.status[t].status == ReadyToExecute then Take(s, w, t)
              else Go(s, w, ClaimNext(s.sched.status[t], t, s.pcs[w].forValidation));
    assert LockFree(s, t);
    assert ClaimStep(b, s, w, s');
    One(b, w, s, s');
    path := [s, s'];
  }

  /** The way of the execution counter: claim, then try to execute. */
  lemma ClaimExecutionAlone(b: Block, s: State, w: nat) returns (path: seq<State>)
    requires IsIdle(b, s, w, IdleStage.ClaimExecution) && OthersHoldNothing(s, w)
    ensures Alone(b, w, path) && path[0] == s
    ensures
      var (q, version) := TryExecute(s.sched.(executionIdx := s.sched.executionIdx + 1), s.sched.executionIdx);
      OnlyScheduler(s, w, Last(path), q,
                    if version.Some? then Working(version.value.tx, version.value.incarnation, Start) else TOP)
  {
    path := OneIdle(b, s, w);
    if s.sched.executionIdx < b.n {
      var claim := OneClaim(b, Last(path), w, s.sched.executionIdx);
      Join(b, w, path, claim);
      path := path + claim[1..];
    }
  }

  /** The way of the validation counter, up to where its task or a retry is certain. */
  lemma ClaimValidationAlone(b: Block, s: State, w: nat) returns (path: seq<State>)
    requires IsIdle(b, s, w, IdleStage.ClaimValidation) && OthersHoldNothing(s, w)
    ensures Alone(b, w, path) && path[0] == s
    ensures
      var (q, task, retry) := SchedulerSteps.ClaimValidation(s.sched);
      OnlyScheduler(s, w, Last(path), q,
                    if task.Some? then Destination(Some(Found(task.value)))
                    else if retry then TOP else Idle(IdleStage.ClaimExecution))
  {
    path := OneIdle(b, s, w);
    if s.sched.validationIdx < b.n {
      var claim := OneClaim(b, Last(path), w, s.sched.validationIdx);
      Join(b, w, path, claim);
      path := path + claim[1..];
    }
  }

  /** Both counters are past the block. */
  lemma ExitTestAlone(b: Block, s: State, w: nat) returns (path: seq<State>)
    requires IsIdle(b, s, w, ExitCount)
    ensures Alone(b, w, path) && path[0] == s
    ensures OnlyScheduler(s, w, Last(path), s.sched, if s.sched.numValidated + s.sched.minValidationIdx >= b.n then Exited else TOP)
  {
    path := OneIdle(b, s, w);
    var test := OneIdle(b, Last(path), w);
    Join(b, w, path, test);
    path := path + test[1..];
  }

  /** If that way leads to neither, the execution counter has its turn. */
  lemma ValidationFirstAlone(b: Block, s: State, w: nat) returns (path: seq<State>)
    requires IsIdle(b, s, w, IdleStage.ClaimValidation) && OthersHoldNothing(s, w)
    requires s.sched.validationIdx < s.sched.executionIdx && s.sched.validationIdx < b.n
    ensures Alone(b, w, path) && path[0] == s
    ensures OnlyScheduler(s, w, Last(path), Turn(s.sched).0, Destination(Turn(s.sched).1))
  {
    path := ClaimValidationAlone(b, s, w);
    if Last(path).pcs[w] == Idle(IdleStage.ClaimExecution) {
      var more := ClaimExecutionAlone(b, Last(path), w);
      Join(b, w, path, more);
      path := path + more[1..];
    }
  }

  /** From loading both counters on. */
  lemma ChooseAlone(b: Block, s: State, w: nat) returns (path: seq<State>)
    requires IsIdle(b, s, w, LoadValidation(s.sched.executionIdx)) && OthersHoldNothing(s, w)
    ensures Alone(b, w, path) && path[0] == s
    ensures OnlyScheduler(s, w, Last(path), Turn(s.sched).0, Destination(Turn(s.sched).1))
  {
    path := OneIdle(b, s, w);
    var chosen, rest := Last(path), path;
    if chosen.pcs[w] == Idle(ExitCount) {
      rest := ExitTestAlone(b, chosen, w);
    } else if chosen.pcs[w] == Idle(IdleStage.ClaimValidation) {
      rest := ValidationFirstAlone(b, chosen, w);
    } else {
      rest := ClaimExecutionAlone(b, chosen, w);
    }
    Join(b, w, path, rest);
    path := path + rest[1..];
  }

  /** An idle worker, uninterrupted, performs next_task: it ends with the task of the
      scheduler's loop, leaves when that does, or is back where it began when it has to
      wait, and the scheduler has become what the loop makes of it. */
  lemma {:induction false} NextTaskAlone(b: Block, s: State, w: nat) returns (path: seq<State>)
    requires IsIdle(b, s, w, Top) && OthersHoldNothing(s, w)
    ensures Alone(b, w, path) && path[0] == s
    ensures OnlyScheduler(s, w, Last(path), NextTask(s.sched).0, Destination(Some(NextTask(s.sched).1)))
    decreases Distance(s.sched)
  {
    path := OneIdle(b, s, w);
    var turn := ChooseAlone(b, Last(path), w);
    Join(b, w, path, turn);
    path := path + turn[1..];
    if Turn(s.sched).1.None? {
      var rest := NextTaskAlone(b, Last(path), w);
      Join(b, w, path, rest);
      path := path + rest[1..];
    }
  }

  // ---------- convert_writes_to_estimates ----------

  /** Nothing but the store and the worker has changed, and these locations of t, where
      the store knows them, hold an estimate. */
  ghost predicate Converted(s: State, w: nat, s': State, t: nat, todo: set<Loc>)
    requires w < |s.pcs|
  {
    && s' == s.(store := s'.store, pcs := s.pcs[w := Pc.Aborting(t, Reset)]) && s'.store.Keys == s.store.Keys
    && forall l, j :: EntryAt(s'.store, l, j) ==
                      if j == t && l in todo && l in s.store then Some(Estimate) else EntryAt(s.store, l, j)
  }

  /** After an abort, uninterrupted, exactly the last written locations become estimates. */
  lemma {:induction false} ConvertAlone(b: Block, s: State, w: nat, t: nat) returns (path: seq<State>)
    requires Shape(b, s) && w < |s.pcs| && t < b.n && s.pcs[w].Aborting? && s.pcs[w].tx == t && s.pcs[w].abort.Converting?
    ensures Alone(b, w, path) && path[0] == s
    ensures Converted(s, w, Last(path), t, s.pcs[w].abort.todo)
    decreases |s.pcs[w].abort.todo|
  {
    var todo := s.pcs[w].abort.todo;
    if todo == {} {
      var s' := Go(s, w, Pc.Aborting(t, Reset));
      assert ConvertStep(b, s, w, s');
      One(b, w, s, s');
      path := [s, s'];
    } else {
      var l :| l in todo;
      var s1 := Go(s.(store := ConvertOne(s.store, l, t)), w, Pc.Aborting(t, Converting(todo - {l})));
      assert ConvertStep(b, s, w, s1);
      One(b, w, s, s1);
      var rest := ConvertAlone(b, s1, w, t);
      assert s1.store.Keys == s.store.Keys;
      Join(b, w, [s, s1], rest);
      path := [s, s1] + rest[1..];
    }
  }

  // ---------- One step of an execution ----------

  /** Whatever the virtual machine asks for next: an error ends the run, as missing funds
      or a wrong nonce do for the first transaction, while any other waits for the one
      before it; a finished execution is logged and its read set takes effect. */
  lemma MachineStep(b: Block, s: State, w: nat, t: nat, s': State)
    requires Shape(b, s) && w < |s.pcs| && t < b.n && s.pcs[w].Working? && s.pcs[w].tx == t && s.pcs[w].work.Running?
    requires WorkerStep(b, s, w, s')
    ensures
      var i, e := s.pcs[w].incarnation, s.pcs[w].work.exec;
      match b.vm(t, e.lazy, Values(e.events))
      case Fail => s' == s.(aborted := true, pcs := s.pcs[w := Exited])
      case Stuck =>
        s' == if t == 0 then s.(aborted := true, pcs := s.pcs[w := Exited])
              else s.(pcs := s.pcs[w := Working(t, i, Blocking(t - 1))])
      case Finish(_, _) =>
        && s'.lastRead == s.lastRead[t := e.readSet] && s'.log == s.log[TxVersion(t, i) := e]
        && s'.lazyAddresses == (if e.lazy then s.lazyAddresses + b.parties(t) else s.lazyAddresses)
        && s' == s.(lastRead := s'.lastRead, log := s'.log, lazyAddresses := s'.lazyAddresses,
                    pcs := s.pcs[w := Working(t, i, Clearing(e))])
      case Read(_) => s' == s.(pcs := s'.pcs)
  {
    assert RunStep(b, s, w, s');
  }

  /** A read that is blocked waits for the transaction it names, an inconsistent one starts
      over, and one that succeeds is remembered with its origins. */
  lemma ReadStep(b: Block, s: State, w: nat, t: nat, l: Loc, s': State)
    requires Shape(b, s) && w < |s.pcs| && t < b.n && s.pcs[w].Working? && s.pcs[w].tx == t && s.pcs[w].work.Running?
    requires b.vm(t, s.pcs[w].work.exec.lazy, Values(s.pcs[w].work.exec.events)) == Action.Read(l) && WorkerStep(b, s, w, s')
    ensures
      var i, e := s.pcs[w].incarnation, s.pcs[w].work.exec;
      var r := MultiVersion.Read(s.store, l, b.stored(l), t, if l in e.readSet then e.readSet[l] else []);
      s' == s.(pcs := s.pcs[w := Working(t, i, match r
                                               case Blocked(on) => Blocking(on)
                                               case Inconsistent => Start
                                               case Got(os, v) => Running(Exec(e.lazy, e.events + [Event(l, v)], e.readSet[l := os])))])
  {
    assert RunStep(b, s, w, s');
  }

  // ---------- record ----------

  /** Nothing but the store, the written locations of t and the worker has changed. */
  predicate OnlyMemory(s: State, w: nat, s': State, t: nat, written: set<Loc>, pc: Pc)
    requires w < |s.pcs| && t < |s.lastWrite|
  {
    s' == s.(store := s'.store, lastWrite := s.lastWrite[t := written], pcs := s.pcs[w := pc])
  }

  predicate AtRecord(b: Block, s: State, w: nat, t: nat) {
    Shape(b, s) && w < |s.pcs| && t < b.n && s.pcs[w].Working? && s.pcs[w].tx == t
  }

  /** The old locations outside writes are gone. */
  ghost predicate Cleared(s: State, w: nat, s': State, t: nat, writes: map<Loc, Write>, pc: Pc)
    requires w < |s.pcs| && t < |s.lastWrite|
  {
    && OnlyMemory(s, w, s', t, s.lastWrite[t] * writes.Keys, pc)
    && forall l, j :: EntryAt(s'.store, l, j) ==
                      if j == t && l in s.lastWrite[t] && l !in writes then None else EntryAt(s.store, l, j)
  }

  lemma ClearFirst(b: Block, s: State, w: nat, t: nat, writes: map<Loc, Write>, l: Loc)
    requires AtRecord(b, s, w, t) && s.pcs[w].work.Clearing? && writes == WritesBy(b, t, s.pcs[w].work.exec)
    requires l in s.lastWrite[t] && l !in writes
    ensures Alone(b, w, [s, ClearOne(s, t, l)])
    ensures AtRecord(b, ClearOne(s, t, l), w, t) && ClearOne(s, t, l).pcs == s.pcs
    ensures |ClearOne(s, t, l).lastWrite[t] - writes.Keys| < |s.lastWrite[t] - writes.Keys|
  {
    var s1 := ClearOne(s, t, l);
    assert ClearStep(b, s, w, s1);
    One(b, w, s, s1);
    assert s1.lastWrite[t] - writes.Keys == s.lastWrite[t] - writes.Keys - {l};
  }

  lemma ClearLast(b: Block, s: State, w: nat, t: nat, writes: map<Loc, Write>, s': State)
    requires AtRecord(b, s, w, t) && s.pcs[w].work.Clearing? && writes == WritesBy(b, t, s.pcs[w].work.exec)
    requires s.lastWrite[t] <= writes.Keys
    requires s' == Go(s, w, Working(t, s.pcs[w].incarnation, Writing(s.pcs[w].work.exec, writes.Keys, false)))
    ensures Alone(b, w, [s, s']) && Cleared(s, w, s', t, writes, s'.pcs[w])
  {
    assert ClearStep(b, s, w, s');
    One(b, w, s, s');
    assert s.lastWrite[t] * writes.Keys == s.lastWrite[t];
  }

  lemma ClearRest(s: State, w: nat, t: nat, writes: map<Loc, Write>, l: Loc, s': State, pc: Pc)
    requires w < |s.pcs| && t < |s.lastWrite| && l in s.lastWrite[t] && l !in writes
    requires Cleared(ClearOne(s, t, l), w, s', t, writes, pc)
    ensures Cleared(s, w, s', t, writes, pc)
  {
    assert (s.lastWrite[t] - {l}) * writes.Keys == s.lastWrite[t] * writes.Keys;
  }

  lemma {:induction false} ClearAlone(b: Block, s: State, w: nat, t: nat, writes: map<Loc, Write>) returns (path: seq<State>)
    requires AtRecord(b, s, w, t) && s.pcs[w].work.Clearing? && writes == WritesBy(b, t, s.pcs[w].work.exec)
    ensures Alone(b, w, path) && path[0] == s
    ensures Cleared(s, w, Last(path), t, writes, Working(t, s.pcs[w].incarnation, Writing(s.pcs[w].work.exec, writes.Keys, false)))
    decreases |s.lastWrite[t] - writes.Keys|
  {
    var pc := Working(t, s.pcs[w].incarnation, Writing(s.pcs[w].work.exec, writes.Keys, false));
    if s.lastWrite[t] <= writes.Keys {
      ClearLast(b, s, w, t, writes, Go(s, w, pc));
      path := [s, Go(s, w, pc)];
    } else {
      var l :| l in s.lastWrite[t] && l !in writes;
      ClearFirst(b, s, w, t, writes, l);
      var rest := ClearAlone(b, ClearOne(s, t, l), w, t, writes);
      ClearRest(s, w, t, writes, l, Last(rest), pc);
      Join(b, w, [s, ClearOne(s, t, l)], rest);
      path := [s, ClearOne(s, t, l)] + rest[1..];
    }
  }

  /** The locations in todo are written. */
  ghost predicate Written(s: State, w: nat, s': State, t: nat, i: nat, writes: map<Loc, Write>, todo: set<Loc>, pc: Pc)
    requires w < |s.pcs| && t < |s.lastWrite| && todo <= writes.Keys
  {
    && OnlyMemory(s, w, s', t, s.lastWrite[t] + todo, pc)
    && forall l, j :: EntryAt(s'.store, l, j) == if j == t && l in todo then Some(Data(i, writes[l])) else EntryAt(s.store, l, j)
  }

  predicate AtFill(b: Block, s: State, w: nat, t: nat, writes: map<Loc, Write>) {
    && AtRecord(b, s, w, t) && s.pcs[w].work.Writing?
    && writes == WritesBy(b, t, s.pcs[w].work.exec) && s.pcs[w].work.todo <= writes.Keys
  }

  function FillOne(s: State, w: nat, t: nat, x: Write, l: Loc): State
    requires w < |s.pcs| && t < |s.lastWrite| && s.pcs[w].Working? && s.pcs[w].work.Writing?
  {
    WriteOne(s, w, t, s.pcs[w].incarnation, x, s.pcs[w].work.exec, s.pcs[w].work.todo, s.pcs[w].work.wroteNew, l)
  }

  lemma FillFirst(b: Block, s: State, w: nat, t: nat, writes: map<Loc, Write>, l: Loc)
    requires AtFill(b, s, w, t, writes) && l in s.pcs[w].work.todo
    ensures Alone(b, w, [s, FillOne(s, w, t, writes[l], l)])
    ensures AtFill(b, FillOne(s, w, t, writes[l], l), w, t, writes)
  {
    var s1 := FillOne(s, w, t, writes[l], l);
    assert WriteStep(b, s, w, s1);
    One(b, w, s, s1);
  }

  lemma FillLast(b: Block, s: State, w: nat, t: nat, writes: map<Loc, Write>, s': State)
    requires AtFill(b, s, w, t, writes) && s.pcs[w].work.todo == {}
    requires s' == Go(s, w, Working(t, s.pcs[w].incarnation, Publish(s.pcs[w].work.exec, s.pcs[w].work.wroteNew)))
    ensures Alone(b, w, [s, s']) && Written(s, w, s', t, s.pcs[w].incarnation, writes, {}, s'.pcs[w])
  {
    assert WriteStep(b, s, w, s');
    One(b, w, s, s');
    assert s.lastWrite[t] + {} == s.lastWrite[t];
  }

  lemma FillRest(s: State, w: nat, t: nat, i: nat, writes: map<Loc, Write>, todo: set<Loc>, l: Loc, s1: State, s': State, pc: Pc)
    requires w < |s.pcs| && t < |s.lastWrite| && l in todo && todo <= writes.Keys && w < |s1.pcs| && t < |s1.lastWrite|
    requires s1 == s.(store := SetEntry(s.store, l, t, Data(i, writes[l])), lastWrite := s.lastWrite[t := s.lastWrite[t] + {l}], pcs := s1.pcs)
    requires s1.pcs == s.pcs[w := s1.pcs[w]] && Written(s1, w, s', t, i, writes, todo - {l}, pc)
    ensures Written(s, w, s', t, i, writes, todo, pc)
  {
    assert s.lastWrite[t] + {l} + (todo - {l}) == s.lastWrite[t] + todo;
  }

  lemma SubsetStep(p: set<Loc>, q: set<Loc>, l: Loc)
    requires l in p
    ensures p <= q <==> l in q && p - {l} <= q + {l}
  {
    if l in q && p - {l} <= q + {l} {
      forall x | x in p ensures x in q {
        if x != l { assert x in p - {l}; }
      }
    }
  }

  lemma {:induction false} FillAlone(b: Block, s: State, w: nat, t: nat, writes: map<Loc, Write>) returns (path: seq<State>)
    requires AtFill(b, s, w, t, writes)
    ensures Alone(b, w, path) && path[0] == s
    ensures
      var work := s.pcs[w].work;
      Written(s, w, Last(path), t, s.pcs[w].incarnation, writes, work.todo,
              Working(t, s.pcs[w].incarnation, Publish(work.exec, work.wroteNew || !(work.todo <= s.lastWrite[t]))))
    decreases |s.pcs[w].work.todo|
  {
    var i, work := s.pcs[w].incarnation, s.pcs[w].work;
    if work.todo == {} {
      var s' := Go(s, w, Working(t, i, Publish(work.exec, work.wroteNew)));
      FillLast(b, s, w, t, writes, s');
      path := [s, s'];
    } else {
      var l :| l in work.todo;
      var s1 := FillOne(s, w, t, writes[l], l);
      FillFirst(b, s, w, t, writes, l);
      var rest := FillAlone(b, s1, w, t, writes);
      SubsetStep(work.todo, s.lastWrite[t], l);
      FillRest(s, w, t, i, writes, work.todo, l, s1, Last(rest), Last(rest).pcs[w]);
      Join(b, w, [s, s1], rest);
      path := [s, s1] + rest[1..];
    }
  }

  /** record, uninterrupted, replaces exactly the entries of its transaction: the new
      writes are there at the new incarnation, the locations remembered from before and
      not written again are gone, and it knows whether a location is new. */
  lemma RecordAlone(b: Block, s: State, w: nat, t: nat, writes: map<Loc, Write>) returns (path: seq<State>)
    requires AtRecord(b, s, w, t) && s.pcs[w].work.Clearing? && writes == WritesBy(b, t, s.pcs[w].work.exec)
    ensures Alone(b, w, path) && path[0] == s
    ensures OnlyMemory(s, w, Last(path), t, writes.Keys,
                       Working(t, s.pcs[w].incarnation, Publish(s.pcs[w].work.exec, !(writes.Keys <= s.lastWrite[t]))))
    ensures forall l, j :: EntryAt(Last(path).store, l, j) ==
              if j != t then EntryAt(s.store, l, j)
              else if l in writes then Some(Data(s.pcs[w].incarnation, writes[l]))
              else if l in s.lastWrite[t] then None
              else EntryAt(s.store, l, j)
  {
    var clear := ClearAlone(b, s, w, t, writes);
    var fill := FillAlone(b, Last(clear), w, t, writes);
    Join(b, w, clear, fill);
    path := clear + fill[1..];
    assert s.lastWrite[t] * writes.Keys + writes.Keys == writes.Keys;
    assert writes.Keys <= s.lastWrite[t] * writes.Keys <==> writes.Keys <= s.lastWrite[t];
  }

  // ---------- validate_read_locations ----------

  ghost predicate AllRead(s: State, t: nat, todo: set<Loc>)
    requires t < |s.lastRead|
  {
    forall l :: l in todo ==> StillReads(s, t, l)
  }

  lemma AllReadStep(s: State, s': State, t: nat, todo: set<Loc>, l: Loc)
    requires t < |s.lastRead| && s'.lastRead == s.lastRead && s'.store == s.store && l in todo && StillReads(s, t, l)
    ensures AllRead(s, t, todo) <==> AllRead(s', t, todo - {l})
  {
    forall k ensures StillReads(s, t, k) == StillReads(s', t, k) {}
    if AllRead(s', t, todo - {l}) {
      forall k | k in todo ensures StillReads(s, t, k) {
        assert k != l ==> StillReads(s', t, k);
      }
    }
  }

  lemma CheckFirst(b: Block, s: State, w: nat, t: nat, s': State)
    requires Shape(b, s) && w < |s.pcs| && t < b.n && s.pcs[w].Validating? && s.pcs[w].tx == t && s.pcs[w].check.Checking?
    requires ReadCheckStep(b, s, w, s')
    ensures Alone(b, w, [s, s'])
  {
    One(b, w, s, s');
  }

  /** Validation, uninterrupted, is valid exactly when every recorded read still matches. */
  lemma {:induction false} CheckAlone(b: Block, s: State, w: nat, t: nat) returns (path: seq<State>)
    requires Shape(b, s) && w < |s.pcs| && t < b.n && s.pcs[w].Validating? && s.pcs[w].tx == t && s.pcs[w].check.Checking?
    ensures Alone(b, w, path) && path[0] == s
    ensures Last(path) == Go(s, w, Validating(t, s.pcs[w].incarnation, if AllRead(s, t, s.pcs[w].check.todo) then Valid else Invalid))
    decreases |s.pcs[w].check.todo|
  {
    var todo := s.pcs[w].check.todo;
    if todo == {} {
      path := [s, Go(s, w, Validating(t, s.pcs[w].incarnation, Valid))];
      CheckFirst(b, s, w, t, Last(path));
    } else {
      var l :| l in todo;
      var s1 := Go(s, w, Validating(t, s.pcs[w].incarnation, CheckOne(s, t, todo, l)));
      CheckFirst(b, s, w, t, s1);
      path := [s, s1];
      if StillReads(s, t, l) {
        var rest := CheckAlone(b, s1, w, t);
        AllReadStep(s, s1, t, todo, l);
        Join(b, w, path, rest);
        path := path + rest[1..];
      }
    }
  }
}
