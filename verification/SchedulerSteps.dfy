/** The scheduler as a value, and the atomic actions on it. Everything one worker does
    while it holds a status lock and touches at most one shared counter is one action:
    nobody can see the lock's contents in between. */
module SchedulerSteps {
  import opened Types

  datatype Sched = Sched(
    status: seq<TxStatus>,
    dependents: seq<seq<nat>>,
    executionIdx: nat,
    validationIdx: nat,
    minValidationIdx: nat,
    numValidated: int)

  predicate Shaped(q: Sched, n: nat) {
    |q.status| == n && |q.dependents| == n
  }

  function Initial(n: nat): Sched {
    Sched(seq(n, i => TxStatus(0, ReadyToExecute)), seq(n, i => []), 0, n, n, 0)
  }

  predicate IsFinished(st: Status) {
    st == Executed || st == Validated
  }

  function SetStatus(q: Sched, t: nat, st: Status): Sched
    requires t < |q.status|
  {
    q.(status := q.status[t := q.status[t].(status := st)])
  }

  function LowerExecution(q: Sched, t: nat): Sched { q.(executionIdx := Min(q.executionIdx, t)) }

  function LowerValidation(q: Sched, t: nat): Sched { q.(validationIdx := Min(q.validationIdx, t)) }

  function LowerMinValidation(q: Sched, t: nat): Sched { q.(minValidationIdx := Min(q.minValidationIdx, t)) }

  /** Back to the start, as the next incarnation. */
  function SetReady(q: Sched, t: nat): Sched
    requires t < |q.status|
  {
    q.(status := q.status[t := TxStatus(q.status[t].incarnation + 1, ReadyToExecute)])
  }

  /** Queue a running transaction behind the one it has to wait for. */
  function Enqueue(q: Sched, t: nat, on: nat): Sched
    requires t < |q.status| && on < |q.dependents|
  {
    SetStatus(q, t, Aborting).(dependents := q.dependents[on := q.dependents[on] + [t]])
  }

  /** Take the first dependent out of its list and make it ready. */
  function ResumeFirst(q: Sched, on: nat): Sched
    requires on < |q.dependents| && q.dependents[on] != [] && q.dependents[on][0] < |q.status|
  {
    SetReady(q, q.dependents[on][0]).(dependents := q.dependents[on := q.dependents[on][1..]])
  }

  /** Take a finished transaction back, whatever incarnation it is in. */
  function Revoke(q: Sched, t: nat): Sched
    requires t < |q.status| && IsFinished(q.status[t].status)
  {
    SetStatus(q, t, Aborting).(
      numValidated := if q.status[t].status == Validated then q.numValidated - 1 else q.numValidated)
  }

  /** Only an executed transaction becomes validated. */
  function Confirm(q: Sched, t: nat): Sched
    requires t < |q.status|
  {
    if q.status[t].status == Executed then SetStatus(q, t, Validated).(numValidated := q.numValidated + 1) else q
  }

  // ---------- The operations, uninterrupted ----------

  const NEED_VALIDATION: bv8 := 0
  const WROTE_NEW_LOCATION: bv8 := 1

  /** All bits of the flag are set. */
  predicate Contains(flags: bv8, flag: bv8) {
    flags & flag == flag
  }

  /** The flag for validation has no bits, so it is contained in whatever flags an
      execution returns, lazy ones and the first included. */
  lemma ValidationIsAlwaysNeeded(flags: bv8)
    ensures Contains(flags, NEED_VALIDATION)
    ensures Contains(flags | WROTE_NEW_LOCATION, WROTE_NEW_LOCATION)
  {
  }

  function TryExecute(q: Sched, t: nat): (Sched, Option<TxVersion>) {
    if t < |q.status| && q.status[t].status == ReadyToExecute then
      (SetStatus(q, t, Executing), Some(TxVersion(t, q.status[t].incarnation)))
    else (q, None)
  }

  /** Advance the validation counter over a transaction: a task, or None and whether to
      look at the counters again before trying to execute. */
  function ClaimValidation(q: Sched): (Sched, Option<Task>, bool) {
    var t := q.validationIdx;
    var q1 := q.(validationIdx := t + 1);
    if t >= |q.status| then (q1, None, false)
    else
      var v := TxVersion(t, q.status[t].incarnation);
      match q.status[t].status
      case ReadyToExecute => (SetStatus(q1, t, Executing), Some(Execution(v)), false)
      case Executed => (q1, Some(Validation(v)), false)
      case Validated => (q1, Some(Validation(v)), false)
      case Aborting => (q1, None, true)
      case Executing => (q1, None, false)
  }

  /** What a worker gets from next_task. Waiting stands for the loop in which it yields
      until somebody else changes a counter. */
  datatype Next = Found(task: Task) | Finished | Waiting

  /** How far the counters are from the end of the block. */
  function Distance(q: Sched): nat {
    (if q.executionIdx < |q.status| then |q.status| - q.executionIdx else 0)
    + (if q.validationIdx < |q.status| then |q.status| - q.validationIdx else 0)
  }

  /** One turn of the loop, from loading both counters to a result, or to the next turn. */
  function Turn(q: Sched): (r: (Sched, Option<Next>))
    ensures r.1.None? ==> Distance(r.0) < Distance(q)
  {
    var n := |q.status|;
    if q.executionIdx >= n && q.validationIdx >= n then
      (q, Some(if q.numValidated + q.minValidationIdx >= n then Finished else Waiting))
    else
      var (q1, task, retry) := if q.validationIdx < q.executionIdx then ClaimValidation(q) else (q, None, false);
      if task.Some? then (q1, Some(Found(task.value)))
      else if retry then (q1, None)
      else
        var (q2, version) := TryExecute(q1.(executionIdx := q1.executionIdx + 1), q1.executionIdx);
        (q2, if version.Some? then Some(Found(Execution(version.value))) else None)
  }

  function NextTask(q: Sched): (Sched, Next)
    decreases Distance(q)
  {
    var (q1, next) := Turn(q);
    if next.Some? then (q1, next.value) else NextTask(q1)
  }

  function AddDependency(q: Sched, t: nat, on: nat): (Sched, bool)
    requires t < |q.status| && on < |q.status| && on < |q.dependents|
  {
    if IsFinished(q.status[on].status) then (q, false) else (Enqueue(q, t, on), true)
  }

  /** Dependents are indices of the block, and none of them is its own. */
  predicate InBlock(dependents: seq<seq<nat>>, n: nat) {
    forall on, k :: 0 <= on < |dependents| && 0 <= k < |dependents[on]| ==> dependents[on][k] < n && dependents[on][k] != on
  }

  predicate ListsInBlock(q: Sched) {
    InBlock(q.dependents, |q.status|)
  }

  /** Resume every dependent of a transaction. */
  function ResumeAll(q: Sched, on: nat): (r: Sched)
    requires on < |q.dependents| && ListsInBlock(q)
    ensures |r.status| == |q.status| && |r.dependents| == |q.dependents| && r.dependents[on] == []
    ensures on < |q.status| ==> r.status[on] == q.status[on]
    decreases |q.dependents[on]|
  {
    if q.dependents[on] == [] then q
    else
      var d := q.dependents[on][0];
      ResumeAll(LowerExecution(ResumeFirst(q, on), d), on)
  }

  /** finish_execution as it stands, for any answer to whether validation is needed. */
  function FinishExecution(q: Sched, v: TxVersion, needs: bool, wroteNew: bool): (Sched, Option<Task>)
    requires v.tx < |q.status| == |q.dependents| && ListsInBlock(q)
  {
    var t, n := v.tx, |q.status|;
    var q1 := ResumeAll(q, t);
    var q2 := if needs then LowerMinValidation(q1, t) else q1;
    var m := q2.minValidationIdx;
    if m < n && m <= t < q2.validationIdx then
      var q3 := if wroteNew then LowerValidation(q2, t + 1) else q2;
      if needs then (SetStatus(q3, t, Executed), Some(Validation(v)))
      else (SetStatus(q3, t, Validated).(numValidated := q3.numValidated + 2), None)
    else
      var q3 := if m < n && t < m && wroteNew then LowerValidation(q2, m) else q2;
      if needs then (SetStatus(q3, t, Executed), None)
      else (SetStatus(q3, t, Validated).(numValidated := q3.numValidated + 1), None)
  }

  function TryValidationAbort(q: Sched, t: nat): (Sched, bool)
    requires t < |q.status|
  {
    if IsFinished(q.status[t].status) then (Revoke(q, t), true) else (q, false)
  }

  function FinishValidation(q: Sched, t: nat, aborted: bool): (Sched, Option<Task>)
    requires t < |q.status|
  {
    if aborted then
      var q1 := LowerValidation(SetReady(q, t), t + 1);
      if q1.executionIdx > t then
        var (q2, v) := TryExecute(q1, t);
        (q2, match v case None => None case Some(x) => Some(Execution(x)))
      else (q1, None)
    else (Confirm(q, t), None)
  }

  // ---------- What the next task is worth ----------

  predicate UnderWay(st: Status) {
    st == Executing || st == Aborting
  }

  /** The task fits the status of its transaction, at its current incarnation. */
  predicate TaskFits(was: seq<TxStatus>, task: Task) {
    var v := task.version;
    && v.tx < |was| && was[v.tx].incarnation == v.incarnation
    && match task
       case Execution(_) => was[v.tx].status == ReadyToExecute
       case Validation(_) => IsFinished(was[v.tx].status)
  }

  /** Only an execution changes the status of what is taken. */
  function AfterTaking(was: seq<TxStatus>, next: Next): seq<TxStatus>
    requires next.Found? ==> TaskFits(was, next.task)
  {
    if next.Found? && next.task.Execution? then was[next.task.version.tx := TxStatus(next.task.version.incarnation, Executing)]
    else was
  }

  /** A counter moved over these transactions without leaving one behind that needs it,
      other than the one that is handed out. */
  predicate PassedOver(was: seq<TxStatus>, from: nat, to: nat, forValidation: bool, next: Next) {
    from <= to && forall x :: from <= x < to && x < |was| && !(next.Found? && next.task.version.tx == x) ==>
      if forValidation then UnderWay(was[x].status) else was[x].status != ReadyToExecute
  }

  /** Between two states of the scheduler only what is handed out has changed, and the
      counters have passed over nothing else that needs them. */
  predicate MovedTo(q: Sched, r: Sched, next: Next) {
    && (next.Found? ==> TaskFits(q.status, next.task))
    && r == q.(status := AfterTaking(q.status, next), executionIdx := r.executionIdx, validationIdx := r.validationIdx)
    && PassedOver(q.status, q.executionIdx, r.executionIdx, false, next)
    && PassedOver(q.status, q.validationIdx, r.validationIdx, true, next)
  }

  lemma TurnMoves(q: Sched)
    ensures MovedTo(q, Turn(q).0, if Turn(q).1.Some? then Turn(q).1.value else Waiting)
  {
  }

  lemma MovesCompose(p: Sched, q: Sched, r: Sched, next: Next)
    requires MovedTo(p, q, Waiting) && MovedTo(q, r, next)
    ensures MovedTo(p, r, next)
  {
  }

  /** A task fits its transaction and nothing else changes but the counters; nothing ready
      is passed over by the execution counter, and nothing ready or finished by the
      validation counter; and there is no task only if both are past the block. */
  lemma {:induction false} NextTaskIsSound(q: Sched)
    ensures
      var (r, next) := NextTask(q);
      && MovedTo(q, r, next)
      && (!next.Found? ==> r.executionIdx >= |q.status| && r.validationIdx >= |q.status|)
      && (next.Finished? ==> q.numValidated + q.minValidationIdx >= |q.status|)
      && (next.Waiting? ==> q.numValidated + q.minValidationIdx < |q.status|)
    decreases Distance(q)
  {
    TurnMoves(q);
    var (q1, next) := Turn(q);
    if next.None? {
      NextTaskIsSound(q1);
      MovesCompose(q, q1, NextTask(q1).0, NextTask(q1).1);
    }
  }

  /** Validation comes first: if its counter is behind and stands at a transaction that
      needs anything, that transaction is handed out and the other counter stays. */
  lemma ValidationComesFirst(q: Sched)
    requires q.validationIdx < q.executionIdx && q.validationIdx < |q.status|
    requires !UnderWay(q.status[q.validationIdx].status)
    ensures
      var (r, next) := NextTask(q);
      next.Found? && next.task.version.tx == q.validationIdx && r.executionIdx == q.executionIdx
  {
  }

  /** Since validation is always needed, finishing an execution never validates by
      itself, and asks for a validation exactly when the counter is past it. */
  lemma FinishedExecutionAwaitsValidation(q: Sched, v: TxVersion, flags: bv8)
    requires v.tx < |q.status| == |q.dependents| && ListsInBlock(q)
    ensures
      var (r, task) := FinishExecution(q, v, Contains(flags, NEED_VALIDATION), Contains(flags, WROTE_NEW_LOCATION));
      && r.status[v.tx] == q.status[v.tx].(status := Executed)
      && r.numValidated == q.numValidated
      && r.minValidationIdx <= v.tx
      && (task == None || task == Some(Validation(v)))
      && (task == None <==> q.validationIdx <= v.tx)
      && (Contains(flags, WROTE_NEW_LOCATION) ==> r.validationIdx <= v.tx + 1)
  {
    ValidationIsAlwaysNeeded(flags);
    ResumeAllKeeps(q, v.tx);
  }

  /** Were validation not needed, one branch would count the transaction twice: exactly
      when it lies between the minimum and the validation counter. */
  lemma WithoutFlagCountsTwice(q: Sched, v: TxVersion, wroteNew: bool)
    requires v.tx < |q.status| == |q.dependents| && ListsInBlock(q)
    ensures
      var r := FinishExecution(q, v, false, wroteNew).0;
      && r.status[v.tx] == q.status[v.tx].(status := Validated)
      && r.numValidated == q.numValidated + (if q.minValidationIdx <= v.tx < q.validationIdx then 2 else 1)
  {
    ResumeAllKeeps(q, v.tx);
  }

  lemma {:induction false} ResumeAllKeeps(q: Sched, on: nat)
    requires on < |q.dependents| && ListsInBlock(q)
    ensures ResumeAll(q, on).validationIdx == q.validationIdx && ResumeAll(q, on).numValidated == q.numValidated
    ensures ResumeAll(q, on).minValidationIdx == q.minValidationIdx && ResumeAll(q, on).executionIdx <= q.executionIdx
    ensures forall x :: 0 <= x < |q.status| && x !in q.dependents[on] ==> ResumeAll(q, on).status[x] == q.status[x]
    decreases |q.dependents[on]|
  {
    if q.dependents[on] != [] {
      var d := q.dependents[on][0];
      var q1 := LowerExecution(ResumeFirst(q, on), d);
      assert q1.dependents[on] == q.dependents[on][1..];
      assert forall x :: x in q1.dependents[on] ==> x in q.dependents[on];
      ResumeAllKeeps(q1, on);
    }
  }

  /** Every dependent becomes ready as its next incarnation, and the execution counter
      is low enough to reach it. */
  lemma {:induction false} ResumeAllWakes(q: Sched, on: nat, x: nat)
    requires on < |q.dependents| && ListsInBlock(q) && x in q.dependents[on]
    requires forall i, j :: 0 <= i < j < |q.dependents[on]| ==> q.dependents[on][i] != q.dependents[on][j]
    ensures ResumeAll(q, on).status[x] == TxStatus(q.status[x].incarnation + 1, ReadyToExecute)
    ensures ResumeAll(q, on).executionIdx <= x
    decreases |q.dependents[on]|
  {
    var list := q.dependents[on];
    var d := list[0];
    var q1 := LowerExecution(ResumeFirst(q, on), d);
    assert q1.dependents[on] == list[1..];
    ResumeAllKeeps(q1, on);
    if x == d {
      assert x !in list[1..];
    } else {
      var k :| 0 <= k < |list| && list[k] == x;
      assert list[1..][k - 1] == x;
      ResumeAllWakes(q1, on, x);
    }
  }

  // ---------- Operations that belong together ----------

  /** A transaction that waits for another is ready again, as its next incarnation and
      within reach of the execution counter, once the other finishes its execution. */
  lemma DependencyIsWoken(q: Sched, t: nat, on: nat, v: TxVersion, needs: bool, wroteNew: bool)
    requires t < |q.status| == |q.dependents| && on < |q.status| && t != on && v.tx == on && ListsInBlock(q)
    requires !IsFinished(q.status[on].status) && t !in q.dependents[on]
    requires forall i, j :: 0 <= i < j < |q.dependents[on]| ==> q.dependents[on][i] != q.dependents[on][j]
    ensures
      var (q1, added) := AddDependency(q, t, on);
      && added && ListsInBlock(q1)
      && var r := FinishExecution(q1, v, needs, wroteNew).0;
         r.status[t] == TxStatus(q.status[t].incarnation + 1, ReadyToExecute) && r.executionIdx <= t && r.dependents[on] == []
  {
    var q1 := AddDependency(q, t, on).0;
    var list := q1.dependents[on];
    assert list == q.dependents[on] + [t];
    assert forall i :: 0 <= i < |q.dependents[on]| ==> q.dependents[on][i] in q.dependents[on];
    assert list[|list| - 1] == t;
    ResumeAllWakes(q1, on, t);
  }

  /** An abort gives up one finished incarnation for the next one: it is ready, or already
      handed out if the execution counter has passed it, higher transactions are to be
      validated again, and the count loses the transaction if it was in it. */
  lemma AbortedIsRescheduled(q: Sched, t: nat)
    requires t < |q.status| && IsFinished(q.status[t].status)
    ensures
      var (q1, aborting) := TryValidationAbort(q, t);
      var (r, task) := FinishValidation(q1, t, true);
      && aborting
      && r.status == q.status[t := TxStatus(q.status[t].incarnation + 1, if task.Some? then Executing else ReadyToExecute)]
      && (task.Some? <==> q.executionIdx > t)
      && (task.Some? ==> task.value == Execution(TxVersion(t, q.status[t].incarnation + 1)))
      && r.validationIdx <= t + 1
      && r.numValidated == q.numValidated - (if q.status[t].status == Validated then 1 else 0)
  {
    var q1 := TryValidationAbort(q, t).0;
    var (r, task) := FinishValidation(q1, t, true);
    assert r.status == q.status[t := r.status[t]];
  }

  // ---------- The operations, field by field ----------

  /** A transaction is taken only if it is inside the block and ready, at the incarnation
      it is in; whatever else is asked for, nothing happens. */
  lemma TakenIffReady(q: Sched, t: nat)
    ensures
      var (r, version) := TryExecute(q, t);
      && (version.Some? <==> t < |q.status| && q.status[t].status == ReadyToExecute)
      && (version.Some? ==>
            && version.value == TxVersion(t, q.status[t].incarnation)
            && r == q.(status := q.status[t := TxStatus(q.status[t].incarnation, Executing)]))
      && (version.None? ==> r == q)
  {
  }

  /** Behind a finished transaction nobody waits: the answer is no and nothing changes.
      Otherwise the transaction goes to the end of the list and is Aborting. */
  lemma DependencyIsRefusedIffFinished(q: Sched, t: nat, on: nat)
    requires t < |q.status| && on < |q.status| && on < |q.dependents|
    ensures
      var (r, added) := AddDependency(q, t, on);
      && (added <==> q.status[on].status != Executed && q.status[on].status != Validated)
      && (!added ==> r == q)
      && (added ==>
            r == q.(status := q.status[t := TxStatus(q.status[t].incarnation, Aborting)],
                    dependents := q.dependents[on := q.dependents[on] + [t]]))
  {
  }

  /** Only a finished transaction is taken back, and the count loses it if it was
      validated; of any other the abort is refused and nothing changes. */
  lemma AbortIsRefusedIffUnfinished(q: Sched, t: nat)
    requires t < |q.status|
    ensures
      var (r, aborting) := TryValidationAbort(q, t);
      && (aborting <==> q.status[t].status == Executed || q.status[t].status == Validated)
      && (!aborting ==> r == q)
      && (aborting ==>
            r == q.(status := q.status[t := TxStatus(q.status[t].incarnation, Aborting)],
                    numValidated := q.numValidated - (if q.status[t].status == Validated then 1 else 0)))
  {
  }

  /** A valid verdict makes an executed transaction a validated one and counts it once. It
      means nothing for any other status, a second valid verdict included. */
  lemma ValidVerdictCountsOnce(q: Sched, t: nat)
    requires t < |q.status|
    ensures
      var (r, task) := FinishValidation(q, t, false);
      && task == None
      && (q.status[t].status == Executed ==>
            r == q.(status := q.status[t := TxStatus(q.status[t].incarnation, Validated)], numValidated := q.numValidated + 1))
      && (q.status[t].status != Executed ==> r == q)
      && FinishValidation(r, t, false) == (r, None)
  {
  }

  /** Taking back what a valid verdict has just counted restores the count. */
  lemma AbortUndoesTheVerdict(q: Sched, t: nat)
    requires t < |q.status| && q.status[t].status == Executed
    ensures
      var confirmed := FinishValidation(q, t, false).0;
      TryValidationAbort(confirmed, t) == TryValidationAbort(q, t)
  {
    assert FinishValidation(q, t, false).0.status[t := TxStatus(q.status[t].incarnation, Aborting)]
           == q.status[t := TxStatus(q.status[t].incarnation, Aborting)];
  }

  /** The end of an aborted validation touches nothing but the transaction and the
      validation counter. */
  lemma RescheduledExactly(q: Sched, t: nat)
    requires t < |q.status|
    ensures
      var (r, task) := FinishValidation(q, t, true);
      var next := TxVersion(t, q.status[t].incarnation + 1);
      && task == (if q.executionIdx > t then Some(Execution(next)) else None)
      && r == q.(status := q.status[t := TxStatus(next.incarnation, if q.executionIdx > t then Executing else ReadyToExecute)],
                 validationIdx := if q.validationIdx <= t then q.validationIdx else t + 1)
  {
    assert q.status[t := TxStatus(q.status[t].incarnation + 1, ReadyToExecute)][t := TxStatus(q.status[t].incarnation + 1, Executing)]
           == q.status[t := TxStatus(q.status[t].incarnation + 1, Executing)];
  }

  /** The validation counter passes a transaction that is Aborting and both counters are
      looked at again; past one that is Executing, the execution counter has its turn. */
  lemma ClaimOfUnderWay(q: Sched)
    requires q.validationIdx < q.executionIdx && q.validationIdx < |q.status|
    ensures
      var passed := q.(validationIdx := q.validationIdx + 1);
      && (q.status[q.validationIdx].status == Aborting ==> NextTask(q) == NextTask(passed))
      && (q.status[q.validationIdx].status == Executing && q.executionIdx < |q.status|
          && q.status[q.executionIdx].status == ReadyToExecute ==>
            NextTask(q).1 == Found(Execution(TxVersion(q.executionIdx, q.status[q.executionIdx].incarnation))))
  {
  }

  /** With no validation behind, the execution counter hands out what it stands at if that
      is ready, and otherwise moves past it. */
  lemma ExecutionComesNext(q: Sched)
    requires q.executionIdx <= q.validationIdx && q.executionIdx < |q.status|
    ensures
      var e := q.executionIdx;
      var passed := q.(executionIdx := e + 1);
      if q.status[e].status == ReadyToExecute
      then NextTask(q) == (passed.(status := q.status[e := TxStatus(q.status[e].incarnation, Executing)]),
                           Found(Execution(TxVersion(e, q.status[e].incarnation))))
      else NextTask(q) == NextTask(passed)
  {
  }

  /** The status of x once the dependents in list have been woken. */
  predicate WokenUp(was: TxStatus, now: TxStatus, x: nat, list: seq<nat>) {
    now == if x in list then TxStatus(was.incarnation + 1, ReadyToExecute) else was
  }

  /** The execution counter is as low as it has to be and no lower. */
  predicate JustLowEnough(was: nat, now: nat, list: seq<nat>) {
    && now <= was && (forall d :: d in list ==> now <= d)
    && (now == was || now in list)
  }

  lemma {:induction false} ResumeAllIsExact(q: Sched, on: nat)
    requires on < |q.dependents| && ListsInBlock(q) && NoDuplicates(q.dependents[on])
    ensures forall x :: 0 <= x < |q.status| ==> WokenUp(q.status[x], ResumeAll(q, on).status[x], x, q.dependents[on])
    ensures JustLowEnough(q.executionIdx, ResumeAll(q, on).executionIdx, q.dependents[on])
    ensures ResumeAll(q, on).dependents == q.dependents[on := []]
    decreases |q.dependents[on]|
  {
    var list := q.dependents[on];
    ResumeAllKeeps(q, on);
    forall x | 0 <= x < |q.status| ensures WokenUp(q.status[x], ResumeAll(q, on).status[x], x, list) {
      if x in list { ResumeAllWakes(q, on, x); }
    }
    if list != [] {
      var q1 := LowerExecution(ResumeFirst(q, on), list[0]);
      assert q1.dependents[on] == list[1..];
      assert forall d :: d in list <==> d == list[0] || d in list[1..];
      ResumeAllIsExact(q1, on);
    }
  }

  /** finish_execution, for every combination of flags. The validation counter comes down
      only for a new location: to the minimum from below it, and otherwise to just after
      the transaction. A validation is asked for, or the transaction counted twice, if it
      lies between the minimum and the validation counter. */
  lemma FinishExecutionIsExact(q: Sched, v: TxVersion, needs: bool, wroteNew: bool)
    requires v.tx < |q.status| == |q.dependents| && ListsInBlock(q) && NoDuplicates(q.dependents[v.tx])
    ensures
      var (r, task) := FinishExecution(q, v, needs, wroteNew);
      var t, n := v.tx, |q.status|;
      var inWindow := r.minValidationIdx < n && r.minValidationIdx <= t < q.validationIdx;
      && |r.status| == n && r.dependents == q.dependents[t := []]
      && r.status[t] == TxStatus(q.status[t].incarnation, if needs then Executed else Validated)
      && (forall x :: 0 <= x < n && x != t ==> WokenUp(q.status[x], r.status[x], x, q.dependents[t]))
      && JustLowEnough(q.executionIdx, r.executionIdx, q.dependents[t])
      && r.minValidationIdx == (if needs && t < q.minValidationIdx then t else q.minValidationIdx)
      && r.validationIdx == (if !wroteNew || r.minValidationIdx >= n then q.validationIdx
                             else Min(q.validationIdx, if t < r.minValidationIdx then r.minValidationIdx else t + 1))
      && task == (if needs && inWindow then Some(Validation(v)) else None)
      && r.numValidated == q.numValidated + (if needs then 0 else if inWindow then 2 else 1)
  {
    ResumeAllIsExact(q, v.tx);
    ResumeAllKeeps(q, v.tx);
    assert v.tx !in q.dependents[v.tx];
  }
}
