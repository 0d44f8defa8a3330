/** Consequences of the invariant for single states, single steps and whole runs. */
module Guarantees {
  import opened Types
  import opened MultiVersion
  import opened SchedulerSteps
  import opened Engine
  import opened Owners
  import opened Columns
  import opened History
  import opened Coverage
  import opened Progress
  import opened Invariant
  import Locks

  // ---------- Owners ----------

  /** Transaction t is the k-th dependent of transaction on. */
  ghost predicate Waits(s: State, t: nat, on: nat, k: nat) {
    on < |s.sched.dependents| && k < |s.sched.dependents[on]| && s.sched.dependents[on][k] == t
  }

  ghost predicate IsAborting(s: State, t: nat, w: nat) {
    w < |s.pcs| && s.pcs[w].Aborting? && s.pcs[w].tx == t
  }

  /** A transaction that is Aborting either waits in exactly one list, exactly once, or
      is held by exactly one worker, so no wake-up is lost and none comes twice. */
  lemma AbortingHasOneOwner(b: Block, s: State, t: nat)
    requires WellFormed(b) && Reachable(b, s) && !s.aborted && t < b.n
    ensures Shape(b, s)
    ensures s.sched.status[t].status == Status.Aborting <==>
            (exists on, k :: Waits(s, t, on, k)) || (exists w :: IsAborting(s, t, w))
    ensures forall on, k, w :: !(Waits(s, t, on, k) && IsAborting(s, t, w))
    ensures forall on, k, on', k' :: Waits(s, t, on, k) && Waits(s, t, on', k') ==> on == on' && k == k'
    ensures forall w, w' :: IsAborting(s, t, w) && IsAborting(s, t, w') ==> w == w'
  {
    ReachableInv(b, s);
    assert OwnerOk(b, s, t);
    forall w | IsAborting(s, t, w) ensures s.owner[t] == Worker(w) {
      assert WorkerOk(b, s, w);
    }
    forall on, k | Waits(s, t, on, k) ensures s.owner[t] == Queue(on) && s.sched.status[t].status == Status.Aborting {
      assert ListOk(b, s, on);
    }
    if s.sched.status[t].status == Status.Aborting {
      if s.owner[t].Queue? {
        var k :| 0 <= k < |s.sched.dependents[s.owner[t].on]| && s.sched.dependents[s.owner[t].on][k] == t;
        assert Waits(s, t, s.owner[t].on, k);
      } else {
        assert IsAborting(s, t, s.owner[t].id);
      }
    }
    forall on, k, on', k' | Waits(s, t, on, k) && Waits(s, t, on', k') ensures on == on' && k == k' {
      assert ListOk(b, s, on);
    }
  }

  /** A list of dependents belongs to a transaction that has yet to finish, and holds
      only higher transactions that are Aborting. */
  lemma DependentsWait(b: Block, s: State, t: nat, on: nat, k: nat)
    requires WellFormed(b) && Reachable(b, s) && !s.aborted && Waits(s, t, on, k)
    ensures Shape(b, s) && on < t < b.n && s.sched.status[t].status == Status.Aborting
    ensures !IsFinished(s.sched.status[on].status)
  {
    ReachableInv(b, s);
    assert ListOk(b, s, on);
    assert OwnerOk(b, s, t);
  }

  /** What the code asserts in debug builds: whoever executes a transaction finds it
      Executing in its own incarnation, and whatever is made ready again was Aborting. */
  lemma DebugAssertionsHold(b: Block, s: State, w: nat)
    requires WellFormed(b) && Reachable(b, s) && !s.aborted && w < |s.pcs|
    ensures Shape(b, s) && PcOk(b, s.pcs[w])
    ensures s.pcs[w].Working? ==> s.sched.status[s.pcs[w].tx] == TxStatus(s.pcs[w].incarnation, Executing)
    ensures s.pcs[w].Aborting? ==> s.sched.status[s.pcs[w].tx].status == Status.Aborting
    ensures s.pcs[w].Working? && s.pcs[w].work.Resume? && s.sched.dependents[s.pcs[w].tx] != [] ==>
              s.sched.dependents[s.pcs[w].tx][0] < b.n &&
              s.sched.status[s.sched.dependents[s.pcs[w].tx][0]].status == Status.Aborting
  {
    ReachableInv(b, s);
    assert WorkerOk(b, s, w);
    if Owns(s.pcs[w]) {
      var t := s.pcs[w].tx;
      assert OwnerOk(b, s, t) && ListOk(b, s, t);
      if s.sched.dependents[t] != [] {
        assert s.owner[s.sched.dependents[t][0]] == Queue(t);
        assert OwnerOk(b, s, s.sched.dependents[t][0]);
      }
    }
  }

  /** The counter of validated transactions is exact at every step, so taking one back
      never underflows it. */
  lemma CounterIsExact(b: Block, s: State)
    requires WellFormed(b) && Reachable(b, s) && !s.aborted
    ensures Shape(b, s) && s.sched.numValidated == CountValidated(s.sched.status)
    ensures forall t :: 0 <= t < b.n && s.sched.status[t].status == Validated ==> s.sched.numValidated > 0
  {
    ReachableInv(b, s);
    forall t | 0 <= t < b.n && s.sched.status[t].status == Validated ensures s.sched.numValidated > 0 {
      CountValidatedUpdate(s.sched.status, t, TxStatus(0, Executed));
    }
  }

  /** Re-validation coverage, in every reachable state. */
  lemma MismatchIsCovered(b: Block, s: State, t: nat, l: Loc)
    requires WellFormed(b) && Reachable(b, s) && !s.aborted && t < b.n
    ensures Shape(b, s)
    ensures Mismatch(b, s, t, l) ==> Covered(s, t, l)
  {
    ReachableInv(b, s);
  }

  /** What the lock order relies on: a list of dependents holds higher transactions, and
      whoever waits waits for a lower one. */
  lemma LockOrderHolds(b: Block, s: State, t: nat, w: nat)
    requires WellFormed(b) && Reachable(b, s) && !s.aborted && t < b.n && w < |s.pcs|
    ensures Shape(b, s) && Locks.Ordered(Locks.InsideFinishedList(t, s.sched.dependents[t]))
    ensures s.pcs[w].Working? && s.pcs[w].work.Blocking? ==> Locks.Ordered(Locks.WantBlocking(s.pcs[w].tx, s.pcs[w].work.on))
  {
    ReachableInv(b, s);
    assert ListOk(b, s, t) && WorkerOk(b, s, w);
    forall d | d in s.sched.dependents[t] ensures t < d {
      assert OwnerOk(b, s, d);
    }
  }

  // ---------- Versions ----------

  /** The incarnation state machine. */
  predicate Follows(x: TxStatus, y: TxStatus) {
    || y == x
    || (match x.status
        case ReadyToExecute => y == x.(status := Executing)
        case Executing => y == x.(status := Executed) || y == x.(status := Status.Aborting)
        case Executed => y == x.(status := Validated) || y == x.(status := Status.Aborting)
        case Validated => y == x.(status := Status.Aborting)
        case Aborting => y == TxStatus(x.incarnation + 1, ReadyToExecute))
  }

  ghost predicate AllFollow(q: Sched, r: Sched) {
    |r.status| == |q.status| && forall t :: 0 <= t < |q.status| ==> Follows(q.status[t], r.status[t])
  }

  lemma ResumeFollows(b: Block, s: State, w: nat, s': State)
    requires Ownership(b, s) && w < |s.pcs| && s.pcs[w].Working? && s.pcs[w].tx < b.n
    requires s.pcs[w].work.Resume? && ResumeStep(b, s, w, s')
    ensures AllFollow(s.sched, s'.sched)
  {
    var t := s.pcs[w].tx;
    if s.sched.dependents[t] != [] {
      assert ListOk(b, s, t) && s.owner[s.sched.dependents[t][0]] == Queue(t);
      assert OwnerOk(b, s, s.sched.dependents[t][0]);
    }
  }

  lemma WorkFollows(b: Block, s: State, w: nat, s': State)
    requires Ownership(b, s) && w < |s.pcs| && s.pcs[w].Working? && s.pcs[w].tx < b.n && WorkStep(b, s, w, s')
    ensures AllFollow(s.sched, s'.sched)
  {
    assert WorkerOk(b, s, w) && OwnerOk(b, s, s.pcs[w].tx);
    match s.pcs[w].work
    case Running(_) =>
    case Blocking(_) =>
    case Writing(_, _, _) =>
    case Resume(_) => ResumeFollows(b, s, w, s');
    case Conclude(_) =>
    case _ =>
  }

  lemma CheckFollows(b: Block, s: State, w: nat, s': State)
    requires Shape(b, s) && w < |s.pcs| && s.pcs[w].Validating? && s.pcs[w].tx < b.n && CheckStep(b, s, w, s')
    ensures AllFollow(s.sched, s'.sched)
  {
    match s.pcs[w].check
    case Begin =>
    case Checking(_) =>
    case Invalid =>
    case Valid =>
  }

  lemma AbortFollows(b: Block, s: State, w: nat, s': State)
    requires Ownership(b, s) && w < |s.pcs| && s.pcs[w].Aborting? && s.pcs[w].tx < b.n && AbortStep(b, s, w, s')
    ensures AllFollow(s.sched, s'.sched)
  {
    assert WorkerOk(b, s, w) && OwnerOk(b, s, s.pcs[w].tx);
    match s.pcs[w].abort
    case Converting(_) =>
    case Reset =>
  }

  lemma TakeFollows(b: Block, s: State, w: nat, s': State)
    requires Shape(b, s) && w < |s.pcs|
    requires
      || (s.pcs[w].Claimed? && s.pcs[w].tx < b.n && ClaimStep(b, s, w, s'))
      || (s.pcs[w].Rescheduling? && s.pcs[w].tx < b.n && RescheduleStep(b, s, w, s'))
    ensures AllFollow(s.sched, s'.sched)
  {
  }

  /** Whatever a worker does, every status stays or takes one documented transition. */
  lemma StepFollows(b: Block, s: State, s': State)
    requires Ownership(b, s) && Step(b, s, s')
    ensures AllFollow(s.sched, s'.sched)
  {
    var w: nat :| WorkerStep(b, s, w, s');
    match s.pcs[w]
    case Idle(_) => assert s'.sched.status == s.sched.status;
    case Claimed(_, _) => TakeFollows(b, s, w, s');
    case Working(_, _, _) => WorkFollows(b, s, w, s');
    case Validating(_, _, _) => CheckFollows(b, s, w, s');
    case Aborting(_, _) => AbortFollows(b, s, w, s');
    case Rescheduling(_, _) => TakeFollows(b, s, w, s');
  }

  lemma RunFollowsAt(b: Block, run: seq<State>, k: nat)
    requires WellFormed(b) && IsRun(b, run) && 0 < k < |run| && !run[k].aborted
    ensures !run[k - 1].aborted && AllFollow(run[k - 1].sched, run[k].sched)
  {
    LiveBefore(b, run, k);
    LiveInv(b, run, k - 1);
    StepFollows(b, run[k - 1], run[k]);
  }

  /** Statuses only move on: incarnations never decrease, and an incarnation that has
      been taken is never offered again. */
  predicate MovesOn(x: TxStatus, y: TxStatus) {
    || x.incarnation < y.incarnation
    || (x.incarnation == y.incarnation && (y.status == ReadyToExecute ==> x.status == ReadyToExecute))
  }

  ghost predicate AllMoveOn(q: Sched, r: Sched) {
    |r.status| == |q.status| && forall t :: 0 <= t < |q.status| ==> MovesOn(q.status[t], r.status[t])
  }

  lemma WorkMovesOn(b: Block, s: State, w: nat, s': State)
    requires Shape(b, s) && w < |s.pcs| && s.pcs[w].Working? && s.pcs[w].tx < b.n && WorkStep(b, s, w, s')
    ensures AllMoveOn(s.sched, s'.sched)
  {
    match s.pcs[w].work
    case Running(_) =>
    case Blocking(_) =>
    case Writing(_, _, _) =>
    case Resume(_) =>
    case Conclude(_) =>
    case _ =>
  }

  lemma StepMovesOn(b: Block, s: State, w: nat, s': State)
    requires WorkerStep(b, s, w, s')
    ensures AllMoveOn(s.sched, s'.sched)
  {
    match s.pcs[w]
    case Working(_, _, _) => WorkMovesOn(b, s, w, s');
    case Validating(_, _, check) =>
      match check {
        case Begin =>
        case Checking(_) =>
        case Invalid =>
        case Valid =>
      }
    case Aborting(_, abort) => if abort.Converting? {}
    case _ =>
  }

  lemma AnyStepMovesOn(b: Block, s: State, s': State)
    requires Step(b, s, s')
    ensures AllMoveOn(s.sched, s'.sched)
  {
    var w: nat :| WorkerStep(b, s, w, s');
    StepMovesOn(b, s, w, s');
  }

  ghost predicate MovesOnAt(run: seq<State>, k: nat) {
    0 < k < |run| ==> AllMoveOn(run[k - 1].sched, run[k].sched)
  }

  lemma {:induction false} ChainMovesOn(run: seq<State>, j: nat, k: nat)
    requires j <= k < |run| && forall i: nat :: MovesOnAt(run, i)
    ensures AllMoveOn(run[j].sched, run[k].sched)
  {
    if j < k {
      ChainMovesOn(run, j, k - 1);
      assert MovesOnAt(run, k);
    }
  }

  lemma RunMovesOn(b: Block, run: seq<State>, j: nat, k: nat)
    requires IsRun(b, run) && j <= k < |run|
    ensures AllMoveOn(run[j].sched, run[k].sched)
  {
    forall i: nat ensures MovesOnAt(run, i) {
      if 0 < i < |run| {
        RunIsSteps(b, run, i);
        AnyStepMovesOn(b, run[i - 1], run[i]);
      }
    }
    ChainMovesOn(run, j, k);
  }

  /** Worker w is handed incarnation i of transaction t. */
  ghost predicate Takes(s: State, s': State, t: nat, i: nat) {
    && t < |s.sched.status| && t < |s'.sched.status|
    && s.sched.status[t] == TxStatus(i, ReadyToExecute) && s'.sched.status[t] == TxStatus(i, Executing)
  }

  /** Over a whole run, each incarnation of each transaction is handed out at most once. */
  lemma TakenOnce(b: Block, run: seq<State>, j: nat, k: nat, t: nat, i: nat)
    requires IsRun(b, run) && j < k < |run| - 1
    requires Takes(run[j], run[j + 1], t, i)
    ensures !Takes(run[k], run[k + 1], t, i)
  {
    RunMovesOn(b, run, j + 1, k);
    assert MovesOn(run[j + 1].sched.status[t], run[k].sched.status[t]);
  }

  lemma WorkExtendsLog(b: Block, s: State, w: nat, s': State)
    requires WellFormed(b) && Ownership(b, s) && ColumnsOk(b, s)
    requires w < |s.pcs| && s.pcs[w].Working? && s.pcs[w].tx < b.n && WorkStep(b, s, w, s')
    ensures Extends(s.log, s'.log)
  {
    var t, i := s.pcs[w].tx, s.pcs[w].incarnation;
    match s.pcs[w].work
    case Running(e) =>
      if NextAction(b, t, e).Finish? { BeginRecordKeepsColumns(b, s, w, t, i, e); }
    case Writing(_, _, _) => assert s'.log == s.log;
    case Resume(_) => assert s'.log == s.log;
    case _ => assert s'.log == s.log;
  }

  lemma CheckKeepsLog(b: Block, s: State, w: nat, s': State)
    requires Shape(b, s) && w < |s.pcs| && s.pcs[w].Validating? && s.pcs[w].tx < b.n && CheckStep(b, s, w, s')
    ensures s'.log == s.log
  {
  }

  lemma AbortKeepsLog(b: Block, s: State, w: nat, s': State)
    requires Shape(b, s) && w < |s.pcs| && s.pcs[w].Aborting? && s.pcs[w].tx < b.n && AbortStep(b, s, w, s')
    ensures s'.log == s.log
  {
  }

  /** A version that has been recorded is never recorded again. */
  lemma StepExtendsLog(b: Block, s: State, s': State)
    requires WellFormed(b) && Ownership(b, s) && ColumnsOk(b, s) && Step(b, s, s')
    ensures Extends(s.log, s'.log)
  {
    var w: nat :| WorkerStep(b, s, w, s');
    match s.pcs[w]
    case Working(_, _, _) => WorkExtendsLog(b, s, w, s');
    case Validating(_, _, _) => CheckKeepsLog(b, s, w, s');
    case Aborting(_, _) => AbortKeepsLog(b, s, w, s');
    case Idle(_) => assert s'.log == s.log;
    case Claimed(_, _) => assert s'.log == s.log;
    case Rescheduling(_, _) => assert s'.log == s.log;
  }

  lemma StepWasLive(b: Block, s: State, s': State)
    requires Step(b, s, s') && !s'.aborted
    ensures !s.aborted
  {
    var w: nat :| WorkerStep(b, s, w, s');
    if s.aborted { StepKeepsAborted(b, s, w, s'); }
  }

  lemma LiveInv(b: Block, run: seq<State>, k: nat)
    requires WellFormed(b) && IsRun(b, run) && k < |run| && !run[k].aborted
    ensures Ownership(b, run[k]) && ColumnsOk(b, run[k])
  {
    RunInv(b, run, k);
  }

  lemma LiveBefore(b: Block, run: seq<State>, k: nat)
    requires IsRun(b, run) && 0 < k < |run| && !run[k].aborted
    ensures Step(b, run[k - 1], run[k]) && !run[k - 1].aborted
  {
    RunIsSteps(b, run, k);
    StepWasLive(b, run[k - 1], run[k]);
  }

  lemma RunExtendsLogAt(b: Block, run: seq<State>, k: nat)
    requires WellFormed(b) && IsRun(b, run) && 0 < k < |run| && !run[k].aborted
    ensures !run[k - 1].aborted && Extends(run[k - 1].log, run[k].log)
  {
    LiveBefore(b, run, k);
    LiveInv(b, run, k - 1);
    StepExtendsLog(b, run[k - 1], run[k]);
  }

  /** What has been recorded stays as it is. */
  lemma {:induction false} LogGrows(b: Block, run: seq<State>, j: nat, k: nat)
    requires WellFormed(b) && IsRun(b, run) && j <= k < |run| && !run[k].aborted
    ensures Extends(run[j].log, run[k].log)
  {
    if j < k {
      RunExtendsLogAt(b, run, k);
      LogGrows(b, run, j, k - 1);
    }
  }

  /** This step is the one in which worker w begins to record version v. */
  ghost predicate Records(b: Block, s: State, w: nat, s': State, v: TxVersion) {
    && Shape(b, s) && w < |s.pcs| && v.tx < b.n
    && s.pcs[w].Working? && s.pcs[w].tx == v.tx && s.pcs[w].incarnation == v.incarnation && s.pcs[w].work.Running?
    && NextAction(b, v.tx, s.pcs[w].work.exec).Finish?
    && s' == BeginRecord(b, s, w, v.tx, v.incarnation, s.pcs[w].work.exec)
  }

  lemma RecordsNew(b: Block, s: State, w: nat, s': State, v: TxVersion)
    requires Ownership(b, s) && ColumnsOk(b, s) && Records(b, s, w, s', v)
    ensures v !in s.log && v in s'.log
  {
    MyColumn(b, s, w);
  }

  /** Over a whole run, each version is recorded at most once, by anybody. */
  lemma RecordedOnce(b: Block, run: seq<State>, j: nat, k: nat, u: nat, w: nat, v: TxVersion)
    requires WellFormed(b) && IsRun(b, run) && j < k < |run| - 1 && !run[k].aborted
    requires Records(b, run[j], u, run[j + 1], v)
    ensures !Records(b, run[k], w, run[k + 1], v)
  {
    LogGrows(b, run, j + 1, k);
    assert v in run[k].log;
    LiveInv(b, run, k);
    if Records(b, run[k], w, run[k + 1], v) {
      RecordsNew(b, run[k], w, run[k + 1], v);
    }
  }

  lemma RunWasLive(b: Block, run: seq<State>, j: nat, k: nat)
    requires IsRun(b, run) && j <= k < |run| && !run[k].aborted
    ensures !run[j].aborted
  {
    if j < k {
      LiveBefore(b, run, k);
      RunWasLive(b, run, j, k - 1);
    }
  }

  /** So a version found at a location determines its value, whenever it is found. */
  lemma VersionDeterminesValue(b: Block, run: seq<State>, j: nat, k: nat, l: Loc, v: TxVersion, x: Write, y: Write)
    requires WellFormed(b) && IsRun(b, run) && j <= k < |run| && !run[k].aborted
    requires EntryAt(run[j].store, l, v.tx) == Some(Data(v.incarnation, x))
    requires EntryAt(run[k].store, l, v.tx) == Some(Data(v.incarnation, y))
    ensures x == y
  {
    RunWasLive(b, run, j, k);
    LiveInv(b, run, j);
    LiveInv(b, run, k);
    LogGrows(b, run, j, k);
    EntryIsLogged(b, run[j], l, v.tx);
    EntryIsLogged(b, run[k], l, v.tx);
    VersionsGrow(b, run[j].log, run[k].log, l);
  }

  // ---------- The estimate discipline ----------

  predicate NothingButEstimates(s: State, t: nat, l: Loc) {
    EntryAt(s.store, l, t).Some? ==> EntryAt(s.store, l, t) == Some(Estimate)
  }

  /** The entry of t at l is what its current incarnation wrote there, if it did. */
  predicate JustWritten(b: Block, s: State, t: nat, l: Loc)
    requires Shape(b, s) && t < b.n && Current(s, t) in s.log
  {
    var writes := WritesBy(b, t, s.log[Current(s, t)]);
    EntryAt(s.store, l, t) == if l in writes then Some(Data(s.sched.status[t].incarnation, writes[l])) else None
  }

  /** Some worker is recording t, publishing its result, or taking its writes back. */
  predicate InWindow(s: State, t: nat) {
    exists w :: 0 <= w < |s.pcs| && Owns(s.pcs[w]) && s.pcs[w].tx == t && !PhaseOfPc(s.pcs[w]).Marked?
  }

  /** In every reachable state: a finished transaction has exactly the write set of its
      current incarnation in the store, as data, and its result in its slot. Any other,
      unless a worker is in the middle of replacing or withdrawing its writes, has
      nothing but estimates. */
  lemma EstimateDiscipline(b: Block, s: State, t: nat, l: Loc)
    requires WellFormed(b) && Reachable(b, s) && !s.aborted && t < b.n
    ensures Shape(b, s)
    ensures IsFinished(s.sched.status[t].status) ==>
              && Current(s, t) in s.log && JustWritten(b, s, t, l)
              && s.results[t] == Some(ResultBy(b, t, s.log[Current(s, t)]))
    ensures !IsFinished(s.sched.status[t].status) && !InWindow(s, t) ==> NothingButEstimates(s, t, l)
  {
    ReachableInv(b, s);
    assert OwnerOk(b, s, t) && ColumnOk(b, s, t, PhaseOf(s, t));
    if IsFinished(s.sched.status[t].status) {
      assert Filled(b, s, t, s.log[Current(s, t)], {});
    } else if !InWindow(s, t) {
      assert PhaseOf(s, t).Marked?;
      assert OnlyEstimates(b, s, t);
    }
  }

  // ---------- The settled prefix ----------

  /** Nothing the transactions below k have done changes. */
  ghost predicate SamePrefix(s: State, s': State, k: nat)
    requires k <= |s.sched.status| == |s'.sched.status|
    requires k <= |s.results| == |s'.results|
  {
    && (forall t :: 0 <= t < k ==> s'.sched.status[t] == s.sched.status[t] && s'.results[t] == s.results[t])
    && (forall l, t: nat :: t < k ==> EntryAt(s'.store, l, t) == EntryAt(s.store, l, t))
  }

  /** Worker w moved on to a higher transaction, or none, and only higher statuses and
      lists changed. */
  lemma PrefixFrame(b: Block, s: State, w: nat, s': State, k: nat)
    requires PrefixSettled(b, s, k) && Shape(b, s') && w < |s.pcs|
    requires |s'.pcs| == |s.pcs| && s'.pcs == s.pcs[w := s'.pcs[w]]
    requires s'.pcs[w].Idle? || s'.pcs[w].Exited? || k <= s'.pcs[w].tx
    requires forall t :: 0 <= t < k ==> s'.sched.status[t] == s.sched.status[t] && s'.sched.dependents[t] == s.sched.dependents[t]
    requires s'.sched.executionIdx >= k && s'.sched.validationIdx >= k
    ensures PrefixSettled(b, s', k)
  {
  }

  /** An action that leaves the store and the results alone. */
  lemma PrefixQuiet(b: Block, s: State, w: nat, s': State, k: nat)
    requires PrefixSettled(b, s, k) && Shape(b, s') && w < |s.pcs|
    requires |s'.pcs| == |s.pcs| && s'.pcs == s.pcs[w := s'.pcs[w]]
    requires s'.pcs[w].Idle? || s'.pcs[w].Exited? || k <= s'.pcs[w].tx
    requires forall t :: 0 <= t < k ==> s'.sched.status[t] == s.sched.status[t] && s'.sched.dependents[t] == s.sched.dependents[t]
    requires s'.sched.executionIdx >= k && s'.sched.validationIdx >= k
    requires s'.store == s.store && s'.results == s.results
    ensures PrefixSettled(b, s', k) && SamePrefix(s, s', k)
  {
    PrefixFrame(b, s, w, s', k);
  }

  lemma TakeKeepsPrefix(b: Block, s: State, w: nat, t: nat, k: nat)
    requires PrefixSettled(b, s, k) && w < |s.pcs| && k <= t < b.n
    ensures PrefixSettled(b, Take(s, w, t), k) && SamePrefix(s, Take(s, w, t), k)
  {
    PrefixQuiet(b, s, w, Take(s, w, t), k);
  }

  lemma ClaimKeepsPrefix(b: Block, s: State, w: nat, s': State, k: nat)
    requires PrefixSettled(b, s, k) && w < |s.pcs| && s.pcs[w].Claimed? && s.pcs[w].tx < b.n && ClaimStep(b, s, w, s')
    ensures PrefixSettled(b, s', k) && SamePrefix(s, s', k)
  {
    if s.sched.status[s.pcs[w].tx].status == ReadyToExecute {
      TakeKeepsPrefix(b, s, w, s.pcs[w].tx, k);
    } else {
      PrefixQuiet(b, s, w, s', k);
    }
  }

  lemma RunKeepsPrefix(b: Block, s: State, w: nat, s': State, k: nat)
    requires PrefixSettled(b, s, k) && w < |s.pcs| && s.pcs[w].Working? && s.pcs[w].tx < b.n
    requires s.pcs[w].work.Running? && RunStep(b, s, w, s')
    ensures PrefixSettled(b, s', k) && SamePrefix(s, s', k)
  {
    PrefixQuiet(b, s, w, s', k);
  }

  lemma ClearKeepsPrefix(b: Block, s: State, w: nat, s': State, k: nat)
    requires PrefixSettled(b, s, k) && w < |s.pcs| && s.pcs[w].Working? && s.pcs[w].tx < b.n
    requires s.pcs[w].work.Clearing? && ClearStep(b, s, w, s')
    ensures PrefixSettled(b, s', k) && SamePrefix(s, s', k)
  {
    PrefixFrame(b, s, w, s', k);
  }

  lemma WriteKeepsPrefix(b: Block, s: State, w: nat, s': State, k: nat)
    requires PrefixSettled(b, s, k) && w < |s.pcs| && s.pcs[w].Working? && s.pcs[w].tx < b.n
    requires s.pcs[w].work.Writing? && WriteStep(b, s, w, s')
    ensures PrefixSettled(b, s', k) && SamePrefix(s, s', k)
  {
    PrefixFrame(b, s, w, s', k);
  }

  lemma PublishKeepsPrefix(b: Block, s: State, w: nat, s': State, k: nat)
    requires PrefixSettled(b, s, k) && w < |s.pcs| && s.pcs[w].Working? && s.pcs[w].tx < b.n
    requires s.pcs[w].work.Publish? && PublishStep(b, s, w, s')
    ensures PrefixSettled(b, s', k) && SamePrefix(s, s', k)
  {
    PrefixFrame(b, s, w, s', k);
  }

  /** Waiting for a settled transaction is refused. */
  lemma BlockKeepsPrefix(b: Block, s: State, w: nat, s': State, k: nat)
    requires PrefixSettled(b, s, k) && w < |s.pcs| && s.pcs[w].Working? && s.pcs[w].tx < b.n
    requires s.pcs[w].work.Blocking? && BlockStep(b, s, w, s')
    ensures PrefixSettled(b, s', k) && SamePrefix(s, s', k)
  {
    PrefixQuiet(b, s, w, s', k);
  }

  /** Resumed transactions are higher than the one that resumes them. */
  lemma ResumeKeepsPrefix(b: Block, s: State, w: nat, s': State, k: nat)
    requires Ownership(b, s) && PrefixSettled(b, s, k) && w < |s.pcs| && s.pcs[w].Working? && s.pcs[w].tx < b.n
    requires s.pcs[w].work.Resume? && ResumeStep(b, s, w, s')
    ensures PrefixSettled(b, s', k) && SamePrefix(s, s', k)
  {
    var t := s.pcs[w].tx;
    if s.sched.dependents[t] != [] {
      assert ListOk(b, s, t);
      assert s.owner[s.sched.dependents[t][0]] == Queue(t);
      assert OwnerOk(b, s, s.sched.dependents[t][0]);
    }
    PrefixQuiet(b, s, w, s', k);
  }

  lemma AdjustKeepsPrefix(b: Block, s: State, w: nat, s': State, k: nat)
    requires Ownership(b, s) && PrefixSettled(b, s, k) && w < |s.pcs| && s.pcs[w].Working? && s.pcs[w].tx < b.n
    requires Adjusts(s.pcs[w].work) && AdjustStep(b, s, w, s')
    ensures PrefixSettled(b, s', k) && SamePrefix(s, s', k)
  {
    assert WorkerOk(b, s, w);
    PrefixQuiet(b, s, w, s', k);
  }

  lemma ConcludeKeepsPrefix(b: Block, s: State, w: nat, s': State, k: nat)
    requires PrefixSettled(b, s, k) && w < |s.pcs| && s.pcs[w].Working? && s.pcs[w].tx < b.n
    requires s.pcs[w].work.Conclude? && ConcludeStep(b, s, w, s')
    ensures PrefixSettled(b, s', k) && SamePrefix(s, s', k)
  {
    PrefixQuiet(b, s, w, s', k);
  }

  lemma WorkKeepsPrefix(b: Block, s: State, w: nat, s': State, k: nat)
    requires Ownership(b, s) && PrefixSettled(b, s, k)
    requires w < |s.pcs| && s.pcs[w].Working? && s.pcs[w].tx < b.n && WorkStep(b, s, w, s')
    ensures PrefixSettled(b, s', k) && SamePrefix(s, s', k)
  {
    match s.pcs[w].work
    case Start => PrefixQuiet(b, s, w, s', k);
    case Running(_) => RunKeepsPrefix(b, s, w, s', k);
    case Blocking(_) => BlockKeepsPrefix(b, s, w, s', k);
    case Clearing(_) => ClearKeepsPrefix(b, s, w, s', k);
    case Writing(_, _, _) => WriteKeepsPrefix(b, s, w, s', k);
    case Publish(_, _) => PublishKeepsPrefix(b, s, w, s', k);
    case Resume(_) => ResumeKeepsPrefix(b, s, w, s', k);
    case Conclude(_) => ConcludeKeepsPrefix(b, s, w, s', k);
    case _ => AdjustKeepsPrefix(b, s, w, s', k);
  }

  lemma CheckKeepsPrefix(b: Block, s: State, w: nat, s': State, k: nat)
    requires PrefixSettled(b, s, k) && w < |s.pcs| && s.pcs[w].Validating? && s.pcs[w].tx < b.n && CheckStep(b, s, w, s')
    ensures PrefixSettled(b, s', k) && SamePrefix(s, s', k)
  {
    match s.pcs[w].check
    case Begin => PrefixQuiet(b, s, w, s', k);
    case Checking(_) => PrefixQuiet(b, s, w, s', k);
    case Invalid => RevokeKeepsPrefix(b, s, w, s', k);
    case Valid => ConfirmKeepsPrefix(b, s, w, s', k);
  }

  lemma RevokeKeepsPrefix(b: Block, s: State, w: nat, s': State, k: nat)
    requires PrefixSettled(b, s, k) && w < |s.pcs| && s.pcs[w].Validating? && s.pcs[w].tx < b.n && RevokeStep(b, s, w, s')
    ensures PrefixSettled(b, s', k) && SamePrefix(s, s', k)
  {
    PrefixQuiet(b, s, w, s', k);
  }

  lemma ConfirmKeepsPrefix(b: Block, s: State, w: nat, s': State, k: nat)
    requires PrefixSettled(b, s, k) && w < |s.pcs| && s.pcs[w].Validating? && s.pcs[w].tx < b.n && ConfirmStep(b, s, w, s')
    ensures PrefixSettled(b, s', k) && SamePrefix(s, s', k)
  {
    PrefixQuiet(b, s, w, s', k);
  }

  lemma ConvertKeepsPrefix(b: Block, s: State, w: nat, s': State, k: nat)
    requires PrefixSettled(b, s, k) && w < |s.pcs| && s.pcs[w].Aborting? && s.pcs[w].tx < b.n
    requires s.pcs[w].abort.Converting? && ConvertStep(b, s, w, s')
    ensures PrefixSettled(b, s', k) && SamePrefix(s, s', k)
  {
    PrefixFrame(b, s, w, s', k);
  }

  lemma AbortKeepsPrefix(b: Block, s: State, w: nat, s': State, k: nat)
    requires PrefixSettled(b, s, k) && w < |s.pcs| && s.pcs[w].Aborting? && s.pcs[w].tx < b.n && AbortStep(b, s, w, s')
    ensures PrefixSettled(b, s', k) && SamePrefix(s, s', k)
  {
    match s.pcs[w].abort
    case Converting(_) => ConvertKeepsPrefix(b, s, w, s', k);
    case Reset => PrefixQuiet(b, s, w, s', k);
  }

  lemma RescheduleKeepsPrefix(b: Block, s: State, w: nat, s': State, k: nat)
    requires PrefixSettled(b, s, k) && w < |s.pcs| && s.pcs[w].Rescheduling? && s.pcs[w].tx < b.n && RescheduleStep(b, s, w, s')
    ensures PrefixSettled(b, s', k) && SamePrefix(s, s', k)
  {
    if s.pcs[w].reschedule.Retake? && s.sched.status[s.pcs[w].tx].status == ReadyToExecute {
      TakeKeepsPrefix(b, s, w, s.pcs[w].tx, k);
    } else {
      PrefixQuiet(b, s, w, s', k);
    }
  }

  /** The settled prefix is stable: no action of any worker touches it. */
  lemma StepKeepsPrefix(b: Block, s: State, s': State, k: nat)
    requires Ownership(b, s) && PrefixSettled(b, s, k) && Step(b, s, s')
    ensures PrefixSettled(b, s', k) && SamePrefix(s, s', k)
  {
    var w: nat :| WorkerStep(b, s, w, s');
    match s.pcs[w]
    case Idle(_) => PrefixQuiet(b, s, w, s', k);
    case Claimed(_, _) => ClaimKeepsPrefix(b, s, w, s', k);
    case Working(_, _, _) => WorkKeepsPrefix(b, s, w, s', k);
    case Validating(_, _, _) => CheckKeepsPrefix(b, s, w, s', k);
    case Aborting(_, _) => AbortKeepsPrefix(b, s, w, s', k);
    case Rescheduling(_, _) => RescheduleKeepsPrefix(b, s, w, s', k);
  }

  ghost predicate KeptPrefix(b: Block, s: State, s': State, k: nat) {
    PrefixSettled(b, s, k) ==> PrefixSettled(b, s', k) && SamePrefix(s, s', k)
  }

  lemma RunKeepsPrefixAt(b: Block, run: seq<State>, m: nat, k: nat)
    requires WellFormed(b) && IsRun(b, run) && 0 < m < |run| && !run[m].aborted
    ensures !run[m - 1].aborted && KeptPrefix(b, run[m - 1], run[m], k)
  {
    LiveBefore(b, run, m);
    LiveInv(b, run, m - 1);
    if PrefixSettled(b, run[m - 1], k) {
      StepKeepsPrefix(b, run[m - 1], run[m], k);
    }
  }

  lemma KeptTwice(b: Block, p: State, q: State, r: State, k: nat)
    requires PrefixSettled(b, p, k) && KeptPrefix(b, p, q, k) && KeptPrefix(b, q, r, k)
    ensures PrefixSettled(b, r, k) && SamePrefix(p, r, k)
  {
  }

  /** Once settled, a prefix stays as it is for the rest of the run. */
  lemma {:induction false} SettledPrefixIsStable(b: Block, run: seq<State>, j: nat, m: nat, k: nat)
    requires WellFormed(b) && IsRun(b, run) && j <= m < |run| && !run[m].aborted
    requires PrefixSettled(b, run[j], k)
    ensures PrefixSettled(b, run[m], k) && SamePrefix(run[j], run[m], k)
  {
    if j < m {
      RunKeepsPrefixAt(b, run, m, k);
      SettledPrefixIsStable(b, run, j, m - 1, k);
      KeptTwice(b, run[j], run[m - 1], run[m], k);
    }
  }
}
