/** Stretches of a run in which a single worker acts, put together: claiming, executing,
    validating, aborting. From them come whole runs. */
module SoloRuns {
  import opened Types
  import opened MultiVersion
  import opened SchedulerSteps
  import opened Engine
  import opened Owners
  import opened Invariant
  import opened Refinement

  /** Worker w alone leads from s to s'. */
  ghost predicate Solo(b: Block, w: nat, s: State, s': State) {
    exists path :: Alone(b, w, path) && path[0] == s && Last(path) == s'
  }

  lemma SoloStep(b: Block, w: nat, s: State, s': State)
    requires WorkerStep(b, s, w, s')
    ensures Solo(b, w, s, s')
  {
    One(b, w, s, s');
    assert Alone(b, w, [s, s']) && [s, s'][0] == s;
  }

  lemma SoloPath(b: Block, w: nat, path: seq<State>)
    requires Alone(b, w, path)
    ensures Solo(b, w, path[0], Last(path))
  {
  }

  lemma SoloJoin(b: Block, w: nat, p: State, q: State, r: State)
    requires Solo(b, w, p, q) && Solo(b, w, q, r)
    ensures Solo(b, w, p, r)
  {
    var first :| Alone(b, w, first) && first[0] == p && Last(first) == q;
    var second :| Alone(b, w, second) && second[0] == q && Last(second) == r;
    Join(b, w, first, second);
  }

  lemma {:induction false} PathKeepsAborted(b: Block, w: nat, path: seq<State>, k: nat)
    requires Alone(b, w, path) && k < |path| && path[k].aborted
    ensures Last(path).aborted
    decreases |path| - k
  {
    if k < |path| - 1 {
      assert ActsAt(b, w, path, k);
      StepKeepsAborted(b, path[k], w, path[k + 1]);
      PathKeepsAborted(b, w, path, k + 1);
    }
  }

  lemma {:induction false} PathKeepsOwnership(b: Block, w: nat, path: seq<State>, k: nat)
    requires Alone(b, w, path) && k < |path| && Ownership(b, path[0]) && !Last(path).aborted
    ensures Ownership(b, path[k])
  {
    if k > 0 {
      PathKeepsOwnership(b, w, path, k - 1);
      assert ActsAt(b, w, path, k - 1);
      if path[k].aborted { PathKeepsAborted(b, w, path, k); }
      StepKeepsOwnership(b, path[k - 1], w, path[k]);
    }
  }

  lemma SoloKeepsOwnership(b: Block, w: nat, s: State, s': State)
    requires Solo(b, w, s, s') && Ownership(b, s) && !s'.aborted
    ensures Ownership(b, s')
  {
    var path :| Alone(b, w, path) && path[0] == s && Last(path) == s';
    PathKeepsOwnership(b, w, path, |path| - 1);
  }

  /** A run goes on with what a single worker does. */
  lemma SoloReachable(b: Block, w: nat, s: State, s': State)
    requires Reachable(b, s) && Solo(b, w, s, s')
    ensures Reachable(b, s')
  {
    var run :| IsRun(b, run) && run[|run| - 1] == s;
    var path :| Alone(b, w, path) && path[0] == s && Last(path) == s';
    RunAndPath(b, w, run, path);
  }

  lemma RunAndPath(b: Block, w: nat, run: seq<State>, path: seq<State>)
    requires IsRun(b, run) && Alone(b, w, path) && path[0] == run[|run| - 1]
    ensures Reachable(b, Last(path))
  {
    var longer := run + path[1..];
    forall k: nat ensures StepsAt(b, longer, k) {
      if k < |longer| - 1 {
        if k < |run| - 1 {
          assert StepsAt(b, run, k);
        } else {
          assert ActsAt(b, w, path, k - |run| + 1);
          assert WorkerStep(b, longer[k], w, longer[k + 1]);
        }
      }
    }
    assert IsRun(b, longer) && longer[|longer| - 1] == Last(path);
  }

  /** Where a run with this many workers begins. */
  ghost function InitialState(b: Block, workers: nat): State {
    State(Initial(b.n), SeedStore(b.seeds), seq(b.n, i => map[]), seq(b.n, i => {}), seq(b.n, i => None), b.beneficiaries, false,
          seq(workers, i => TOP), map[], seq(b.n, i => Nobody))
  }

  lemma InitialIsReachable(b: Block, workers: nat)
    requires workers > 0
    ensures Init(b, InitialState(b, workers)) && Reachable(b, InitialState(b, workers)) && |InitialState(b, workers).pcs| == workers
  {
    var s := InitialState(b, workers);
    forall k: nat ensures StepsAt(b, [s], k) {}
    assert IsRun(b, [s]) && [s][|[s]| - 1] == s;
  }

  // ---------- next_task ----------

  /** The worker is at the top of its loop and gets every lock it asks for. */
  ghost predicate AtTop(b: Block, s: State, w: nat) {
    Shape(b, s) && w < |s.pcs| && s.pcs[w] == TOP && OthersHoldNothing(s, w) && !s.aborted
  }

  lemma IdleSolo(b: Block, s: State, w: nat)
    requires Shape(b, s) && w < |s.pcs| && s.pcs[w].Idle?
    ensures Solo(b, w, s, Go(s.(sched := IdleSched(s.sched, s.pcs[w].idle)), w, IdleNext(b.n, s.sched, s.aborted, s.pcs[w].idle)))
  {
    var stage := s.pcs[w].idle;
    var s' := Go(s.(sched := IdleSched(s.sched, stage)), w, IdleNext(b.n, s.sched, s.aborted, stage));
    assert IdleStep(b, s, w, s');
    SoloStep(b, w, s, s');
  }

  /** From the top to the counter that is further behind. */
  lemma LoadCounters(b: Block, s: State, w: nat) returns (s': State)
    requires AtTop(b, s, w)
    ensures Solo(b, w, s, s')
    ensures s' == Go(s, w, IdleNext(b.n, s.sched, false, LoadValidation(s.sched.executionIdx)))
  {
    IdleSolo(b, s, w);
    var s1 := Go(s, w, Idle(LoadValidation(s.sched.executionIdx)));
    assert s1 == Go(s.(sched := IdleSched(s.sched, Top)), w, IdleNext(b.n, s.sched, s.aborted, Top));
    IdleSolo(b, s1, w);
    s' := Go(s, w, IdleNext(b.n, s.sched, false, LoadValidation(s.sched.executionIdx)));
    assert s' == Go(s1, w, IdleNext(b.n, s1.sched, s1.aborted, LoadValidation(s.sched.executionIdx)));
    SoloJoin(b, w, s, s1, s');
  }

  /** The execution counter stands at a ready transaction, and the other is not behind. */
  lemma ClaimReady(b: Block, s: State, w: nat, t: nat) returns (s': State)
    requires AtTop(b, s, w) && t == s.sched.executionIdx < b.n && s.sched.validationIdx >= t
    requires s.sched.status[t].status == ReadyToExecute
    ensures Solo(b, w, s, s')
    ensures s' == Take(s.(sched := s.sched.(executionIdx := t + 1)), w, t)
  {
    var s1 := LoadCounters(b, s, w);
    IdleSolo(b, s1, w);
    var q := s.sched.(executionIdx := t + 1);
    var s2 := Go(s.(sched := q), w, Claimed(t, false));
    assert s2 == Go(s1.(sched := IdleSched(s1.sched, ClaimExecution)), w, IdleNext(b.n, s1.sched, s1.aborted, ClaimExecution));
    s' := Take(s2, w, t);
    assert ClaimStep(b, s2, w, s');
    SoloStep(b, w, s2, s');
    SoloJoin(b, w, s, s1, s2);
    SoloJoin(b, w, s, s2, s');
    assert s' == Take(s.(sched := q), w, t);
  }

  /** The validation counter is behind, at a finished transaction. */
  lemma ClaimFinished(b: Block, s: State, w: nat, t: nat) returns (s': State)
    requires AtTop(b, s, w) && t == s.sched.validationIdx < s.sched.executionIdx && t < b.n
    requires IsFinished(s.sched.status[t].status)
    ensures Solo(b, w, s, s')
    ensures s' == Go(s.(sched := s.sched.(validationIdx := t + 1)), w, Validating(t, s.sched.status[t].incarnation, Begin))
  {
    var s1 := LoadCounters(b, s, w);
    IdleSolo(b, s1, w);
    var q := s.sched.(validationIdx := t + 1);
    var s2 := Go(s.(sched := q), w, Claimed(t, true));
    assert s2 == Go(s1.(sched := IdleSched(s1.sched, ClaimValidation)), w, IdleNext(b.n, s1.sched, s1.aborted, ClaimValidation));
    s' := Go(s.(sched := q), w, Validating(t, s.sched.status[t].incarnation, Begin));
    assert s' == Go(s2, w, ClaimNext(s2.sched.status[t], t, true));
    assert ClaimStep(b, s2, w, s');
    SoloStep(b, w, s2, s');
    SoloJoin(b, w, s, s1, s2);
    SoloJoin(b, w, s, s2, s');
  }

  /** Both counters are past the block and everything is validated. */
  lemma Leave(b: Block, s: State, w: nat) returns (s': State)
    requires AtTop(b, s, w) && s.sched.executionIdx >= b.n && s.sched.validationIdx >= b.n && s.sched.numValidated >= b.n
    ensures Solo(b, w, s, s') && s' == Go(s, w, Exited)
  {
    var s1 := LoadCounters(b, s, w);
    IdleSolo(b, s1, w);
    var s2 := Go(s, w, Idle(ExitMin(s.sched.numValidated)));
    assert s2 == Go(s1.(sched := IdleSched(s1.sched, ExitCount)), w, IdleNext(b.n, s1.sched, s1.aborted, ExitCount));
    IdleSolo(b, s2, w);
    s' := Go(s, w, Exited);
    assert s' == Go(s2.(sched := IdleSched(s2.sched, s2.pcs[w].idle)), w, IdleNext(b.n, s2.sched, s2.aborted, s2.pcs[w].idle));
    SoloJoin(b, w, s, s1, s2);
    SoloJoin(b, w, s, s2, s');
  }

  // ---------- try_execute ----------

  const NOTHING_READ := Exec(false, [], map[])

  /** One more read of execution e, on this store. */
  ghost predicate ReadsOn(b: Block, store: Store, t: nat, e: Exec, e': Exec) {
    && NextAction(b, t, e).Read?
    && var l := NextAction(b, t, e).loc;
       var r := MultiVersion.Read(store, l, b.stored(l), t, Previous(e.readSet, l));
       r.Got? && e' == Exec(e.lazy, e.events + [Event(l, r.value)], e.readSet[l := r.origins])
  }

  ghost predicate ReadsOnAt(b: Block, store: Store, t: nat, execs: seq<Exec>, k: nat) {
    k < |execs| - 1 ==> ReadsOn(b, store, t, execs[k], execs[k + 1])
  }

  /** An execution as it grows, read by read, until the machine is done. */
  ghost predicate Grows(b: Block, store: Store, t: nat, execs: seq<Exec>) {
    execs != [] && execs[0] == Exec(execs[0].lazy, [], map[]) && forall k: nat :: ReadsOnAt(b, store, t, execs, k)
  }

  lemma {:induction false} RunSolo(b: Block, s: State, w: nat, t: nat, execs: seq<Exec>, k: nat) returns (s': State)
    requires Shape(b, s) && w < |s.pcs| && t < b.n && s.pcs[w].Working? && s.pcs[w].tx == t && s.pcs[w].work == Start
    requires Grows(b, s.store, t, execs) && k < |execs|
    ensures Solo(b, w, s, s') && s' == Go(s, w, Working(t, s.pcs[w].incarnation, Running(execs[k])))
  {
    var i := s.pcs[w].incarnation;
    s' := Go(s, w, Working(t, i, Running(execs[k])));
    if k == 0 {
      assert WorkStep(b, s, w, s');
      SoloStep(b, w, s, s');
    } else {
      var s1 := RunSolo(b, s, w, t, execs, k - 1);
      assert ReadsOnAt(b, s.store, t, execs, k - 1);
      assert RunNext(b, s.store, t, execs[k - 1]) == Running(execs[k]);
      assert RunStep(b, s1, w, s');
      SoloStep(b, w, s1, s');
      SoloJoin(b, w, s, s1, s');
    }
  }

  /** Execution e of t has been recorded, published and finished, as incarnation i. */
  ghost predicate IsExecuted(b: Block, s: State, w: nat, t: nat, i: nat, e: Exec, s': State)
    requires Shape(b, s) && w < |s.pcs| && t < b.n && ListsInBlock(s.sched)
  {
    var writes := WritesBy(b, t, e);
    var (q, task) := FinishExecution(s.sched, TxVersion(t, i), true, !(writes.Keys <= s.lastWrite[t]));
    && |s'.owner| == |s.owner|
    && s' == s.(sched := q, store := s'.store, lastRead := s.lastRead[t := e.readSet], lastWrite := s.lastWrite[t := writes.Keys],
                results := s.results[t := Some(ResultBy(b, t, e))],
                lazyAddresses := if e.lazy then s.lazyAddresses + b.parties(t) else s.lazyAddresses,
                pcs := s.pcs[w := if task.Some? then Validating(t, i, Begin) else TOP],
                log := s.log[TxVersion(t, i) := e], owner := s'.owner)
    && forall l, j :: EntryAt(s'.store, l, j) ==
                      if j != t then EntryAt(s.store, l, j)
                      else if l in writes then Some(Data(i, writes[l]))
                      else if l in s.lastWrite[t] then None
                      else EntryAt(s.store, l, j)
  }

  lemma RecordAndPublish(b: Block, s: State, w: nat, t: nat, i: nat, e: Exec) returns (s': State)
    requires Shape(b, s) && w < |s.pcs| && t < b.n && s.pcs[w] == Working(t, i, Running(e)) && OthersHoldNothing(s, w)
    requires NextAction(b, t, e).Finish?
    ensures Solo(b, w, s, s') && |s'.owner| == |s.owner|
    ensures
      var writes := WritesBy(b, t, e);
      && s' == s.(store := s'.store, lastRead := s.lastRead[t := e.readSet], lastWrite := s.lastWrite[t := writes.Keys],
                  results := s.results[t := Some(ResultBy(b, t, e))],
                  lazyAddresses := if e.lazy then s.lazyAddresses + b.parties(t) else s.lazyAddresses,
                  pcs := s.pcs[w := Working(t, i, Resume(!(writes.Keys <= s.lastWrite[t])))],
                  log := s.log[TxVersion(t, i) := e])
      && forall l, j :: EntryAt(s'.store, l, j) ==
                        if j != t then EntryAt(s.store, l, j)
                        else if l in writes then Some(Data(i, writes[l]))
                        else if l in s.lastWrite[t] then None
                        else EntryAt(s.store, l, j)
  {
    var s1 := BeginRecord(b, s, w, t, i, e);
    assert RunStep(b, s, w, s1);
    SoloStep(b, w, s, s1);
    var record := RecordAlone(b, s1, w, t, WritesBy(b, t, e));
    SoloPath(b, w, record);
    var s2 := Last(record);
    SoloJoin(b, w, s, s1, s2);
    s' := Go(s2.(results := s2.results[t := Some(ResultBy(b, t, e))]), w, Working(t, i, Resume(s2.pcs[w].work.wroteNew)));
    assert PublishStep(b, s2, w, s');
    SoloStep(b, w, s2, s');
    SoloJoin(b, w, s, s2, s');
  }

  /** try_execute, uninterrupted, from the first read to the end of finish_execution. */
  lemma ExecuteSolo(b: Block, s: State, w: nat, t: nat, i: nat, execs: seq<Exec>) returns (s': State)
    requires Ownership(b, s) && w < |s.pcs| && t < b.n && s.pcs[w] == Working(t, i, Start) && OthersHoldNothing(s, w) && !s.aborted
    requires Grows(b, s.store, t, execs) && NextAction(b, t, execs[|execs| - 1]).Finish?
    ensures Solo(b, w, s, s') && ListsInBlock(s.sched) && IsExecuted(b, s, w, t, i, execs[|execs| - 1], s')
  {
    var e := execs[|execs| - 1];
    var s1 := RunSolo(b, s, w, t, execs, |execs| - 1);
    var s2 := RecordAndPublish(b, s1, w, t, i, e);
    SoloJoin(b, w, s, s1, s2);
    SoloKeepsOwnership(b, w, s, s2);
    var finish := FinishExecutionAlone(b, s2, w, t);
    SoloPath(b, w, finish);
    s' := Last(finish);
    SoloJoin(b, w, s, s2, s');
  }

  // ---------- try_validate ----------

  lemma CheckSolo(b: Block, s: State, w: nat, t: nat, i: nat) returns (s': State)
    requires Shape(b, s) && w < |s.pcs| && t < b.n && s.pcs[w] == Validating(t, i, Begin)
    ensures Solo(b, w, s, s')
    ensures s' == Go(s, w, Validating(t, i, if AllRead(s, t, s.lastRead[t].Keys) then Valid else Invalid))
  {
    var s1 := Go(s, w, Validating(t, i, Checking(s.lastRead[t].Keys)));
    assert CheckStep(b, s, w, s1);
    SoloStep(b, w, s, s1);
    var check := CheckAlone(b, s1, w, t);
    SoloPath(b, w, check);
    s' := Last(check);
    SoloJoin(b, w, s, s1, s');
    AllReadSame(s, s1, t, s.lastRead[t].Keys);
  }

  lemma AllReadSame(s: State, s': State, t: nat, todo: set<Loc>)
    requires t < |s.lastRead| && s'.lastRead == s.lastRead && s'.store == s.store
    ensures AllRead(s, t, todo) <==> AllRead(s', t, todo)
  {
    forall l ensures StillReads(s, t, l) == StillReads(s', t, l) {}
  }

  /** A validation that finds nothing wrong. */
  lemma ValidateSolo(b: Block, s: State, w: nat, t: nat, i: nat) returns (s': State)
    requires Shape(b, s) && w < |s.pcs| && t < b.n && s.pcs[w] == Validating(t, i, Begin) && OthersHoldNothing(s, w)
    requires AllRead(s, t, s.lastRead[t].Keys)
    ensures Solo(b, w, s, s') && s' == Go(s.(sched := Confirm(s.sched, t)), w, TOP)
  {
    var s1 := CheckSolo(b, s, w, t, i);
    s' := Go(s.(sched := Confirm(s.sched, t)), w, TOP);
    assert ConfirmStep(b, s1, w, s');
    SoloStep(b, w, s1, s');
    SoloJoin(b, w, s, s1, s');
  }
}
