/** Runs in which one worker does all the work, one transaction after another. They show
    that runs do finish: the theorems about finished runs speak of something. */
module InOrder {
  import opened Types
  import opened LazyBalances
  import opened MultiVersion
  import opened SchedulerSteps
  import opened Engine
  import opened Owners
  import opened Columns
  import opened History
  import opened Invariant
  import opened Serializability
  import opened Refinement
  import opened SoloRuns

  /** The first k transactions are validated, the others untouched, and nobody has a task. */
  ghost predicate OnTrack(b: Block, s: State, k: nat) {
    && Shape(b, s) && k <= b.n && |s.pcs| > 0 && !s.aborted
    && (forall w :: 0 <= w < |s.pcs| ==> s.pcs[w] == TOP)
    && s.sched.executionIdx == k && s.sched.validationIdx >= k
    && (forall t :: 0 <= t < k ==> s.sched.status[t].status == Validated)
    && (forall t :: k <= t < b.n ==> s.sched.status[t] == TxStatus(0, ReadyToExecute))
    && (forall t :: 0 <= t < b.n ==> s.sched.dependents[t] == [])
  }

  lemma OnTrackIsSettled(b: Block, s: State, k: nat)
    requires OnTrack(b, s, k)
    ensures PrefixSettled(b, s, k)
  {
  }

  /** The origins kept for each location are those a walk would collect now. */
  ghost predicate Fresh(store: Store, t: nat, e: Exec) {
    forall l :: l in e.readSet ==> Walk(ColumnOf(store, l), t).Chain? && e.readSet[l] == Walk(ColumnOf(store, l), t).origins
  }

  // ---------- One transaction ----------

  lemma FinishQuiet(q: Sched, t: nat, i: nat, wroteNew: bool)
    requires t < |q.status| == |q.dependents| && ListsInBlock(q) && q.dependents[t] == []
    ensures
      var m := Min(q.minValidationIdx, t);
      FinishExecution(q, TxVersion(t, i), true, wroteNew) ==
      (q.(status := q.status[t := q.status[t].(status := Executed)], minValidationIdx := m,
          validationIdx := if t < q.validationIdx && wroteNew then Min(q.validationIdx, t + 1) else q.validationIdx),
       if t < q.validationIdx then Some(Validation(TxVersion(t, i))) else None)
  {
  }

  /** What was read below k still matches after k has written. */
  lemma StillMatches(b: Block, s: State, s': State, k: nat, l: Loc)
    requires ColumnsOk(b, s) && Walk(ColumnOf(s.store, l), k).Chain?
    requires forall j: nat :: j < k ==> EntryAt(s'.store, l, j) == EntryAt(s.store, l, j)
    ensures Matches(s'.store, l, k, Walk(ColumnOf(s.store, l), k).origins)
  {
    var c, c', vs := ColumnOf(s.store, l), ColumnOf(s'.store, l), VersionsAt(b, s.log, l);
    var os := Walk(c, k).origins;
    StoreAgrees(b, s, l);
    WalkIsComplete(c, k, vs);
    MatchesExactlyRereads(c, k, os, vs);
    forall j: nat | j < k ensures (j in c <==> j in c') && (j in c ==> c[j] == c'[j]) {
      assert EntryAt(s'.store, l, j) == EntryAt(s.store, l, j);
    }
    MatchesBelow(c, c', k, os);
    if l !in s'.store {
      MatchesExactlyRereads(map[], k, os, vs);
      EmptyColumn(k);
    }
  }

  lemma AllStillRead(b: Block, s: State, s': State, k: nat, e: Exec)
    requires ColumnsOk(b, s) && Shape(b, s') && k < b.n && Fresh(s.store, k, e) && s'.lastRead[k] == e.readSet
    requires forall l, j: nat :: j < k ==> EntryAt(s'.store, l, j) == EntryAt(s.store, l, j)
    ensures AllRead(s', k, s'.lastRead[k].Keys)
  {
    forall l | l in s'.lastRead[k] ensures StillReads(s', k, l) {
      StillMatches(b, s, s', k, l);
    }
  }

  /** Claimed and executed: only k has changed, and validating it would succeed. */
  ghost predicate JustExecuted(b: Block, s: State, k: nat, e: Exec, s': State)
    requires OnTrack(b, s, k) && k < b.n
  {
    && Shape(b, s') && !s'.aborted
    && s'.sched.executionIdx == k + 1 && s'.sched.dependents == s.sched.dependents
    && s'.sched.status == s.sched.status[k := TxStatus(0, Executed)]
    && (if s.sched.validationIdx > k then s'.sched.validationIdx > k && s'.pcs == s.pcs[0 := Validating(k, 0, Begin)]
        else s'.sched.validationIdx == k && s'.pcs == s.pcs)
    && TxVersion(k, 0) in s'.log && s'.log[TxVersion(k, 0)] == e
    && s'.lastRead[k] == e.readSet
    && (forall l, j: nat :: j < k ==> EntryAt(s'.store, l, j) == EntryAt(s.store, l, j))
  }

  lemma ExecuteNext(b: Block, s: State, k: nat, execs: seq<Exec>) returns (s': State)
    requires WellFormed(b) && Reachable(b, s) && OnTrack(b, s, k) && k < b.n
    requires Grows(b, s.store, k, execs) && NextAction(b, k, execs[|execs| - 1]).Finish?
    ensures Solo(b, 0, s, s') && JustExecuted(b, s, k, execs[|execs| - 1], s')
  {
    ReachableInv(b, s);
    var e := execs[|execs| - 1];
    var s1 := ClaimReady(b, s, 0, k);
    SoloKeepsOwnership(b, 0, s, s1);
    s' := ExecuteSolo(b, s1, 0, k, 0, execs);
    SoloJoin(b, 0, s, s1, s');
    WhatIsExecuted(b, s, k, e, s1, s');
  }

  lemma WhatIsExecuted(b: Block, s: State, k: nat, e: Exec, s1: State, s': State)
    requires OnTrack(b, s, k) && k < b.n && s1 == Take(s.(sched := s.sched.(executionIdx := k + 1)), 0, k)
    requires ListsInBlock(s1.sched) && IsExecuted(b, s1, 0, k, 0, e, s')
    ensures JustExecuted(b, s, k, e, s')
  {
    FinishQuiet(s1.sched, k, 0, !(WritesBy(b, k, e).Keys <= s1.lastWrite[k]));
    assert s.pcs[0 := TOP] == s.pcs;
    assert s1.sched.status[k] == TxStatus(0, Executing);
  }

  /** Validated by the same worker, at once or after claiming the validation. */
  lemma ValidateNext(b: Block, s: State, k: nat, w: nat) returns (s': State)
    requires Shape(b, s) && !s.aborted && w < |s.pcs| && k < b.n && OthersHoldNothing(s, w)
    requires s.sched.status[k] == TxStatus(0, Executed) && s.sched.executionIdx == k + 1 && AllRead(s, k, s.lastRead[k].Keys)
    requires if s.sched.validationIdx > k then s.pcs[w] == Validating(k, 0, Begin) else s.sched.validationIdx == k && s.pcs[w] == TOP
    ensures Solo(b, w, s, s')
    ensures
      var q := s.sched.(validationIdx := if s.sched.validationIdx > k then s.sched.validationIdx else k + 1);
      s' == Go(s.(sched := Confirm(q, k)), w, TOP)
  {
    if s.sched.validationIdx > k {
      s' := ValidateSolo(b, s, w, k, 0);
    } else {
      var s1 := ClaimFinished(b, s, w, k);
      AllReadSame(s, s1, k, s.lastRead[k].Keys);
      s' := ValidateSolo(b, s1, w, k, 0);
      SoloJoin(b, w, s, s1, s');
    }
  }

  /** One transaction after the others, executed and validated. */
  lemma Round(b: Block, s: State, k: nat, execs: seq<Exec>) returns (s': State)
    requires WellFormed(b) && Reachable(b, s) && OnTrack(b, s, k) && k < b.n
    requires Grows(b, s.store, k, execs) && NextAction(b, k, execs[|execs| - 1]).Finish? && Fresh(s.store, k, execs[|execs| - 1])
    ensures Reachable(b, s') && OnTrack(b, s', k + 1) && |s'.pcs| == |s.pcs|
    ensures forall l, j: nat :: j < k ==> EntryAt(s'.store, l, j) == EntryAt(s.store, l, j)
    ensures Holds(b, s', k, execs[|execs| - 1]) && s'.sched.status[k] == TxStatus(0, Validated)
  {
    var e := execs[|execs| - 1];
    ReachableInv(b, s);
    var s1 := ExecuteNext(b, s, k, execs);
    AllStillRead(b, s, s1, k, e);
    var s2 := ValidateNext(b, s1, k, 0);
    SoloJoin(b, 0, s, s1, s2);
    SoloReachable(b, 0, s, s2);
    s' := s2;
    RoundEnds(b, s, k, e, s1, s2);
    RoundHolds(b, s2, k, e);
  }

  lemma RoundEnds(b: Block, s: State, k: nat, e: Exec, s1: State, s2: State)
    requires OnTrack(b, s, k) && k < b.n && JustExecuted(b, s, k, e, s1)
    requires
      var q := s1.sched.(validationIdx := if s1.sched.validationIdx > k then s1.sched.validationIdx else k + 1);
      s2 == Go(s1.(sched := Confirm(q, k)), 0, TOP)
    ensures OnTrack(b, s2, k + 1) && |s2.pcs| == |s.pcs| && s2.sched.status[k] == TxStatus(0, Validated)
    ensures TxVersion(k, 0) in s2.log && s2.log[TxVersion(k, 0)] == e
    ensures forall l, j: nat :: j < k ==> EntryAt(s2.store, l, j) == EntryAt(s.store, l, j)
  {
    assert s2.pcs == s.pcs;
  }

  lemma RoundHolds(b: Block, s: State, k: nat, e: Exec)
    requires WellFormed(b) && Reachable(b, s) && OnTrack(b, s, k + 1) && s.sched.status[k] == TxStatus(0, Validated)
    requires TxVersion(k, 0) in s.log && s.log[TxVersion(k, 0)] == e
    ensures Holds(b, s, k, e)
  {
    ReachableInv(b, s);
    OnTrackIsSettled(b, s, k + 1);
    PrefixColumn(b, s, k + 1, k);
  }

  // ---------- The end ----------

  /** Once all are validated the workers leave, one by one. */
  lemma {:induction false} LeaveAll(b: Block, s: State, m: nat) returns (s': State)
    requires Reachable(b, s) && OnTrack(b, s, b.n) && s.sched.numValidated >= b.n && m <= |s.pcs|
    ensures Reachable(b, s') && s' == s.(pcs := s'.pcs) && |s'.pcs| == |s.pcs|
    ensures forall w :: 0 <= w < |s.pcs| ==> s'.pcs[w] == if w < m then Exited else TOP
  {
    if m == 0 {
      s' := s;
    } else {
      var s1 := LeaveAll(b, s, m - 1);
      s' := Leave(b, s1, m - 1);
      SoloReachable(b, m - 1, s1, s');
    }
  }

  lemma EveryoneLeaves(b: Block, s: State) returns (s': State)
    requires WellFormed(b) && Reachable(b, s) && OnTrack(b, s, b.n)
    ensures Reachable(b, s') && AllExited(s') && !s'.aborted && s'.store == s.store && s'.results == s.results && |s'.pcs| == |s.pcs|
  {
    ReachableInv(b, s);
    CountAllValidated(s.sched.status);
    s' := LeaveAll(b, s, |s.pcs|);
  }

  // ---------- Reading below a settled prefix ----------

  lemma {:induction false} RewalkSame(c: Column, t: nat)
    requires Walk(c, t).Chain?
    ensures Rewalk(c, t, Walk(c, t).origins).Got?
  {
    if t > 0 {
      if t - 1 !in c || IsLazy(c[t - 1].write) {
        RewalkSame(c, t - 1);
      }
      if t - 1 in c && IsLazy(c[t - 1].write) {
        assert Walk(c, t).origins[1..] == Walk(c, t - 1).origins;
      }
    }
  }

  /** A read that is not blocked collects the origins of a walk, the first time and
      whenever it is repeated. */
  lemma ReadsWalk(b: Block, s: State, t: nat, l: Loc, prev: Origins)
    requires WellFormed(b) && ColumnsOk(b, s) && HistoryOk(b, s) && Walk(ColumnOf(s.store, l), t).Chain?
    requires prev == [] || prev == Walk(ColumnOf(s.store, l), t).origins
    ensures MultiVersion.Read(s.store, l, b.stored(l), t, prev)
            == Got(Walk(ColumnOf(s.store, l), t).origins, Resolve(l, Walk(ColumnOf(s.store, l), t).writes, b.stored(l)))
  {
    var c := ColumnOf(s.store, l);
    if l.Basic? {
      if prev != [] { RewalkSame(c, t); }
    } else {
      forall j | j in c && c[j].Data? ensures c[j].write.Strict? {
        assert EntryAt(s.store, l, j) == Some(c[j]);
        EntryIsLogged(b, s, l, j);
        StrictVersions(b, s, l, TxVersion(j, c[j].incarnation));
      }
      StrictWalk(c, t);
      if Closest(c, t).Some? {
        assert [c[Closest(c, t).value].write][1..] == [];
      }
    }
  }

  lemma {:induction false} WalkIsChain(c: Column, t: nat)
    requires forall j: nat :: j < t && j in c ==> c[j].Data?
    ensures Walk(c, t).Chain?
  {
    if t > 0 { WalkIsChain(c, t - 1); }
  }

  lemma SettledIsChain(b: Block, s: State, k: nat, l: Loc)
    requires Inv(b, s) && PrefixSettled(b, s, k)
    ensures Walk(ColumnOf(s.store, l), k).Chain?
  {
    var c := ColumnOf(s.store, l);
    forall j: nat | j < k && j in c ensures c[j].Data? {
      PrefixColumn(b, s, k, j);
      assert EntryAt(s.store, l, j) == Some(c[j]);
    }
    WalkIsChain(c, k);
  }

  /** Below a settled prefix a sequential read is what the store gives. */
  lemma ReadsState(b: Block, s: State, states: seq<Loc -> Value>, results: seq<nat>, k: nat, l: Loc, prev: Origins)
    requires WellFormed(b) && Inv(b, s) && PrefixSettled(b, s, k) && Serial(b, states, results) && !IsDrained(b, states, k, l)
    requires prev == [] || (Walk(ColumnOf(s.store, l), k).Chain? && prev == Walk(ColumnOf(s.store, l), k).origins)
    ensures Walk(ColumnOf(s.store, l), k).Chain?
    ensures MultiVersion.Read(s.store, l, b.stored(l), k, prev) == Got(Walk(ColumnOf(s.store, l), k).origins, states[k](l))
  {
    SettledIsChain(b, s, k, l);
    AgreesInPrefix(b, s, states, results, k, k);
    WalkIsState(b, s, states, k, l);
    ReadsWalk(b, s, k, l, prev);
  }

  /** An execution of k as far as the given events. */
  ghost predicate GrowsTo(b: Block, store: Store, k: nat, events: seq<Event>, execs: seq<Exec>) {
    && Grows(b, store, k, execs) && Fresh(store, k, execs[|execs| - 1])
    && execs[|execs| - 1].lazy == false && execs[|execs| - 1].events == events
  }

  lemma GrowsMore(b: Block, store: Store, k: nat, events: seq<Event>, execs: seq<Exec>, event: Event, e: Exec)
    requires GrowsTo(b, store, k, events, execs) && ReadsOn(b, store, k, execs[|execs| - 1], e)
    requires Walk(ColumnOf(store, event.loc), k).Chain?
    requires e == Exec(false, events + [event], execs[|execs| - 1].readSet[event.loc := Walk(ColumnOf(store, event.loc), k).origins])
    ensures GrowsTo(b, store, k, events + [event], execs + [e])
  {
    var more := execs + [e];
    forall j: nat ensures ReadsOnAt(b, store, k, more, j) {
      assert ReadsOnAt(b, store, k, execs, j);
    }
  }

  /** The sequential execution of k, read from the store. */
  lemma {:induction false} SerialExecs(b: Block, s: State, states: seq<Loc -> Value>, results: seq<nat>, k: nat, events: seq<Event>, j: nat)
    returns (execs: seq<Exec>)
    requires WellFormed(b) && Inv(b, s) && PrefixSettled(b, s, k) && Serial(b, states, results) && k < b.n
    requires Runs(b, k, false, states[k], events) && j <= |events|
    ensures GrowsTo(b, s.store, k, events[..j], execs)
  {
    if j == 0 {
      execs := [NOTHING_READ];
      forall m: nat ensures ReadsOnAt(b, s.store, k, execs, m) {}
    } else {
      var before := SerialExecs(b, s, states, results, k, events, j - 1);
      var e, event := before[|before| - 1], events[j - 1];
      SerialNext(b, s, states, results, k, events, j - 1, e);
      var next := Exec(false, e.events + [event], e.readSet[event.loc := Walk(ColumnOf(s.store, event.loc), k).origins]);
      GrowsMore(b, s.store, k, events[..j - 1], before, event, next);
      execs := before + [next];
      assert events[..j] == events[..j - 1] + [event];
    }
  }

  lemma SerialNext(b: Block, s: State, states: seq<Loc -> Value>, results: seq<nat>, k: nat, events: seq<Event>, j: nat, e: Exec)
    requires WellFormed(b) && Inv(b, s) && PrefixSettled(b, s, k) && Serial(b, states, results) && k < b.n
    requires Runs(b, k, false, states[k], events) && j < |events|
    requires e.lazy == false && e.events == events[..j] && Fresh(s.store, k, e)
    ensures
      var l := events[j].loc;
      && Walk(ColumnOf(s.store, l), k).Chain?
      && ReadsOn(b, s.store, k, e, Exec(false, e.events + [events[j]], e.readSet[l := Walk(ColumnOf(s.store, l), k).origins]))
  {
    var l := events[j].loc;
    assert Values(events)[..j] == Values(events[..j]);
    NextIsRead(b, k, states[k], events, j);
    assert !IsDrained(b, states, k, l);
    ReadsState(b, s, states, results, k, l, Previous(e.readSet, l));
    assert events[j] == Event(l, events[j].value);
  }

  lemma NextIsRead(b: Block, t: nat, state: Loc -> Value, events: seq<Event>, j: nat)
    requires RunsSoFar(b, t, false, state, events) && j < |events|
    ensures RunsSoFar(b, t, false, state, events[..j]) && b.vm(t, false, Values(events[..j])) == Action.Read(events[j].loc)
    ensures events[j].value == state(events[j].loc)
  {
    assert Values(events)[..j] == Values(events[..j]);
    forall i | 0 <= i < j
      ensures b.vm(t, false, Values(events[..j])[..i]) == Action.Read(events[..j][i].loc) && events[..j][i].value == state(events[..j][i].loc)
    {
      assert Values(events[..j])[..i] == Values(events)[..i];
    }
  }

  // ---------- Every serial block finishes ----------

  lemma SerialRound(b: Block, s: State, states: seq<Loc -> Value>, results: seq<nat>, k: nat) returns (s': State)
    requires WellFormed(b) && Serial(b, states, results) && Reachable(b, s) && OnTrack(b, s, k) && k < b.n
    ensures Reachable(b, s') && OnTrack(b, s', k + 1) && |s'.pcs| == |s.pcs|
  {
    ReachableInv(b, s);
    OnTrackIsSettled(b, s, k);
    assert SequentialStep(b, k, states[k], states[k + 1], results[k]);
    var events :| Runs(b, k, false, states[k], events);
    var execs := SerialExecs(b, s, states, results, k, events, |events|);
    assert events[..|events|] == events;
    s' := Round(b, s, k, execs);
  }

  lemma {:induction false} SerialRounds(b: Block, states: seq<Loc -> Value>, results: seq<nat>, workers: nat, k: nat) returns (s: State)
    requires WellFormed(b) && Serial(b, states, results) && workers > 0 && k <= b.n
    ensures Reachable(b, s) && OnTrack(b, s, k) && |s.pcs| == workers
  {
    if k == 0 {
      InitialIsReachable(b, workers);
      s := InitialState(b, workers);
    } else {
      var before := SerialRounds(b, states, results, workers, k - 1);
      s := SerialRound(b, before, states, results, k - 1);
    }
  }

  /** Any number of workers can finish any serial block: from the start there is a run, not
      aborted, after which all of them have left. */
  lemma SerialBlockFinishes(b: Block, states: seq<Loc -> Value>, results: seq<nat>, workers: nat) returns (s: State)
    requires WellFormed(b) && Serial(b, states, results) && workers > 0
    ensures Reachable(b, s) && AllExited(s) && !s.aborted && |s.pcs| == workers
  {
    var done := SerialRounds(b, states, results, workers, b.n);
    s := EveryoneLeaves(b, done);
  }
}
