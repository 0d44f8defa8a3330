/** Re-validation coverage. Verdicts may be stale and marks premature; what keeps the
    engine safe is that whenever the reads of a finished transaction no longer match
    the store, somebody is still going to find out. */
module Coverage {
  import opened Types
  import opened MultiVersion
  import opened SchedulerSteps
  import opened Engine
  import opened Owners
  import opened Columns

  /** A finished transaction has read something else than the store says now. */
  ghost predicate Mismatch(b: Block, s: State, t: nat, l: Loc)
    requires Shape(b, s) && t < b.n
  {
    IsFinished(s.sched.status[t].status) && l in s.lastRead[t] && !Matches(s.store, l, t, s.lastRead[t][l])
  }

  /** Between a change to the store and lowering the validation counter for it. */
  predicate WillLower(stage: WorkStage) {
    match stage
    case Writing(_, _, wroteNew) => wroteNew
    case Publish(_, wroteNew) => wroteNew
    case Resume(wroteNew) => wroteNew
    case Resumed(wroteNew, _) => wroteNew
    case SetMin(wroteNew) => wroteNew
    case Look(wroteNew) => wroteNew
    case Lower => true
    case _ => false
  }

  predicate WillCheck(check: CheckStage, l: Loc) {
    match check
    case Begin => true
    case Checking(todo) => l in todo
    case Invalid => true
    case Valid => false
  }

  /** This worker is about to discover, or has discovered, that t misread l. */
  predicate CoversPc(pc: Pc, t: nat, l: Loc) {
    match pc
    case Claimed(x, forValidation) => x == t && forValidation
    case Validating(x, _, check) => x == t && WillCheck(check, l)
    case Working(x, _, stage) => x < t && WillLower(stage)
    case Aborting(x, _) => x < t
    case Rescheduling(x, stage) => x < t && stage.LowerAfterAbort?
    case _ => false
  }

  ghost predicate Covered(s: State, t: nat, l: Loc) {
    || s.sched.validationIdx <= t
    || exists u :: 0 <= u < |s.pcs| && CoversPc(s.pcs[u], t, l)
  }

  /** The counter is not past t, or the worker that moved it past t is waiting. */
  ghost predicate StillAhead(s: State, t: nat) {
    || s.sched.validationIdx <= t
    || exists u :: 0 <= u < |s.pcs| && s.pcs[u] == Claimed(t, true)
  }

  predicate ConcludesBlindly(pc: Pc) {
    pc.Working? && pc.work == Conclude(false)
  }

  ghost predicate CoverageOk(b: Block, s: State) {
    && Shape(b, s)
    && (forall t: nat, l :: t < b.n && Mismatch(b, s, t, l) ==> Covered(s, t, l))
    && (forall w :: 0 <= w < |s.pcs| && ConcludesBlindly(s.pcs[w]) ==> StillAhead(s, s.pcs[w].tx))
  }

  lemma InitCoverage(b: Block, s: State)
    requires Init(b, s)
    ensures CoverageOk(b, s)
  {
  }

  // ---------- Frames ----------

  /** Worker w alone moved, and what covered (t, l) still does. */
  ghost predicate KeepsCover(s: State, w: nat, s': State, t: nat, l: Loc)
    requires w < |s.pcs| && |s'.pcs| == |s.pcs|
  {
    && (s.sched.validationIdx <= t ==> s'.sched.validationIdx <= t || CoversPc(s'.pcs[w], t, l))
    && (CoversPc(s.pcs[w], t, l) ==> s'.sched.validationIdx <= t || CoversPc(s'.pcs[w], t, l))
  }

  ghost predicate KeepsAhead(s: State, w: nat, s': State, t: nat)
    requires w < |s'.pcs|
  {
    s.sched.validationIdx <= t ==> s'.sched.validationIdx <= t || s'.pcs[w] == Claimed(t, true)
  }

  lemma CoverStays(s: State, w: nat, s': State, t: nat, l: Loc)
    requires w < |s.pcs| && |s'.pcs| == |s.pcs| && s'.pcs == s.pcs[w := s'.pcs[w]]
    requires Covered(s, t, l) && KeepsCover(s, w, s', t, l)
    ensures Covered(s', t, l)
  {
    if s.sched.validationIdx > t {
      var u :| 0 <= u < |s.pcs| && CoversPc(s.pcs[u], t, l);
      assert u != w ==> s'.pcs[u] == s.pcs[u];
    }
  }

  /** The general step: every mismatch afterwards was one before and stays covered, or
      is covered by worker w itself. */
  lemma CoverageStep(b: Block, s: State, w: nat, s': State)
    requires CoverageOk(b, s) && Shape(b, s') && w < |s.pcs|
    requires |s'.pcs| == |s.pcs| && s'.pcs == s.pcs[w := s'.pcs[w]]
    requires forall t: nat, l :: t < b.n && Mismatch(b, s', t, l) ==>
               || CoversPc(s'.pcs[w], t, l)
               || s'.sched.validationIdx <= t
               || (Mismatch(b, s, t, l) && KeepsCover(s, w, s', t, l))
               || (ConcludesBlindly(s.pcs[w]) && s.pcs[w].tx == t && s'.sched.validationIdx == s.sched.validationIdx)
    requires forall t: nat :: t < b.n ==> KeepsAhead(s, w, s', t)
    requires ConcludesBlindly(s'.pcs[w]) ==> s'.sched.validationIdx <= s'.pcs[w].tx
    requires s.pcs[w].Claimed? ==> forall u :: 0 <= u < |s.pcs| ==> !HoldsLock(s.pcs[u], s.pcs[w].tx)
    requires forall u :: 0 <= u < |s.pcs| && s.pcs[u].Working? ==> s.pcs[u].tx < b.n
    ensures CoverageOk(b, s')
  {
    forall t: nat, l | t < b.n && Mismatch(b, s', t, l) ensures Covered(s', t, l) {
      if CoversPc(s'.pcs[w], t, l) || s'.sched.validationIdx <= t {
      } else if Mismatch(b, s, t, l) && KeepsCover(s, w, s', t, l) {
        CoverStays(s, w, s', t, l);
      } else {
        assert StillAhead(s, t);
        var u :| 0 <= u < |s.pcs| && s.pcs[u] == Claimed(t, true);
        assert s'.pcs[u] == s.pcs[u];
      }
    }
    forall u | 0 <= u < |s'.pcs| && ConcludesBlindly(s'.pcs[u]) ensures StillAhead(s', s'.pcs[u].tx) {
      if u != w {
        var t := s.pcs[u].tx;
        assert StillAhead(s, t) && HoldsLock(s.pcs[u], t);
        assert KeepsAhead(s, w, s', t);
        if s.sched.validationIdx > t {
          var c :| 0 <= c < |s.pcs| && s.pcs[c] == Claimed(t, true);
          assert s'.pcs[c] == s.pcs[c];
        }
      }
    }
  }

  /** Actions that leave the store and the read sets alone and finish nothing. */
  lemma CoverageQuiet(b: Block, s: State, w: nat, s': State)
    requires Ownership(b, s) && CoverageOk(b, s) && Shape(b, s') && w < |s.pcs|
    requires |s'.pcs| == |s.pcs| && s'.pcs == s.pcs[w := s'.pcs[w]]
    requires s'.store == s.store && s'.lastRead == s.lastRead
    requires forall t :: 0 <= t < b.n && IsFinished(s'.sched.status[t].status) ==> IsFinished(s.sched.status[t].status)
    requires forall t: nat :: t < b.n ==> KeepsAhead(s, w, s', t)
    requires ConcludesBlindly(s'.pcs[w]) ==> s'.sched.validationIdx <= s'.pcs[w].tx
    requires s.pcs[w].Claimed? ==> LockFree(s, s.pcs[w].tx)
    requires forall t: nat, l :: t < b.n && CoversPc(s.pcs[w], t, l) && Mismatch(b, s', t, l) ==>
               s'.sched.validationIdx <= t || CoversPc(s'.pcs[w], t, l)
    ensures CoverageOk(b, s')
  {
    forall t: nat, l | t < b.n && Mismatch(b, s', t, l) ensures Mismatch(b, s, t, l) && KeepsCover(s, w, s', t, l) {
      assert KeepsAhead(s, w, s', t);
    }
    forall u | 0 <= u < |s.pcs| && s.pcs[u].Working? ensures s.pcs[u].tx < b.n {
      assert WorkerOk(b, s, u);
    }
    CoverageStep(b, s, w, s');
  }

  // ---------- Actions that leave the store alone ----------

  lemma IdleKeepsCoverage(b: Block, s: State, w: nat, s': State)
    requires Ownership(b, s) && CoverageOk(b, s) && w < |s.pcs| && s.pcs[w].Idle? && IdleStep(b, s, w, s')
    ensures CoverageOk(b, s')
  {
    CoverageQuiet(b, s, w, s');
  }

  lemma ClaimKeepsCoverage(b: Block, s: State, w: nat, s': State)
    requires Ownership(b, s) && CoverageOk(b, s)
    requires w < |s.pcs| && s.pcs[w].Claimed? && s.pcs[w].tx < b.n && ClaimStep(b, s, w, s')
    ensures CoverageOk(b, s')
  {
    CoverageQuiet(b, s, w, s');
  }

  lemma RunKeepsCoverage(b: Block, s: State, w: nat, s': State)
    requires Ownership(b, s) && CoverageOk(b, s)
    requires w < |s.pcs| && s.pcs[w].Working? && s.pcs[w].tx < b.n && s.pcs[w].work.Running? && RunStep(b, s, w, s')
    requires !s'.aborted
    ensures CoverageOk(b, s')
  {
    var t, i, e := s.pcs[w].tx, s.pcs[w].incarnation, s.pcs[w].work.exec;
    if NextAction(b, t, e).Finish? {
      MyOwn(b, s, w);
      forall x: nat, l | x < b.n && Mismatch(b, s', x, l) ensures Mismatch(b, s, x, l) && KeepsCover(s, w, s', x, l) {
      }
      AllInBlock(b, s);
      CoverageStep(b, s, w, s');
    } else {
      CoverageQuiet(b, s, w, s');
    }
  }

  lemma AllInBlock(b: Block, s: State)
    requires Ownership(b, s)
    ensures forall u :: 0 <= u < |s.pcs| && s.pcs[u].Working? ==> s.pcs[u].tx < b.n
  {
    forall u | 0 <= u < |s.pcs| && s.pcs[u].Working? ensures s.pcs[u].tx < b.n {
      assert WorkerOk(b, s, u);
    }
  }

  /** What a worker holds is not finished. */
  lemma MyOwn(b: Block, s: State, w: nat)
    requires Ownership(b, s) && w < |s.pcs| && Owns(s.pcs[w])
    ensures s.pcs[w].tx < b.n && !IsFinished(s.sched.status[s.pcs[w].tx].status)
  {
    assert WorkerOk(b, s, w);
    assert OwnerOk(b, s, s.pcs[w].tx);
  }

  lemma BlockKeepsCoverage(b: Block, s: State, w: nat, s': State)
    requires Ownership(b, s) && CoverageOk(b, s)
    requires w < |s.pcs| && s.pcs[w].Working? && s.pcs[w].tx < b.n && s.pcs[w].work.Blocking? && BlockStep(b, s, w, s')
    ensures CoverageOk(b, s')
  {
    CoverageQuiet(b, s, w, s');
  }

  lemma ResumeKeepsCoverage(b: Block, s: State, w: nat, s': State)
    requires Ownership(b, s) && CoverageOk(b, s)
    requires w < |s.pcs| && s.pcs[w].Working? && s.pcs[w].tx < b.n && s.pcs[w].work.Resume? && ResumeStep(b, s, w, s')
    ensures CoverageOk(b, s')
  {
    CoverageQuiet(b, s, w, s');
  }

  /** Lowering the counter, or seeing that it is low enough, ends the window. */
  lemma AdjustKeepsCoverage(b: Block, s: State, w: nat, s': State)
    requires Ownership(b, s) && CoverageOk(b, s)
    requires w < |s.pcs| && s.pcs[w].Working? && s.pcs[w].tx < b.n && Adjusts(s.pcs[w].work) && AdjustStep(b, s, w, s')
    ensures CoverageOk(b, s')
  {
    CoverageQuiet(b, s, w, s');
  }

  lemma PublishKeepsCoverage(b: Block, s: State, w: nat, s': State)
    requires Ownership(b, s) && CoverageOk(b, s)
    requires w < |s.pcs| && s.pcs[w].Working? && s.pcs[w].tx < b.n && s.pcs[w].work.Publish? && PublishStep(b, s, w, s')
    ensures CoverageOk(b, s')
  {
    CoverageQuiet(b, s, w, s');
  }

  /** A transaction becomes finished: the worker validates it itself, or the counter
      has yet to reach it. */
  lemma ConcludeKeepsCoverage(b: Block, s: State, w: nat, s': State)
    requires Ownership(b, s) && CoverageOk(b, s)
    requires w < |s.pcs| && s.pcs[w].Working? && s.pcs[w].tx < b.n && s.pcs[w].work.Conclude? && ConcludeStep(b, s, w, s')
    ensures CoverageOk(b, s')
  {
    var t := s.pcs[w].tx;
    forall x: nat, l | x < b.n && x != t && Mismatch(b, s', x, l) ensures Mismatch(b, s, x, l) && KeepsCover(s, w, s', x, l) {
    }
    AllInBlock(b, s);
    CoverageStep(b, s, w, s');
  }

  lemma CheckKeepsCoverage(b: Block, s: State, w: nat, s': State)
    requires Ownership(b, s) && CoverageOk(b, s)
    requires w < |s.pcs| && s.pcs[w].Validating? && s.pcs[w].tx < b.n && CheckStep(b, s, w, s')
    ensures CoverageOk(b, s')
  {
    match s.pcs[w].check
    case Begin => CoverageQuiet(b, s, w, s');
    case Checking(_) => ReadCheckKeepsCoverage(b, s, w, s');
    case Invalid => RevokeKeepsCoverage(b, s, w, s');
    case Valid => CoverageQuiet(b, s, w, s');
  }

  /** A mismatching location is not checked off. */
  lemma ReadCheckKeepsCoverage(b: Block, s: State, w: nat, s': State)
    requires Ownership(b, s) && CoverageOk(b, s)
    requires w < |s.pcs| && s.pcs[w].Validating? && s.pcs[w].tx < b.n && s.pcs[w].check.Checking? && ReadCheckStep(b, s, w, s')
    ensures CoverageOk(b, s')
  {
    CoverageQuiet(b, s, w, s');
  }

  lemma RevokeKeepsCoverage(b: Block, s: State, w: nat, s': State)
    requires Ownership(b, s) && CoverageOk(b, s)
    requires w < |s.pcs| && s.pcs[w].Validating? && s.pcs[w].tx < b.n && s.pcs[w].check.Invalid? && RevokeStep(b, s, w, s')
    ensures CoverageOk(b, s')
  {
    CoverageQuiet(b, s, w, s');
  }

  lemma RescheduleKeepsCoverage(b: Block, s: State, w: nat, s': State)
    requires Ownership(b, s) && CoverageOk(b, s)
    requires w < |s.pcs| && s.pcs[w].Rescheduling? && s.pcs[w].tx < b.n && RescheduleStep(b, s, w, s')
    ensures CoverageOk(b, s')
  {
    CoverageQuiet(b, s, w, s');
  }

  // ---------- Actions on the store ----------

  /** Replacing an estimate does not spoil any match. */
  lemma EstimateReplaced(s: State, s': State, l: Loc, x: nat, t: nat, os: Origins)
    requires EntryAt(s.store, l, x) == Some(Estimate) && l in s'.store
    requires forall k, j: nat :: (k != l || j != x) ==> EntryAt(s'.store, k, j) == EntryAt(s.store, k, j)
    requires Matches(s.store, l, t, os)
    ensures Matches(s'.store, l, t, os)
  {
    var c, d := s.store[l], s'.store[l];
    forall j: nat | j != x ensures (j in c <==> j in d) && (j in c ==> c[j] == d[j]) {
      assert EntryAt(s.store, l, j) == if j in c then Some(c[j]) else None;
      assert EntryAt(s'.store, l, j) == if j in d then Some(d[j]) else None;
    }
    EstimateIsOpaque(c, d, x, t, os);
  }

  /** Entries of x do not concern the reads of x or of lower transactions. */
  lemma HigherEntry(s: State, s': State, l: Loc, x: nat, t: nat, os: Origins)
    requires t <= x && l in s'.store
    requires forall k, j: nat :: (k != l || j != x) ==> EntryAt(s'.store, k, j) == EntryAt(s.store, k, j)
    requires Matches(s.store, l, t, os)
    ensures Matches(s'.store, l, t, os)
  {
    var c, d := ColumnOf(s.store, l), s'.store[l];
    forall j: nat | j < t ensures (j in c <==> j in d) && (j in c ==> c[j] == d[j]) {
      assert EntryAt(s.store, l, j) == if j in c then Some(c[j]) else None;
      assert EntryAt(s'.store, l, j) == if j in d then Some(d[j]) else None;
    }
    MatchesBelow(c, d, t, os);
    if l !in s.store { StorageMatchesEmpty(t); }
  }

  lemma {:induction false} StorageMatchesEmpty(t: nat)
    ensures ColumnMatches(map[], t, [Storage])
  {
    if t > 0 { StorageMatchesEmpty(t - 1); }
  }

  /** One entry of a transaction the worker holds changes: reads of lower transactions
      stay as they are, and reads of higher ones do too if the entry was an estimate. */
  lemma EntryKeepsCoverage(b: Block, s: State, w: nat, s': State, l: Loc)
    requires Ownership(b, s) && CoverageOk(b, s) && Shape(b, s') && w < |s.pcs| && Owns(s.pcs[w])
    requires |s'.pcs| == |s.pcs| && s'.pcs == s.pcs[w := s'.pcs[w]] && s'.pcs[w].Working? == s.pcs[w].Working?
    requires Owns(s'.pcs[w]) && s'.pcs[w].tx == s.pcs[w].tx && !ConcludesBlindly(s'.pcs[w])
    requires s'.lastRead == s.lastRead && s'.sched == s.sched
    requires l in s'.store && forall k :: k != l ==> (k in s'.store <==> k in s.store) && (k in s.store ==> s'.store[k] == s.store[k])
    requires forall j: nat :: j != s.pcs[w].tx ==> EntryAt(s'.store, l, j) == EntryAt(s.store, l, j)
    requires s.pcs[w].Working? && WillLower(s.pcs[w].work) ==> WillLower(s'.pcs[w].work)
    requires EntryAt(s.store, l, s.pcs[w].tx) != Some(Estimate) && s'.pcs[w].Working? ==> WillLower(s'.pcs[w].work)
    ensures CoverageOk(b, s')
  {
    var x := s.pcs[w].tx;
    forall k, j: nat | k != l || j != x ensures EntryAt(s'.store, k, j) == EntryAt(s.store, k, j) {
    }
    forall t: nat, k | t < b.n && Mismatch(b, s', t, k)
      ensures CoversPc(s'.pcs[w], t, k) || (Mismatch(b, s, t, k) && KeepsCover(s, w, s', t, k))
    {
      if !CoversPc(s'.pcs[w], t, k) && k == l && Matches(s.store, l, t, s.lastRead[t][l]) {
        if t <= x {
          HigherEntry(s, s', l, x, t, s.lastRead[t][l]);
        } else {
          EstimateReplaced(s, s', l, x, t, s.lastRead[t][l]);
        }
      }
    }
    AllInBlock(b, s);
    CoverageStep(b, s, w, s');
  }

  lemma ClearOneKeepsCoverage(b: Block, s: State, w: nat, t: nat, l: Loc)
    requires Ownership(b, s) && ColumnsOk(b, s) && CoverageOk(b, s) && w < |s.pcs| && t < b.n
    requires s.pcs[w].Working? && s.pcs[w].tx == t && s.pcs[w].work.Clearing? && l in s.lastWrite[t]
    ensures CoverageOk(b, ClearOne(s, t, l))
  {
    var s' := ClearOne(s, t, l);
    MyColumn(b, s, w);
    assert EntryAt(s.store, l, t) == Some(Estimate) by {
      assert OnlyEstimates(b, s, t);
    }
    assert s'.pcs == s.pcs[w := s'.pcs[w]];
    EntryKeepsCoverage(b, s, w, s', l);
  }

  lemma ClearKeepsCoverage(b: Block, s: State, w: nat, s': State)
    requires Ownership(b, s) && ColumnsOk(b, s) && CoverageOk(b, s)
    requires w < |s.pcs| && s.pcs[w].Working? && s.pcs[w].tx < b.n && s.pcs[w].work.Clearing? && ClearStep(b, s, w, s')
    ensures CoverageOk(b, s')
  {
    var t, e := s.pcs[w].tx, s.pcs[w].work.exec;
    var writes := WritesBy(b, t, e);
    if s.lastWrite[t] <= writes.Keys {
      CoverageQuiet(b, s, w, s');
    } else {
      var l :| l in s.lastWrite[t] && l !in writes && s' == ClearOne(s, t, l);
      ClearOneKeepsCoverage(b, s, w, t, l);
    }
  }

  /** A location the last incarnation did not write raises the flag; one it did write
      still carries its estimate. */
  lemma WriteOneKeepsCoverage(b: Block, s: State, w: nat, t: nat, i: nat, e: Exec, todo: set<Loc>, wroteNew: bool, l: Loc, x: Write)
    requires Ownership(b, s) && ColumnsOk(b, s) && CoverageOk(b, s) && w < |s.pcs| && t < b.n
    requires s.pcs[w] == Working(t, i, Writing(e, todo, wroteNew)) && l in todo
    ensures CoverageOk(b, WriteOne(s, w, t, i, x, e, todo, wroteNew, l))
  {
    var s' := WriteOne(s, w, t, i, x, e, todo, wroteNew, l);
    MyColumn(b, s, w);
    assert l in s.lastWrite[t] ==> EntryAt(s.store, l, t) == Some(Estimate) by {
      assert Filled(b, s, t, e, todo);
    }
    EntryKeepsCoverage(b, s, w, s', l);
  }

  lemma WriteKeepsCoverage(b: Block, s: State, w: nat, s': State)
    requires Ownership(b, s) && ColumnsOk(b, s) && CoverageOk(b, s)
    requires w < |s.pcs| && s.pcs[w].Working? && s.pcs[w].tx < b.n && s.pcs[w].work.Writing? && WriteStep(b, s, w, s')
    ensures CoverageOk(b, s')
  {
    var t, i, e, todo := s.pcs[w].tx, s.pcs[w].incarnation, s.pcs[w].work.exec, s.pcs[w].work.todo;
    var wroteNew, writes := s.pcs[w].work.wroteNew, WritesBy(b, t, e);
    if todo == {} {
      CoverageQuiet(b, s, w, s');
    } else {
      var l :| l in todo && l in writes && s' == WriteOne(s, w, t, i, writes[l], e, todo, wroteNew, l);
      WriteOneKeepsCoverage(b, s, w, t, i, e, todo, wroteNew, l, writes[l]);
    }
  }

  lemma ConvertKeepsCoverage(b: Block, s: State, w: nat, s': State)
    requires Ownership(b, s) && ColumnsOk(b, s) && CoverageOk(b, s)
    requires w < |s.pcs| && s.pcs[w].Aborting? && s.pcs[w].tx < b.n && s.pcs[w].abort.Converting? && ConvertStep(b, s, w, s')
    ensures CoverageOk(b, s')
  {
    var t, todo := s.pcs[w].tx, s.pcs[w].abort.todo;
    if todo == {} {
      CoverageQuiet(b, s, w, s');
    } else {
      var l :| l in todo && s' == Go(s.(store := ConvertOne(s.store, l, t)), w, Pc.Aborting(t, Converting(todo - {l})));
      ConvertOneKeepsColumns(b, s, w, t, todo, l);
      EntryKeepsCoverage(b, s, w, s', l);
    }
  }

  lemma AbortKeepsCoverage(b: Block, s: State, w: nat, s': State)
    requires Ownership(b, s) && ColumnsOk(b, s) && CoverageOk(b, s)
    requires w < |s.pcs| && s.pcs[w].Aborting? && s.pcs[w].tx < b.n && AbortStep(b, s, w, s')
    ensures CoverageOk(b, s')
  {
    match s.pcs[w].abort
    case Converting(_) => ConvertKeepsCoverage(b, s, w, s');
    case Reset => CoverageQuiet(b, s, w, s');
  }

  lemma WorkKeepsCoverage(b: Block, s: State, w: nat, s': State)
    requires Ownership(b, s) && ColumnsOk(b, s) && CoverageOk(b, s)
    requires w < |s.pcs| && s.pcs[w].Working? && s.pcs[w].tx < b.n && WorkStep(b, s, w, s') && !s'.aborted
    ensures CoverageOk(b, s')
  {
    match s.pcs[w].work
    case Start => CoverageQuiet(b, s, w, s');
    case Running(_) => RunKeepsCoverage(b, s, w, s');
    case Blocking(_) => BlockKeepsCoverage(b, s, w, s');
    case Clearing(_) => ClearKeepsCoverage(b, s, w, s');
    case Writing(_, _, _) => WriteKeepsCoverage(b, s, w, s');
    case Publish(_, _) => PublishKeepsCoverage(b, s, w, s');
    case Resume(_) => ResumeKeepsCoverage(b, s, w, s');
    case Conclude(_) => ConcludeKeepsCoverage(b, s, w, s');
    case _ => AdjustKeepsCoverage(b, s, w, s');
  }

  lemma StepKeepsCoverage(b: Block, s: State, w: nat, s': State)
    requires Ownership(b, s) && ColumnsOk(b, s) && CoverageOk(b, s) && WorkerStep(b, s, w, s') && !s'.aborted
    ensures CoverageOk(b, s')
  {
    match s.pcs[w]
    case Idle(_) => IdleKeepsCoverage(b, s, w, s');
    case Claimed(_, _) => ClaimKeepsCoverage(b, s, w, s');
    case Working(_, _, _) => WorkKeepsCoverage(b, s, w, s');
    case Validating(_, _, _) => CheckKeepsCoverage(b, s, w, s');
    case Aborting(_, _) => AbortKeepsCoverage(b, s, w, s');
    case Rescheduling(_, _) => RescheduleKeepsCoverage(b, s, w, s');
  }
}
