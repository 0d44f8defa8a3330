/** Verdicts that come too late. A worker validates the incarnation it was handed, but when
    it acts on its verdict nobody compares incarnations: the verdict hits whatever is
    there. This module says exactly when that is another incarnation, and gives a run in
    which it happens. */
module StaleVerdicts {
  import opened Types
  import opened LazyBalances
  import opened MultiVersion
  import opened SchedulerSteps
  import opened Engine
  import opened Owners
  import opened Columns
  import opened Invariant
  import opened Guarantees
  import opened Refinement
  import opened SoloRuns

  // ---------- What a verdict does ----------

  /** Worker w is about to act on a verdict about incarnation i of t. */
  predicate ActsOn(s: State, w: nat, t: nat, i: nat) {
    w < |s.pcs| && s.pcs[w].Validating? && s.pcs[w].tx == t && s.pcs[w].incarnation == i
    && (s.pcs[w].check.Invalid? || s.pcs[w].check.Valid?)
  }

  /** It can change this status: an invalid verdict any finished one, a valid one only
      Executed. */
  predicate IsOpenTo(check: CheckStage, status: Status) {
    if check.Invalid? then IsFinished(status) else status == Executed
  }

  /** The status of t changes although it is not at incarnation i. */
  predicate HitsAnother(s: State, s': State, t: nat, i: nat)
    requires t < |s.sched.status| && t < |s'.sched.status|
  {
    s'.sched.status[t] != s.sched.status[t] && s.sched.status[t].incarnation != i
  }

  /** A verdict about incarnation i changes the status of another incarnation exactly when
      t is by then open to it at another incarnation; it never changes the incarnation. */
  lemma VerdictHitsWhateverIsThere(b: Block, s: State, w: nat, s': State, t: nat, i: nat)
    requires WorkerStep(b, s, w, s') && ActsOn(s, w, t, i)
    ensures t < b.n && Shape(b, s) && Shape(b, s') && s'.sched.status[t].incarnation == s.sched.status[t].incarnation
    ensures HitsAnother(s, s', t, i)
            <==> IsOpenTo(s.pcs[w].check, s.sched.status[t].status) && s.sched.status[t].incarnation != i
    ensures s'.sched.status[t] != s.sched.status[t] ==>
              s'.sched.status[t].status == if s.pcs[w].check.Invalid? then Status.Aborting else Validated
  {
    if s.pcs[w].check.Invalid? {
      assert RevokeStep(b, s, w, s');
    } else {
      assert ConfirmStep(b, s, w, s');
    }
  }

  /** In this step the worker is handed the validation of incarnation i of t. */
  predicate IsHanded(s: State, w: nat, s': State, t: nat, i: nat) {
    w < |s.pcs| && w < |s'.pcs| && !s.pcs[w].Validating? && s'.pcs[w] == Validating(t, i, Begin)
  }

  lemma OnlyConcludeHands(b: Block, s: State, w: nat, s': State)
    requires Shape(b, s) && w < |s.pcs| && w < |s'.pcs| && s.pcs[w].Working? && s.pcs[w].tx < b.n && !s.pcs[w].work.Conclude?
    requires WorkStep(b, s, w, s')
    ensures !s'.pcs[w].Validating?
  {
    match s.pcs[w].work
    case Running(_) =>
    case Blocking(_) =>
    case Writing(_, _, _) =>
    case Resume(_) =>
    case _ =>
  }

  lemma HandedAfterWork(b: Block, s: State, w: nat, s': State, t: nat, i: nat)
    requires Ownership(b, s) && IsHanded(s, w, s', t, i)
    requires s.pcs[w].Working? && s.pcs[w].tx < b.n && WorkStep(b, s, w, s')
    ensures t < b.n && Shape(b, s') && s'.sched.status[t] == TxStatus(i, Executed)
  {
    assert WorkerOk(b, s, w) && OwnerOk(b, s, s.pcs[w].tx);
    if !s.pcs[w].work.Conclude? { OnlyConcludeHands(b, s, w, s'); }
  }

  lemma HandedByClaim(b: Block, s: State, w: nat, s': State, t: nat, i: nat)
    requires Shape(b, s) && IsHanded(s, w, s', t, i) && s.pcs[w].Claimed? && s.pcs[w].tx < b.n && ClaimStep(b, s, w, s')
    ensures t < b.n && Shape(b, s') && IsFinished(s'.sched.status[t].status) && s'.sched.status[t].incarnation == i
  {
  }

  lemma NotHanded(b: Block, s: State, w: nat, s': State)
    requires Shape(b, s) && w < |s.pcs| && w < |s'.pcs|
    requires
      || (s.pcs[w].Idle? && IdleStep(b, s, w, s'))
      || (s.pcs[w].Aborting? && s.pcs[w].tx < b.n && AbortStep(b, s, w, s'))
      || (s.pcs[w].Rescheduling? && s.pcs[w].tx < b.n && RescheduleStep(b, s, w, s'))
    ensures !s'.pcs[w].Validating?
  {
  }

  /** The incarnation a worker validates is the one that was finished when it was handed
      the validation. */
  lemma VerdictStartsFresh(b: Block, s: State, w: nat, s': State, t: nat, i: nat)
    requires Ownership(b, s) && WorkerStep(b, s, w, s') && IsHanded(s, w, s', t, i)
    ensures t < b.n && Shape(b, s') && IsFinished(s'.sched.status[t].status) && s'.sched.status[t].incarnation == i
  {
    match s.pcs[w]
    case Working(_, _, _) => HandedAfterWork(b, s, w, s', t, i);
    case Claimed(_, _) => HandedByClaim(b, s, w, s', t, i);
    case Idle(_) => NotHanded(b, s, w, s');
    case Aborting(_, _) => NotHanded(b, s, w, s');
    case Rescheduling(_, _) => NotHanded(b, s, w, s');
  }

  // ---------- When that is another incarnation ----------

  /** Incarnation x of t is handed out somewhere between j and k. */
  ghost predicate TakenBetween(run: seq<State>, j: nat, k: nat, t: nat, x: nat) {
    exists m: nat :: j <= m < k && TakesAt(run, m, t, x)
  }

  ghost predicate TakesAt(run: seq<State>, m: nat, t: nat, x: nat) {
    m < |run| - 1 && Takes(run[m], run[m + 1], t, x)
  }

  /** An incarnation that is not ready any more has been taken. */
  lemma {:induction false} LaterWasTaken(b: Block, run: seq<State>, j: nat, k: nat, t: nat, x: nat)
    requires WellFormed(b) && IsRun(b, run) && j <= k < |run| && !run[k].aborted && t < b.n
    requires Shape(b, run[j]) && run[j].sched.status[t].incarnation < x
    requires Shape(b, run[k]) && run[k].sched.status[t].incarnation == x && run[k].sched.status[t].status != ReadyToExecute
    ensures TakenBetween(run, j, k, t, x)
  {
    if j < k {
      RunFollowsAt(b, run, k);
      LiveInv(b, run, k - 1);
      var p, c := run[k - 1].sched.status[t], run[k].sched.status[t];
      assert Follows(p, c);
      if p.status == ReadyToExecute && p != c {
        assert TakesAt(run, k - 1, t, x);
      } else {
        LaterWasTaken(b, run, j, k - 1, t, x);
        var m: nat :| j <= m < k - 1 && TakesAt(run, m, t, x);
      }
    }
  }

  /** Whoever takes t after it was finished at incarnation i takes a later incarnation, and
      t never goes back. */
  lemma TakenIsLater(b: Block, run: seq<State>, j: nat, m: nat, k: nat, t: nat, x: nat)
    requires IsRun(b, run) && j <= m < k < |run| && TakesAt(run, m, t, x)
    requires t < |run[j].sched.status| && IsFinished(run[j].sched.status[t].status)
    ensures t < |run[k].sched.status| && run[j].sched.status[t].incarnation < x <= run[k].sched.status[t].incarnation
  {
    RunMovesOn(b, run, j, m);
    RunMovesOn(b, run, m + 1, k);
    assert MovesOn(run[j].sched.status[t], run[m].sched.status[t]);
    assert MovesOn(run[m + 1].sched.status[t], run[k].sched.status[t]);
  }

  /** Between being handed a validation at j and acting on its verdict at k: t, finished at
      both points, is at the incarnation of the verdict if and only if no incarnation of t
      was taken in between. */
  lemma StaleIffTakenBetween(b: Block, run: seq<State>, j: nat, k: nat, t: nat, i: nat)
    requires WellFormed(b) && IsRun(b, run) && j <= k < |run| && !run[k].aborted && t < b.n
    requires Shape(b, run[j]) && IsFinished(run[j].sched.status[t].status) && run[j].sched.status[t].incarnation == i
    requires Shape(b, run[k]) && IsFinished(run[k].sched.status[t].status)
    ensures run[k].sched.status[t].incarnation == i <==> !exists x :: TakenBetween(run, j, k, t, x)
  {
    var x := run[k].sched.status[t].incarnation;
    RunMovesOn(b, run, j, k);
    assert MovesOn(run[j].sched.status[t], run[k].sched.status[t]);
    if x != i {
      LaterWasTaken(b, run, j, k, t, x);
    }
    if y :| TakenBetween(run, j, k, t, y) {
      var m: nat :| j <= m < k && TakesAt(run, m, t, y);
      TakenIsLater(b, run, j, m, k, t, y);
    }
  }

  // ---------- A run in which it happens ----------

  const L := Slot(0, 0)

  function StoredZero(l: Loc): Value {
    match l case Basic(_) => Account(0, 0) case CodeHash(_) => Code(None) case Slot(_, _) => Word(0)
  }

  const WRITES_ONE := map[L := Strict(Word(1))]

  /** The first transaction writes the slot, the second reads it. */
  function WriterThenReader(t: nat, lazy: bool, vs: seq<Value>): Action {
    if t == 0 then Finish(WRITES_ONE, 0)
    else if |vs| == 0 then Action.Read(L)
    else Finish(map[], 0)
  }

  ghost function SmallBlock(): Block {
    Block(2, WriterThenReader, StoredZero, map[], {}, t => {})
  }

  lemma SmallBlockIsWellFormed()
    ensures WellFormed(SmallBlock())
  {
  }

  const READ_STORAGE := Exec(false, [Event(L, Word(0))], map[L := [Storage]])
  const READ_WRITTEN := Exec(false, [Event(L, Word(1))], map[L := [MvMemory(TxVersion(0, 0))]])

  /** The parts of a state that matter here. */
  ghost predicate Looks(s: State, q: Sched, a: Pc, c: Pc, recorded: ReadSet, written: bool) {
    && Shape(SmallBlock(), s) && !s.aborted && s.sched == q && s.pcs == [a, c]
    && s.lastRead == [map[], recorded] && s.lastWrite == [if written then {L} else {}, {}]
    && forall l, j: nat :: EntryAt(s.store, l, j) == if written && l == L && j == 0 then Some(Data(0, Strict(Word(1)))) else None
  }

  function Two(x: TxStatus, y: TxStatus, e: nat, v: nat, min: nat, count: int): Sched {
    Sched([x, y], [[], []], e, v, min, count)
  }

  lemma ReadsSlot(s: State, written: bool)
    requires forall l, j: nat :: EntryAt(s.store, l, j) == if written && l == L && j == 0 then Some(Data(0, Strict(Word(1)))) else None
    ensures Grows(SmallBlock(), s.store, 0, [NOTHING_READ])
    ensures Grows(SmallBlock(), s.store, 1, [NOTHING_READ, if written then READ_WRITTEN else READ_STORAGE])
    ensures Matches(s.store, L, 1, [Storage]) <==> !written
  {
    var c := ColumnOf(s.store, L);
    assert forall j: nat :: j in c <==> EntryAt(s.store, L, j).Some?;
    assert Closest(c, 1) == if written then Some(0) else None;
    MatchesSlot(c, written);
    var b, e := SmallBlock(), if written then READ_WRITTEN else READ_STORAGE;
    assert Values(NOTHING_READ.events) == [];
    assert ReadsOn(b, s.store, 1, NOTHING_READ, e);
    forall k: nat ensures ReadsOnAt(b, s.store, 1, [NOTHING_READ, e], k) && ReadsOnAt(b, s.store, 0, [NOTHING_READ], k) {}
  }

  lemma MatchesSlot(c: Column, written: bool)
    requires written ==> 0 in c && c[0] == Data(0, Strict(Word(1)))
    requires !written ==> 0 !in c
    ensures ColumnMatches(c, 1, [Storage]) <==> !written
  {
    assert [Storage][1..] == [];
  }

  lemma FirstStarts(s0: State) returns (s: State)
    requires Init(SmallBlock(), s0) && |s0.pcs| == 2
    ensures Solo(SmallBlock(), 0, s0, s)
    ensures Looks(s, Two(TxStatus(0, Executing), TxStatus(0, ReadyToExecute), 1, 2, 2, 0), Working(0, 0, Start), TOP, map[], false)
  {
    assert s0.pcs == [TOP, TOP];
    s := ClaimReady(SmallBlock(), s0, 0, 0);
  }

  lemma SecondStarts(s: State) returns (s': State)
    requires Looks(s, Two(TxStatus(0, Executing), TxStatus(0, ReadyToExecute), 1, 2, 2, 0), Working(0, 0, Start), TOP, map[], false)
    ensures Solo(SmallBlock(), 1, s, s')
    ensures Looks(s', Two(TxStatus(0, Executing), TxStatus(0, Executing), 2, 2, 2, 0), Working(0, 0, Start), Working(1, 0, Start), map[], false)
  {
    s' := ClaimReady(SmallBlock(), s, 1, 1);
  }

  lemma AfterFinish(q: Sched, t: nat, i: nat, wroteNew: bool)
    requires |q.status| == 2 && q.dependents == [[], []] && t < 2
    ensures ListsInBlock(q)
    ensures
      var m := Min(q.minValidationIdx, t);
      FinishExecution(q, TxVersion(t, i), true, wroteNew) ==
      (q.(status := q.status[t := q.status[t].(status := Executed)], minValidationIdx := m,
          validationIdx := if m <= t < q.validationIdx && wroteNew then Min(q.validationIdx, t + 1) else q.validationIdx),
       if t < q.validationIdx then Some(Validation(TxVersion(t, i))) else None)
  {
  }

  lemma Goes(b: Block, w: nat, s: State, s': State)
    requires WellFormed(b) && Reachable(b, s) && Solo(b, w, s, s') && !s'.aborted
    ensures Reachable(b, s') && Ownership(b, s')
  {
    SoloReachable(b, w, s, s');
    ReachableInv(b, s');
  }

  lemma SecondIsDone(e: Exec, x: nat)
    requires e.events == [Event(L, Word(x))]
    ensures NextAction(SmallBlock(), 1, e).Finish? && WritesBy(SmallBlock(), 1, e) == map[]
  {
    assert |Values(e.events)| == 1;
  }

  /** The second transaction writes nothing, so little changes when it is executed. */
  lemma SecondLooks(s: State, s': State, w: nat, i: nat, e: Exec, x: TxStatus, y: TxStatus, min: nat, count: int, a: Pc, c: Pc,
                    recorded: ReadSet, written: bool)
    requires w < 2 && WritesBy(SmallBlock(), 1, e) == map[]
    requires Looks(s, Two(x, y, 2, 2, min, count), a, c, recorded, written) && ListsInBlock(s.sched)
    requires IsExecuted(SmallBlock(), s, w, 1, i, e, s')
    ensures Looks(s', Two(x, y.(status := Executed), 2, 2, Min(min, 1), count),
                  if w == 0 then Validating(1, i, Begin) else a, if w == 1 then Validating(1, i, Begin) else c, e.readSet, written)
  {
    AfterFinish(s.sched, 1, i, false);
    assert WritesBy(SmallBlock(), 1, e).Keys == {};
  }

  lemma SecondExecutes(s: State) returns (s': State)
    requires Reachable(SmallBlock(), s) && Ownership(SmallBlock(), s)
    requires Looks(s, Two(TxStatus(0, Executing), TxStatus(0, Executing), 2, 2, 2, 0), Working(0, 0, Start), Working(1, 0, Start), map[], false)
    ensures Solo(SmallBlock(), 1, s, s')
    ensures Looks(s', Two(TxStatus(0, Executing), TxStatus(0, Executed), 2, 2, 1, 0), Working(0, 0, Start), Validating(1, 0, Begin),
                  READ_STORAGE.readSet, false)
  {
    var b := SmallBlock();
    ReadsSlot(s, false);
    SecondIsDone(READ_STORAGE, 0);
    s' := ExecuteSolo(b, s, 1, 1, 0, [NOTHING_READ, READ_STORAGE]);
    SecondLooks(s, s', 1, 0, READ_STORAGE, TxStatus(0, Executing), TxStatus(0, Executing), 2, 0, Working(0, 0, Start), Working(1, 0, Start), map[], false);
  }

  lemma FirstExecutes(s: State) returns (s': State)
    requires Reachable(SmallBlock(), s) && Ownership(SmallBlock(), s)
    requires Looks(s, Two(TxStatus(0, Executing), TxStatus(0, Executed), 2, 2, 1, 0), Working(0, 0, Start), Validating(1, 0, Begin),
                   READ_STORAGE.readSet, false)
    ensures Solo(SmallBlock(), 0, s, s')
    ensures Looks(s', Two(TxStatus(0, Executed), TxStatus(0, Executed), 2, 1, 0, 0), Validating(0, 0, Begin), Validating(1, 0, Begin),
                  READ_STORAGE.readSet, true)
  {
    var b := SmallBlock();
    ReadsSlot(s, false);
    s' := ExecuteSolo(b, s, 0, 0, 0, [NOTHING_READ]);
    assert WritesBy(b, 0, NOTHING_READ) == WRITES_ONE && WRITES_ONE.Keys == {L};
    AfterFinish(s.sched, 0, 0, true);
  }

  /** The first transaction is validated; the other worker finds its verdict. */
  lemma FirstValidated(s: State) returns (s': State)
    requires Looks(s, Two(TxStatus(0, Executed), TxStatus(0, Executed), 2, 1, 0, 0), Validating(0, 0, Begin), Validating(1, 0, Begin),
                   READ_STORAGE.readSet, true)
    ensures Solo(SmallBlock(), 0, s, s')
    ensures Looks(s', Two(TxStatus(0, Validated), TxStatus(0, Executed), 2, 1, 0, 1), TOP, Validating(1, 0, Begin), READ_STORAGE.readSet, true)
  {
    assert s.lastRead[0].Keys == {};
    s' := ValidateSolo(SmallBlock(), s, 0, 0, 0);
  }

  lemma FoundInvalid(s: State, w: nat)
    requires Shape(SmallBlock(), s) && s.lastRead == [map[], READ_STORAGE.readSet] && !Matches(s.store, L, 1, [Storage])
    ensures !AllRead(s, 1, s.lastRead[1].Keys)
  {
    assert L in s.lastRead[1].Keys && !StillReads(s, 1, L);
  }

  lemma SecondIsInvalid(s: State) returns (s': State)
    requires Looks(s, Two(TxStatus(0, Validated), TxStatus(0, Executed), 2, 1, 0, 1), TOP, Validating(1, 0, Begin), READ_STORAGE.readSet, true)
    ensures Solo(SmallBlock(), 1, s, s')
    ensures Looks(s', Two(TxStatus(0, Validated), TxStatus(0, Executed), 2, 1, 0, 1), TOP, Validating(1, 0, Invalid), READ_STORAGE.readSet, true)
  {
    ReadsSlot(s, true);
    FoundInvalid(s, 1);
    s' := CheckSolo(SmallBlock(), s, 1, 1, 0);
  }

  /** The first worker claims the same validation and comes to the same verdict. */
  lemma FoundAgain(s: State) returns (s': State)
    requires Looks(s, Two(TxStatus(0, Validated), TxStatus(0, Executed), 2, 1, 0, 1), TOP, Validating(1, 0, Invalid), READ_STORAGE.readSet, true)
    ensures Solo(SmallBlock(), 0, s, s')
    ensures Looks(s', Two(TxStatus(0, Validated), TxStatus(0, Executed), 2, 2, 0, 1), Validating(1, 0, Invalid), Validating(1, 0, Invalid),
                  READ_STORAGE.readSet, true)
  {
    var b := SmallBlock();
    var s1 := ClaimFinished(b, s, 0, 1);
    ReadsSlot(s1, true);
    FoundInvalid(s1, 0);
    s' := CheckSolo(b, s1, 0, 1, 0);
    SoloJoin(b, 0, s, s1, s');
  }

  /** It acts first: it aborts the incarnation and takes the next. */
  lemma TakenBack(s: State) returns (s': State)
    requires Looks(s, Two(TxStatus(0, Validated), TxStatus(0, Executed), 2, 2, 0, 1), Validating(1, 0, Invalid), Validating(1, 0, Invalid),
                   READ_STORAGE.readSet, true)
    ensures Solo(SmallBlock(), 0, s, s')
    ensures Looks(s', Two(TxStatus(0, Validated), TxStatus(1, Executing), 2, 2, 0, 1), Working(1, 1, Start), Validating(1, 0, Invalid),
                  READ_STORAGE.readSet, true)
  {
    var b := SmallBlock();
    var s1 := Own(Go(s.(sched := Revoke(s.sched, 1)), 0, Pc.Aborting(1, Converting(s.lastWrite[1]))), 1, Worker(0));
    assert RevokeStep(b, s, 0, s1);
    SoloStep(b, 0, s, s1);
    var s2 := Go(s1, 0, Pc.Aborting(1, Reset));
    assert ConvertStep(b, s1, 0, s2);
    SoloStep(b, 0, s1, s2);
    SoloJoin(b, 0, s, s1, s2);
    var finish := FinishValidationAlone(b, s2, 0, 1);
    SoloPath(b, 0, finish);
    s' := Last(finish);
    SoloJoin(b, 0, s, s2, s');
  }

  lemma ExecutedAgain(s: State) returns (s': State)
    requires Reachable(SmallBlock(), s) && Ownership(SmallBlock(), s)
    requires Looks(s, Two(TxStatus(0, Validated), TxStatus(1, Executing), 2, 2, 0, 1), Working(1, 1, Start), Validating(1, 0, Invalid),
                   READ_STORAGE.readSet, true)
    ensures Solo(SmallBlock(), 0, s, s')
    ensures Looks(s', Two(TxStatus(0, Validated), TxStatus(1, Executed), 2, 2, 0, 1), Validating(1, 1, Begin), Validating(1, 0, Invalid),
                  READ_WRITTEN.readSet, true)
  {
    var b := SmallBlock();
    ReadsSlot(s, true);
    SecondIsDone(READ_WRITTEN, 1);
    s' := ExecuteSolo(b, s, 0, 1, 1, [NOTHING_READ, READ_WRITTEN]);
    SecondLooks(s, s', 0, 1, READ_WRITTEN, TxStatus(0, Validated), TxStatus(1, Executing), 0, 1, Working(1, 1, Start), Validating(1, 0, Invalid),
                READ_STORAGE.readSet, true);
  }

  /** A verdict about incarnation 0 takes back incarnation 1, in a reachable state of a
      well-formed block of two transactions run by two workers. */
  lemma StaleVerdictIsReachable() returns (s: State, s': State)
    ensures WellFormed(SmallBlock()) && Reachable(SmallBlock(), s) && !s.aborted && s.pcs == [Validating(1, 1, Begin), Validating(1, 0, Invalid)]
    ensures Shape(SmallBlock(), s) && s.sched.status[1] == TxStatus(1, Executed)
    ensures WorkerStep(SmallBlock(), s, 1, s') && Shape(SmallBlock(), s')
    ensures s'.sched.status[1] == TxStatus(1, Status.Aborting) && HitsAnother(s, s', 1, 0)
  {
    var b := SmallBlock();
    SmallBlockIsWellFormed();
    InitialIsReachable(b, 2);
    s := Prelude(InitialState(b, 2));
    s' := Own(Go(s.(sched := Revoke(s.sched, 1)), 1, Pc.Aborting(1, Converting(s.lastWrite[1]))), 1, Worker(1));
    assert RevokeStep(b, s, 1, s');
  }

  lemma Prelude(s0: State) returns (s: State)
    requires Init(SmallBlock(), s0) && |s0.pcs| == 2
    requires Reachable(SmallBlock(), s0)
    ensures Reachable(SmallBlock(), s)
    ensures Looks(s, Two(TxStatus(0, Validated), TxStatus(1, Executed), 2, 2, 0, 1), Validating(1, 1, Begin), Validating(1, 0, Invalid),
                  READ_WRITTEN.readSet, true)
  {
    var b := SmallBlock();
    SmallBlockIsWellFormed();
    var start := FirstStarts(s0);
    Goes(b, 0, s0, start);
    var s1 := SecondStarts(start);
    Goes(b, 1, start, s1);
    var s2 := SecondExecutes(s1);
    Goes(b, 1, s1, s2);
    var s3 := FirstExecutes(s2);
    Goes(b, 0, s2, s3);
    var s4 := FirstValidated(s3);
    Goes(b, 0, s3, s4);
    var s5 := SecondIsInvalid(s4);
    Goes(b, 1, s4, s5);
    var s6 := FoundAgain(s5);
    Goes(b, 0, s5, s6);
    var s7 := TakenBack(s6);
    Goes(b, 0, s6, s7);
    s := ExecutedAgain(s7);
    Goes(b, 0, s7, s);
  }
}
