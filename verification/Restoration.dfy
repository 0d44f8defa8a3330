/** What makes lazy execution legitimate. A lazy transfer is executed without looking at
    balance or nonce. If the evaluation at the end of the block finds no fault, then the
    block could have been executed one transaction after another, with all checks, and
    the store holds just that. */
module Restoration {
  import opened Types
  import opened LazyBalances
  import opened MultiVersion
  import opened SchedulerSteps
  import opened Engine
  import opened Columns
  import opened Invariant
  import opened Serializability
  import opened Addresses
  import opened Transfers
  import Evaluation = EndOfBlock

  /** What the store of a finished run evaluates to, below every transaction. */
  ghost function StoreState(b: Block, s: State, t: nat): Loc -> Value {
    l => ValueBelow(ColumnOf(s.store, l), Observed(b.stored(l)), t)
  }

  ghost function StoreStates(b: Block, s: State): (r: seq<Loc -> Value>)
    ensures |r| == b.n + 1 && forall t :: 0 <= t <= b.n ==> r[t] == StoreState(b, s, t)
  {
    seq(b.n + 1, t requires 0 <= t => StoreState(b, s, t))
  }

  /** A transfer as the evaluation sees it. */
  function ForEvaluation(tx: Transfer): Evaluation.Tx {
    Evaluation.Tx(tx.caller, tx.nonce, tx.gasLimit, tx.gasPrice, tx.value, None)
  }

  function AllForEvaluation(txs: seq<Transfer>): (r: seq<Evaluation.Tx>)
    ensures |r| == |txs| && forall t :: 0 <= t < |txs| ==> r[t] == ForEvaluation(txs[t])
  {
    seq(|txs|, t requires 0 <= t < |txs| => ForEvaluation(txs[t]))
  }

  /** The evaluation of every lazy address succeeds. */
  ghost predicate EvaluationSucceeds(b: Block, s: State, txs: seq<Transfer>) {
    forall a, t :: a in s.lazyAddresses && t in ColumnOf(s.store, Basic(a)) && t < |txs| ==>
      Evaluation.FaultAt(ColumnOf(s.store, Basic(a)), Observed(b.stored(Basic(a))), AllForEvaluation(txs), a, t).None?
  }

  /** The setting: a finished run over raw transfers, sent by accounts without code, whose
      credits fit. */
  ghost predicate TransfersDone(env: Env, txs: seq<Transfer>, stored: Loc -> Value, s: State) {
    && (forall k :: 0 <= k < |txs| ==> WellPriced(txs[k]))
    && ProperStorage(stored)
    && (forall k :: 0 <= k < |txs| ==> stored(CodeHash(txs[k].caller)) == Code(None))
    && var b := TransferBlock(env, txs, stored);
       Reachable(b, s) && !s.aborted && AllExited(s)
       && Fits(env, txs, StoreStates(b, s)) && NoneDrained(b, StoreStates(b, s))
  }

  /** And one whose evaluation succeeds. */
  ghost predicate FinishedTransfers(env: Env, txs: seq<Transfer>, stored: Loc -> Value, s: State) {
    TransfersDone(env, txs, stored, s) && EvaluationSucceeds(TransferBlock(env, txs, stored), s, txs)
  }

  lemma TransferLazinessIsKnown(env: Env, txs: seq<Transfer>, stored: Loc -> Value)
    requires forall k :: 0 <= k < |txs| ==> WellPriced(txs[k])
    ensures LazinessIsKnown(TransferBlock(env, txs, stored))
  {
    var b := TransferBlock(env, txs, stored);
    forall t: nat, lazy, vs | b.vm(t, lazy, vs).Finish? ensures WrittenLazilyIsKnown(b, t, lazy, b.vm(t, lazy, vs).writes) {
    }
  }

  // ---------- One transaction ----------

  /** Everything is as in the sequential run up to t. */
  ghost predicate RestoredTo(b: Block, s: State, t: nat)
    requires Shape(b, s) && t <= b.n
  {
    var states := StoreStates(b, s);
    && AgreesBelow(b, s, states, t) && HoldsRunsBelow(b, s, states, t)
    && (forall a :: states[t](Basic(a)).Account?)
    && (forall a :: states[t](CodeHash(a)) == Observed(b.stored(CodeHash(a))))
  }

  /** The strict execution of a payable transfer, read off a state. */
  function StrictEvents(tx: Transfer, state: Loc -> Value): seq<Event> {
    var start := [Event(CodeHash(tx.to), state(CodeHash(tx.to))), Event(Basic(tx.caller), state(Basic(tx.caller)))];
    if tx.caller == tx.to then start
    else start + [Event(CodeHash(tx.caller), state(CodeHash(tx.caller))), Event(Basic(tx.to), state(Basic(tx.to)))]
  }

  lemma StrictEventsRun(b: Block, env: Env, tx: Transfer, t: nat, state: Loc -> Value)
    requires WellPriced(tx) && StartsAsTransfer(b, env, tx, t)
    requires state(CodeHash(tx.to)) == Code(None) && state(CodeHash(tx.caller)) == Code(None)
    requires tx.gasLimit * tx.gasPrice + tx.value <= BalanceOf(state(Basic(tx.caller)))
    requires tx.nonce.Some? ==> tx.nonce.value == NonceOf(state(Basic(tx.caller)))
    ensures Runs(b, t, false, state, StrictEvents(tx, state))
  {
    var events := StrictEvents(tx, state);
    var vs := Values(events);
    assert vs[..0] == [] && vs[..1] == [vs[0]] && vs[..2] == [vs[0], vs[1]];
    if tx.caller == tx.to {
      assert vs[..2] == vs;
    } else {
      assert vs[..3] == [vs[0], vs[1], vs[2]];
    }
    forall k | 0 <= k < |events| ensures b.vm(t, false, vs[..k]) == Action.Read(events[k].loc) {
    }
  }

  /** Where the recorded execution was lazy, the evaluation has made up for the checks. */
  lemma EvaluationChecks(env: Env, txs: seq<Transfer>, stored: Loc -> Value, s: State, t: nat)
    requires FinishedTransfers(env, txs, stored, s) && t < |txs|
    requires EntryAt(s.store, Basic(txs[t].caller), t).Some? && EntryAt(s.store, Basic(txs[t].caller), t).value.Data?
    requires EntryAt(s.store, Basic(txs[t].caller), t).value.write.LazySender?
    ensures
      var tx, v := txs[t], StoreState(TransferBlock(env, txs, stored), s, t)(Basic(txs[t].caller));
      && tx.gasLimit * tx.gasPrice + tx.value <= BalanceOf(v)
      && (tx.nonce.Some? ==> tx.nonce.value == NonceOf(v))
  {
    var b, l := TransferBlock(env, txs, stored), Basic(txs[t].caller);
    TransferBlockWellFormed(env, txs, stored);
    TransferLazinessIsKnown(env, txs, stored);
    ReachableInv(b, s);
    ExitedIsAtRest(b, s);
    LazyEntriesAreKnown(b, s, l, t);
    ChecksPass(ColumnOf(s.store, l), Observed(stored(l)), txs, t);
  }

  lemma ChecksPass(c: Column, base: Value, txs: seq<Transfer>, t: nat)
    requires t < |txs| && WellPriced(txs[t]) && t in c && c[t].Data? && c[t].write.LazySender?
    requires Evaluation.FaultAt(c, base, AllForEvaluation(txs), txs[t].caller, t).None?
    ensures txs[t].gasLimit * txs[t].gasPrice + txs[t].value <= BalanceOf(ValueBelow(c, base, t))
    ensures txs[t].nonce.Some? ==> txs[t].nonce.value == NonceOf(ValueBelow(c, base, t))
  {
    var tx := txs[t];
    assert Evaluation.MaxFee(ForEvaluation(tx)) == tx.gasLimit * tx.gasPrice + tx.value;
    assert ValueBelow(c, base, t + 1) == Apply(c[t].write, ValueBelow(c, base, t));
  }

  /** A complete execution of a transfer, with the checks passed if it was lazy, amounts to
      the strict one. */
  lemma RunIsPayable(b: Block, env: Env, tx: Transfer, t: nat, state: Loc -> Value, e: Exec)
    requires WellPriced(tx) && StartsAsTransfer(b, env, tx, t) && Runs(b, t, e.lazy, state, e.events)
    requires state(CodeHash(tx.to)) == Code(None) && state(CodeHash(tx.caller)) == Code(None)
    requires (forall a :: state(Basic(a)).Account?) && Credits(env, tx, state)
    requires e.lazy ==>
      && tx.gasLimit * tx.gasPrice + tx.value <= BalanceOf(state(Basic(tx.caller)))
      && (tx.nonce.Some? ==> tx.nonce.value == NonceOf(state(Basic(tx.caller))))
    ensures Payable(env, tx, state) && ResultBy(b, t, e) == tx.gasUsed
    ensures Runs(b, t, false, state, StrictEvents(tx, state))
    ensures WritesBy(b, t, e) == if e.lazy then LazyWrites(env, tx)
                                 else StrictWrites(env, tx, state(Basic(tx.caller)), state(Basic(tx.to)))
  {
    if e.lazy { LazyRun(b, env, tx, t, state, e.events); } else { StrictRun(b, env, tx, t, state, e.events); }
    StrictEventsRun(b, env, tx, t, state);
  }

  lemma LazyPasses(env: Env, txs: seq<Transfer>, stored: Loc -> Value, s: State, t: nat, state: Loc -> Value, e: Exec)
    requires FinishedTransfers(env, txs, stored, s) && t < |txs| && Shape(TransferBlock(env, txs, stored), s)
    requires state == StoreState(TransferBlock(env, txs, stored), s, t)
    requires Holds(TransferBlock(env, txs, stored), s, t, e)
    requires WritesBy(TransferBlock(env, txs, stored), t, e) == LazyWrites(env, txs[t])
    ensures txs[t].gasLimit * txs[t].gasPrice + txs[t].value <= BalanceOf(state(Basic(txs[t].caller)))
    ensures txs[t].nonce.Some? ==> txs[t].nonce.value == NonceOf(state(Basic(txs[t].caller)))
  {
    SendsLazily(env, txs[t]);
    EvaluationChecks(env, txs, stored, s, t);
  }

  lemma SendsLazily(env: Env, tx: Transfer)
    requires WellPriced(tx)
    ensures Basic(tx.caller) in LazyWrites(env, tx) && LazyWrites(env, tx)[Basic(tx.caller)].LazySender?
  {
  }

  /** What is known of a restored state. */
  lemma RestoredState(env: Env, txs: seq<Transfer>, stored: Loc -> Value, s: State, t: nat)
    requires FinishedTransfers(env, txs, stored, s) && t < |txs| && Shape(TransferBlock(env, txs, stored), s)
    requires RestoredTo(TransferBlock(env, txs, stored), s, t)
    ensures
      var state := StoreState(TransferBlock(env, txs, stored), s, t);
      && state(CodeHash(txs[t].caller)) == Code(None) && (forall a :: state(Basic(a)).Account?) && Credits(env, txs[t], state)
  {
    var b := TransferBlock(env, txs, stored);
    assert StoreState(b, s, t) == StoreStates(b, s)[t];
    assert Credits(env, txs[t], StoreStates(b, s)[t]);
  }

  /** The recorded execution of t is a sequential step between the states of the store. */
  lemma RecordedIsSequential(env: Env, txs: seq<Transfer>, stored: Loc -> Value, s: State, t: nat, state: Loc -> Value, e: Exec)
    requires FinishedTransfers(env, txs, stored, s) && t < |txs| && Shape(TransferBlock(env, txs, stored), s)
    requires RestoredTo(TransferBlock(env, txs, stored), s, t) && state == StoreState(TransferBlock(env, txs, stored), s, t)
    requires Runs(TransferBlock(env, txs, stored), t, e.lazy, state, e.events) && Holds(TransferBlock(env, txs, stored), s, t, e)
    ensures
      var b := TransferBlock(env, txs, stored);
      && Payable(env, txs[t], state) && ResultBy(b, t, e) == txs[t].gasUsed
      && state(CodeHash(txs[t].to)) == Code(None)
      && Runs(b, t, false, state, StrictEvents(txs[t], state))
      && WritesBy(b, t, e) == if e.lazy then LazyWrites(env, txs[t])
                              else StrictWrites(env, txs[t], state(Basic(txs[t].caller)), state(Basic(txs[t].to)))
  {
    RestoredState(env, txs, stored, s, t);
    RunIsRaw(env, txs, stored, t, e.lazy, state, e.events);
    TransferStarts(env, txs, stored, t);
    if e.lazy {
      LazyRun(TransferBlock(env, txs, stored), env, txs[t], t, state, e.events);
      LazyPasses(env, txs, stored, s, t, state, e);
    }
    RunIsPayable(TransferBlock(env, txs, stored), env, txs[t], t, state, e);
  }

  /** The state of the store after t is its state before with the writes of t. */
  lemma StoreMovesOn(b: Block, s: State, t: nat, next: nat, e: Exec)
    requires Shape(b, s) && t < b.n && next == t + 1 && Holds(b, s, t, e)
    ensures forall l :: StoreState(b, s, next)(l) == After(StoreState(b, s, t), WritesBy(b, t, e), l)
  {
    forall l ensures StoreState(b, s, next)(l) == After(StoreState(b, s, t), WritesBy(b, t, e), l) {
      var c := ColumnOf(s.store, l);
      assert EntryAt(s.store, l, t) == if l in WritesBy(b, t, e) then Some(Data(s.sched.status[t].incarnation, WritesBy(b, t, e)[l])) else None;
      assert t in c <==> EntryAt(s.store, l, t).Some?;
      assert ValueBelow(c, Observed(b.stored(l)), next) ==
             if t in c && c[t].Data? then Apply(c[t].write, ValueBelow(c, Observed(b.stored(l)), t)) else ValueBelow(c, Observed(b.stored(l)), t);
    }
  }

  /** Payable and one of the two ways of writing it down: a transfer, in range. */
  lemma TransferMoves(env: Env, tx: Transfer, state: Loc -> Value, after: Loc -> Value, lazy: bool, writes: map<Loc, Write>)
    requires WellPriced(tx) && Payable(env, tx, state)
    requires writes == if lazy then LazyWrites(env, tx) else StrictWrites(env, tx, state(Basic(tx.caller)), state(Basic(tx.to)))
    requires forall l :: after(l) == After(state, writes, l)
    ensures forall l :: after(l) == After(state, StrictWrites(env, tx, state(Basic(tx.caller)), state(Basic(tx.to))), l)
    ensures forall l :: l in writes ==> InRange(writes[l], state(l))
    ensures forall a :: after(Basic(a)).Account? && after(CodeHash(a)) == state(CodeHash(a))
  {
    forall l
      ensures after(l) == After(state, StrictWrites(env, tx, state(Basic(tx.caller)), state(Basic(tx.to))), l)
      ensures l in writes ==> InRange(writes[l], state(l))
      ensures IsTransferred(env, tx, state, l, after(l))
    {
      LazyOrStrict(env, tx, state, l);
      LazyIsTransfer(env, tx, state, l);
      StrictIsTransfer(env, tx, state, l);
    }
    forall a ensures after(Basic(a)).Account? && after(CodeHash(a)) == state(CodeHash(a)) {
      assert IsTransferred(env, tx, state, Basic(a), after(Basic(a)));
      assert IsTransferred(env, tx, state, CodeHash(a), after(CodeHash(a)));
    }
  }

  lemma StepFrom(b: Block, env: Env, tx: Transfer, t: nat, state: Loc -> Value, after: Loc -> Value)
    requires WellPriced(tx) && StartsAsTransfer(b, env, tx, t) && state(CodeHash(tx.to)) == Code(None)
    requires Runs(b, t, false, state, StrictEvents(tx, state))
    requires forall l :: after(l) == After(state, StrictWrites(env, tx, state(Basic(tx.caller)), state(Basic(tx.to))), l)
    ensures SequentialStep(b, t, state, after, tx.gasUsed)
  {
    StrictRun(b, env, tx, t, state, StrictEvents(tx, state));
  }

  /** The engine's t-th step is a sequential one. */
  ghost predicate StepRestored(b: Block, s: State, t: nat, next: nat, gas: nat)
    requires Shape(b, s) && t < b.n
  {
    SequentialStep(b, t, StoreState(b, s, t), StoreState(b, s, next), gas) && s.results[t] == Some(gas)
  }

  /** A transfer on the state of the store leads to the next state of the store. */
  lemma StoreTransfers(b: Block, env: Env, tx: Transfer, s: State, t: nat, next: nat, e: Exec)
    requires Shape(b, s) && t < b.n && next == t + 1 && Holds(b, s, t, e) && WellPriced(tx) && Payable(env, tx, StoreState(b, s, t))
    requires
      var state := StoreState(b, s, t);
      WritesBy(b, t, e) == if e.lazy then LazyWrites(env, tx) else StrictWrites(env, tx, state(Basic(tx.caller)), state(Basic(tx.to)))
    ensures
      var state, after := StoreState(b, s, t), StoreState(b, s, next);
      && (forall l :: after(l) == After(state, WritesBy(b, t, e), l))
      && (forall l :: after(l) == After(state, StrictWrites(env, tx, state(Basic(tx.caller)), state(Basic(tx.to))), l))
      && WritesInRange(b, t, e, state)
      && (forall a :: after(Basic(a)).Account? && after(CodeHash(a)) == state(CodeHash(a)))
  {
    StoreMovesOn(b, s, t, next, e);
    TransferMoves(env, tx, StoreState(b, s, t), StoreState(b, s, next), e.lazy, WritesBy(b, t, e));
    forall l ensures WriteInRange(b, t, e, StoreState(b, s, t), l) {}
  }

  lemma AgreesAndHolds(b: Block, s: State, t: nat, next: nat, e: Exec)
    requires Shape(b, s) && t < b.n && next == t + 1 && RestoredTo(b, s, t) && Holds(b, s, t, e)
    requires Runs(b, t, e.lazy, StoreState(b, s, t), e.events)
    requires forall l :: StoreState(b, s, next)(l) == After(StoreState(b, s, t), WritesBy(b, t, e), l)
    requires WritesInRange(b, t, e, StoreState(b, s, t))
    ensures AgreesBelow(b, s, StoreStates(b, s), next) && HoldsRunsBelow(b, s, StoreStates(b, s), next)
  {
    var states := StoreStates(b, s);
    assert states[t] == StoreState(b, s, t) && states[next] == StoreState(b, s, next);
    AgreesOneMore(b, s, states, t, next, e);
    assert HoldsRun(b, s, states, t);
  }

  lemma OneMoreRestored(b: Block, env: Env, tx: Transfer, s: State, t: nat, next: nat, e: Exec)
    requires Shape(b, s) && t < b.n && next == t + 1 && RestoredTo(b, s, t) && Holds(b, s, t, e)
    requires Runs(b, t, e.lazy, StoreState(b, s, t), e.events)
    requires WellPriced(tx) && StartsAsTransfer(b, env, tx, t) && Payable(env, tx, StoreState(b, s, t))
    requires StoreState(b, s, t)(CodeHash(tx.to)) == Code(None) && ResultBy(b, t, e) == tx.gasUsed
    requires Runs(b, t, false, StoreState(b, s, t), StrictEvents(tx, StoreState(b, s, t)))
    requires
      var state := StoreState(b, s, t);
      WritesBy(b, t, e) == if e.lazy then LazyWrites(env, tx) else StrictWrites(env, tx, state(Basic(tx.caller)), state(Basic(tx.to)))
    ensures RestoredTo(b, s, next) && StepRestored(b, s, t, next, tx.gasUsed)
  {
    StoreTransfers(b, env, tx, s, t, next, e);
    StepFrom(b, env, tx, t, StoreState(b, s, t), StoreState(b, s, next));
    AgreesAndHolds(b, s, t, next, e);
    assert StoreStates(b, s)[t] == StoreState(b, s, t) && StoreStates(b, s)[next] == StoreState(b, s, next);
  }

  lemma FinishedRecord(env: Env, txs: seq<Transfer>, stored: Loc -> Value, s: State, t: nat) returns (e: Exec)
    requires FinishedTransfers(env, txs, stored, s) && t < |txs| && Shape(TransferBlock(env, txs, stored), s)
    requires RestoredTo(TransferBlock(env, txs, stored), s, t)
    ensures
      var b := TransferBlock(env, txs, stored);
      Runs(b, t, e.lazy, StoreState(b, s, t), e.events) && Holds(b, s, t, e)
  {
    var b := TransferBlock(env, txs, stored);
    TransferBlockWellFormed(env, txs, stored);
    ReachableInv(b, s);
    ExitedIsAtRest(b, s);
    AtRestIsSettled(b, s);
    e := RecordedRuns(b, s, StoreStates(b, s), b.n, t);
  }

  lemma NextRestored(env: Env, txs: seq<Transfer>, stored: Loc -> Value, s: State, t: nat, next: nat)
    requires FinishedTransfers(env, txs, stored, s) && t < |txs| && next == t + 1 && Shape(TransferBlock(env, txs, stored), s)
    requires RestoredTo(TransferBlock(env, txs, stored), s, t)
    ensures RestoredTo(TransferBlock(env, txs, stored), s, next)
    ensures StepRestored(TransferBlock(env, txs, stored), s, t, next, txs[t].gasUsed)
  {
    var b := TransferBlock(env, txs, stored);
    var e := FinishedRecord(env, txs, stored, s, t);
    RecordedIsSequential(env, txs, stored, s, t, StoreState(b, s, t), e);
    TransferStarts(env, txs, stored, t);
    OneMoreRestored(b, env, txs[t], s, t, next, e);
  }

  lemma NothingRestored(b: Block, s: State)
    requires WellFormed(b) && Shape(b, s)
    ensures RestoredTo(b, s, 0)
  {
    var states := StoreStates(b, s);
    assert states[0] == StoreState(b, s, 0);
    forall l ensures LocationAgrees(b, s, states, l, 0) {}
  }

  /** From a state restored up to t the next transaction can be restored. */
  ghost predicate GoesOn(b: Block, s: State, gas: seq<nat>, t: nat, next: nat)
    requires Shape(b, s) && |gas| == b.n && t < next <= b.n
  {
    RestoredTo(b, s, t) ==> RestoredTo(b, s, next) && StepRestored(b, s, t, next, gas[t])
  }

  lemma {:induction false} AllRestored(b: Block, s: State, gas: seq<nat>, t: nat, u: nat, next: nat)
    requires WellFormed(b) && Shape(b, s) && |gas| == b.n && t <= b.n
    requires forall u: nat, next: nat :: u < b.n && next == u + 1 ==> GoesOn(b, s, gas, u, next)
    ensures RestoredTo(b, s, t)
    ensures u < t && next == u + 1 ==> StepRestored(b, s, u, next, gas[u])
  {
    if t == 0 {
      NothingRestored(b, s);
    } else {
      var p: nat := t - 1;
      AllRestored(b, s, gas, p, u, next);
      assert GoesOn(b, s, gas, p, t);
    }
  }

  lemma StepsAreSequential(b: Block, s: State, results: seq<nat>)
    requires Shape(b, s) && |results| == b.n
    requires forall u: nat, next: nat :: u < b.n && next == u + 1 ==> StepRestored(b, s, u, next, results[u])
    ensures Sequential(b, StoreStates(b, s), results)
    ensures s.results == seq(b.n, t requires 0 <= t < b.n => Some(results[t]))
  {
    var states := StoreStates(b, s);
    forall t | 0 <= t < b.n
      ensures SequentialStep(b, t, states[t], states[t + 1], results[t]) && s.results[t] == Some(results[t])
    {
      var next: nat := t + 1;
      assert StepRestored(b, s, t, next, results[t]);
      assert states[t] == StoreState(b, s, t) && states[next] == StoreState(b, s, next);
    }
    assert states[0] == StoreState(b, s, 0);
  }

  /** No sequential execution is assumed here: after a finished run over raw transfers whose
      evaluation finds no fault there is one, checks and all, and the states and results
      of the engine are its states and results. */
  lemma EvaluationRestoresSequential(env: Env, txs: seq<Transfer>, stored: Loc -> Value, s: State, results: seq<nat>)
    requires FinishedTransfers(env, txs, stored, s)
    requires results == seq(|txs|, t requires 0 <= t < |txs| => txs[t].gasUsed)
    ensures
      var b := TransferBlock(env, txs, stored);
      && Sequential(b, StoreStates(b, s), results)
      && s.results == seq(b.n, t requires 0 <= t < b.n => Some(results[t]))
  {
    var b := TransferBlock(env, txs, stored);
    FinishedShape(env, txs, stored, s);
    TransferBlockWellFormed(env, txs, stored);
    forall u: nat, next: nat | u < b.n && next == u + 1 ensures GoesOn(b, s, results, u, next) {
      if RestoredTo(b, s, u) { NextRestored(env, txs, stored, s, u, next); }
    }
    forall u: nat, next: nat | u < b.n && next == u + 1 ensures StepRestored(b, s, u, next, results[u]) {
      AllRestored(b, s, results, b.n, u, next);
    }
    StepsAreSequential(b, s, results);
  }

  lemma FinishedShape(env: Env, txs: seq<Transfer>, stored: Loc -> Value, s: State)
    requires FinishedTransfers(env, txs, stored, s)
    ensures Shape(TransferBlock(env, txs, stored), s)
  {
    TransferBlockWellFormed(env, txs, stored);
    ReachableInv(TransferBlock(env, txs, stored), s);
  }

  // ---------- The converse ----------

  /** A sequential raw transfer ran with the nonce it named. */
  lemma SequentialNonce(b: Block, env: Env, tx: Transfer, t: nat, state: Loc -> Value, after: Loc -> Value, result: nat)
    requires WellPriced(tx) && StartsAsTransfer(b, env, tx, t) && state(CodeHash(tx.to)) == Code(None)
    requires SequentialStep(b, t, state, after, result)
    ensures tx.nonce.Some? ==> tx.nonce.value == NonceOf(state(Basic(tx.caller)))
  {
    var events :|
      && Runs(b, t, false, state, events)
      && b.vm(t, false, Values(events)).result == result
      && forall l :: after(l) == After(state, b.vm(t, false, Values(events)).writes, l);
    StrictRun(b, env, tx, t, state, events);
  }

  /** Nobody but the sender of a transfer is written as a lazy sender. */
  lemma OnlyTheCallerSends(env: Env, tx: Transfer, lazy: bool, sender: Value, recipient: Value, a: nat)
    requires WellPriced(tx)
    ensures
      var writes := if lazy then LazyWrites(env, tx) else StrictWrites(env, tx, sender, recipient);
      Basic(a) in writes && writes[Basic(a)].LazySender? ==> a == tx.caller
  {
  }

  lemma LazySenderIsTheCaller(env: Env, txs: seq<Transfer>, stored: Loc -> Value, s: State, states: seq<Loc -> Value>, a: nat, t: nat)
    requires (forall k :: 0 <= k < |txs| ==> WellPriced(txs[k])) && t < |txs| && |states| == |txs| + 1
    requires Shape(TransferBlock(env, txs, stored), s) && HoldsRun(TransferBlock(env, txs, stored), s, states, t)
    requires
      var entry := EntryAt(s.store, Basic(a), t);
      entry.Some? && entry.value.Data? && entry.value.write.LazySender?
    ensures a == txs[t].caller
  {
    var b := TransferBlock(env, txs, stored);
    var e: Exec :| Runs(b, t, e.lazy, states[t], e.events) && Holds(b, s, t, e);
    assert Basic(a) in WritesBy(b, t, e) && WritesBy(b, t, e)[Basic(a)].LazySender?;
    RunIsRaw(env, txs, stored, t, e.lazy, states[t], e.events);
    TransferStarts(env, txs, stored, t);
    if e.lazy { LazyRun(b, env, txs[t], t, states[t], e.events); } else { StrictRun(b, env, txs[t], t, states[t], e.events); }
    OnlyTheCallerSends(env, txs[t], e.lazy, states[t](Basic(txs[t].caller)), states[t](Basic(txs[t].to)), a);
  }

  /** What the evaluation finds at an entry of a transfer that passed all checks. */
  lemma CheckedIsSound(c: Column, base: Value, txs: seq<Transfer>, a: nat, t: nat)
    requires t < |txs| && WellPriced(txs[t]) && t in c
    requires Evaluation.FaultAt(c, base, AllForEvaluation(txs), a, t) != Some(Evaluation.Panic)
    requires c[t].Data? && c[t].write.LazySender? ==> a == txs[t].caller
    requires a == txs[t].caller ==>
      && txs[t].gasLimit * txs[t].gasPrice + txs[t].value <= BalanceOf(ValueBelow(c, base, t))
      && (txs[t].nonce.Some? ==> NonceOf(ValueBelow(c, base, t + 1)) == txs[t].nonce.value + 1)
    ensures Evaluation.FaultAt(c, base, AllForEvaluation(txs), a, t).None?
  {
    Evaluation.FaultsAreExact(c, base, AllForEvaluation(txs), a, t);
    Evaluation.SoundIffChecked(c, base, AllForEvaluation(txs), a, t);
    Evaluation.MaxFeeIsTheWorstCase(ForEvaluation(txs[t]));
  }

  /** What holds of the states holds of the store below t and after it. */
  lemma SenderWasChecked(env: Env, txs: seq<Transfer>, stored: Loc -> Value, states: seq<Loc -> Value>, results: seq<nat>, t: nat, next: nat)
    requires (forall k :: 0 <= k < |txs| ==> WellPriced(txs[k])) && ProperStorage(stored) && t < |txs| && next == t + 1
    requires Sequential(TransferBlock(env, txs, stored), states, results) && Fits(env, txs, states)
    ensures
      var tx, l := txs[t], Basic(txs[t].caller);
      && tx.gasLimit * tx.gasPrice + tx.value <= BalanceOf(states[t](l))
      && (tx.nonce.Some? ==> NonceOf(states[next](l)) == tx.nonce.value + 1)
  {
    var b := TransferBlock(env, txs, stored);
    TransferStep(env, txs, stored, states, results, t, next);
    SequentialIsRaw(env, txs, stored, states, results, t);
    StepOf(b, states, results, t, next);
    TransferStarts(env, txs, stored, t);
    SequentialNonce(b, env, txs[t], t, states[t], states[next], results[t]);
    assert IsTransferred(env, txs[t], states[t], Basic(txs[t].caller), states[next](Basic(txs[t].caller)));
  }

  /** After a finished run the store and the runs in it are the sequential ones. */
  lemma SerialRunsAreHeld(b: Block, s: State, states: seq<Loc -> Value>, results: seq<nat>, t: nat)
    requires WellFormed(b) && Reachable(b, s) && !s.aborted && AllExited(s) && Serial(b, states, results) && t < b.n
    ensures Shape(b, s) && HoldsRun(b, s, states, t)
  {
    ReachableInv(b, s);
    ExitedIsAtRest(b, s);
    AtRestIsSettled(b, s);
    AgreesInPrefix(b, s, states, results, b.n, b.n);
  }

  /** A block of transfers that can be executed one after another, with all checks, is
      evaluated without a fault, at every address: the checks that come late turn nobody
      away. In particular a sender may hold exactly the maximal fee. */
  lemma SequentialPassesEvaluation(env: Env, txs: seq<Transfer>, stored: Loc -> Value, states: seq<Loc -> Value>, results: seq<nat>,
                                   s: State, a: nat, t: nat)
    requires (forall k :: 0 <= k < |txs| ==> WellPriced(txs[k])) && ProperStorage(stored)
    requires Sequential(TransferBlock(env, txs, stored), states, results) && Fits(env, txs, states)
    requires NoneDrained(TransferBlock(env, txs, stored), states)
    requires Reachable(TransferBlock(env, txs, stored), s) && !s.aborted && AllExited(s)
    requires t < |txs| && t in ColumnOf(s.store, Basic(a))
    ensures Evaluation.FaultAt(ColumnOf(s.store, Basic(a)), Observed(stored(Basic(a))), AllForEvaluation(txs), a, t).None?
  {
    var b, c := TransferBlock(env, txs, stored), ColumnOf(s.store, Basic(a));
    TransferBlockWellFormed(env, txs, stored);
    TransferBlockIsSerial(env, txs, stored, states, results);
    FinishedRunIsSerial(b, s, states, results);
    SerialRunsAreHeld(b, s, states, results, t);
    Evaluation.NoPanicAtTheEnd(b, s, AllForEvaluation(txs), a, t);
    if c[t].Data? && c[t].write.LazySender? {
      LazySenderIsTheCaller(env, txs, stored, s, states, a, t);
    }
    SenderWasChecked(env, txs, stored, states, results, t, t + 1);
    CheckedIsSound(c, Observed(stored(Basic(a))), txs, a, t);
  }

  /** So the evaluation decides: it succeeds exactly if what the workers have left behind is
      a sequential execution. */
  lemma EvaluationDecides(env: Env, txs: seq<Transfer>, stored: Loc -> Value, s: State)
    requires TransfersDone(env, txs, stored, s)
    ensures
      var b := TransferBlock(env, txs, stored);
      EvaluationSucceeds(b, s, txs) <==> exists results :: Sequential(b, StoreStates(b, s), results)
  {
    var b := TransferBlock(env, txs, stored);
    if EvaluationSucceeds(b, s, txs) {
      EvaluationRestoresSequential(env, txs, stored, s, seq(|txs|, t requires 0 <= t < |txs| => txs[t].gasUsed));
    }
    if results :| Sequential(b, StoreStates(b, s), results) {
      forall a, t | a in s.lazyAddresses && t in ColumnOf(s.store, Basic(a)) && t < |txs|
        ensures Evaluation.FaultAt(ColumnOf(s.store, Basic(a)), Observed(b.stored(Basic(a))), AllForEvaluation(txs), a, t).None?
      {
        SequentialPassesEvaluation(env, txs, stored, StoreStates(b, s), results, s, a, t);
      }
    }
  }
}
