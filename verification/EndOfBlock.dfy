/** The end of a block: every account that took lazy updates is evaluated, forwards, and
    the checks that lazy execution skipped are made up for. */
module EndOfBlock {
  import opened Arithmetic
  import opened Types
  import opened LazyBalances
  import opened MultiVersion
  import opened SchedulerSteps
  import opened Engine
  import opened Columns
  import opened Invariant
  import opened Serializability

  /** What the evaluation needs to know of a transaction. */
  datatype Tx = Tx(caller: nat, nonce: Option<nat>, gasLimit: U256, gasPrice: U256, value: U256, blob: Option<(U256, U256)>)

  function SaturatingMul(a: U256, b: U256): U256 {
    if a * b < TWO_TO_THE_256 then a * b else MAX_U256
  }

  /** The balance a sender must have before its transaction. */
  function MaxFee(tx: Tx): U256 {
    var plain := SaturatingAdd(SaturatingMul(tx.gasLimit, tx.gasPrice), tx.value);
    match tx.blob
    case None => plain
    case Some(blob) => SaturatingAdd(plain, SaturatingMul(blob.0, blob.1))
  }

  datatype Fault =
    | Panic
    | LackOfFunds(balance: U256, fee: U256)
    | NoNonce
    | NonceMismatch(expected: nat, executed: nat)

  datatype Evaluation = Evaluated(accounts: map<nat, Option<(U256, nat)>>) | Failed(tx: nat, fault: Fault)

  /** The product of gas and price, plus the value, plus the product of blob gas and blob
      fee: what the sender has to pay at worst, or the largest balance if that is more. */
  lemma MaxFeeIsTheWorstCase(tx: Tx)
    ensures
      var worst := tx.gasLimit * tx.gasPrice + tx.value + (if tx.blob.Some? then tx.blob.value.0 * tx.blob.value.1 else 0);
      MaxFee(tx) == if worst < TWO_TO_THE_256 then worst else TWO_TO_THE_256 - 1
  {
    ProductGrows(0, tx.gasLimit, tx.gasPrice);
    if tx.blob.Some? { ProductGrows(0, tx.blob.value.0, tx.blob.value.1); }
  }

  /** What a result shows of this account: an empty one is dropped, if empty ones are. */
  predicate IsShown(v: Value, dropEmpty: bool, shown: Option<(U256, nat)>) {
    && (shown.None? <==> dropEmpty && BalanceOf(v) == 0 && NonceOf(v) == 0)
    && (shown.Some? ==> shown.value == (BalanceOf(v), NonceOf(v)))
  }

  /** What is wrong with the entry of t, on top of the value below it. */
  function FaultAt(c: Column, base: Value, txs: seq<Tx>, address: nat, t: nat): Option<Fault>
    requires t in c && t < |txs|
  {
    var below, after := ValueBelow(c, base, t), ValueBelow(c, base, t + 1);
    if c[t].Estimate? || (c[t].write.Strict? && !c[t].write.value.Account?) then Some(Panic)
    else if c[t].write.LazySender? && BalanceOf(below) < MaxFee(txs[t]) then Some(LackOfFunds(BalanceOf(below), MaxFee(txs[t])))
    else if txs[t].caller == address && txs[t].nonce.Some? then
      if NonceOf(after) == 0 then Some(NoNonce)
      else if txs[t].nonce.value != NonceOf(after) - 1 then Some(NonceMismatch(txs[t].nonce.value, NonceOf(after) - 1))
      else None
    else None
  }

  /** An entry is sound exactly if it is a balance, its lazy sender could pay the worst case,
      and the account has, if it sent the transaction, run it with the nonce it named. */
  lemma SoundIffChecked(c: Column, base: Value, txs: seq<Tx>, address: nat, t: nat)
    requires t in c && t < |txs|
    ensures
      var below, after := ValueBelow(c, base, t), ValueBelow(c, base, t + 1);
      FaultAt(c, base, txs, address, t).None? <==>
        && c[t].Data? && (c[t].write.Strict? ==> c[t].write.value.Account?)
        && (c[t].write.LazySender? ==> MaxFee(txs[t]) <= BalanceOf(below))
        && (txs[t].caller == address && txs[t].nonce.Some? ==> NonceOf(after) == txs[t].nonce.value + 1)
  {
  }

  /** The faults, by the entry that has them, and the numbers they carry. Funds are looked
      at before nonces, and the nonce of a lazy sender is the one below it. */
  lemma FaultsAreExact(c: Column, base: Value, txs: seq<Tx>, address: nat, t: nat)
    requires t in c && t < |txs|
    ensures
      var tx, below, fault := txs[t], ValueBelow(c, base, t), FaultAt(c, base, txs, address, t);
      var named := tx.caller == address && tx.nonce.Some?;
      && (c[t].Estimate? ==> fault == Some(Panic))
      && (c[t].Data? && c[t].write.Strict? && !c[t].write.value.Account? ==> fault == Some(Panic))
      && (c[t].Data? && c[t].write.Strict? && c[t].write.value.Account? && named ==>
            var n := c[t].write.value.nonce;
            && (n == 0 ==> fault == Some(NoNonce))
            && (n > 0 && n != tx.nonce.value + 1 ==> fault == Some(NonceMismatch(tx.nonce.value, n - 1))))
      && (c[t].Data? && c[t].write.LazySender? ==>
            if BalanceOf(below) < MaxFee(tx) then fault == Some(LackOfFunds(BalanceOf(below), MaxFee(tx)))
            else named && tx.nonce.value != NonceOf(below) ==> fault == Some(NonceMismatch(tx.nonce.value, NonceOf(below))))
      && (c[t].Data? && c[t].write.LazyRecipient? && named ==>
            && (NonceOf(below) == 0 ==> fault == Some(NoNonce))
            && (NonceOf(below) > 0 && NonceOf(below) != tx.nonce.value + 1 ==>
                  fault == Some(NonceMismatch(tx.nonce.value, NonceOf(below) - 1))))
  {
    assert c[t].Data? ==> ValueBelow(c, base, t + 1) == Apply(c[t].write, ValueBelow(c, base, t));
  }

  /** No entry below t. */
  predicate NothingBelow(c: Column, t: nat) {
    forall j: nat :: j in c ==> t <= j
  }

  lemma {:induction false} ValueBelowFirst(c: Column, base: Value, t: nat)
    requires NothingBelow(c, t)
    ensures ValueBelow(c, base, t) == base
  {
    if t > 0 { ValueBelowFirst(c, base, t - 1); }
  }

  /** One entry: the balance and nonce move on, or the entry is at fault. */
  method EvaluateEntry(c: Column, ghost base: Value, txs: seq<Tx>, address: nat, t: nat, balance: U256, nonce: nat)
    returns (fault: Option<Fault>, balance': U256, nonce': nat)
    requires t in c && t < |txs|
    requires ValueBelow(c, base, t) == Account(balance, nonce) || (c[t].Data? && c[t].write.Strict?)
    ensures fault == FaultAt(c, base, txs, address, t)
    ensures fault.None? ==> ValueBelow(c, base, t + 1) == Account(balance', nonce')
  {
    balance', nonce' := balance, nonce;
    match c[t] {
      case Data(_, Strict(Account(b, n))) =>
        balance', nonce' := b, n;
      case Data(_, LazyRecipient(addition)) =>
        balance' := SaturatingAdd(balance, addition);
      case Data(_, LazySender(subtraction)) =>
        if balance < MaxFee(txs[t]) {
          fault := Some(LackOfFunds(balance, MaxFee(txs[t])));
          return;
        }
        balance', nonce' := SaturatingSub(balance, subtraction), nonce + 1;
      case _ =>
        fault := Some(Panic);
        return;
    }
    fault := None;
    if txs[t].caller == address && txs[t].nonce.Some? {
      if nonce' == 0 {
        fault := Some(NoNonce);
      } else if txs[t].nonce.value != nonce' - 1 {
        fault := Some(NonceMismatch(txs[t].nonce.value, nonce' - 1));
      }
    }
  }

  ghost predicate EvaluatedUpTo(c: Column, base: Value, txs: seq<Tx>, address: nat, dropEmpty: bool, t: nat,
                                accounts: map<nat, Option<(U256, nat)>>)
    requires forall j :: j in c ==> j < |txs|
  {
    && (forall j :: j in accounts <==> j in c && j < t)
    && (forall j :: j in accounts ==> IsShown(ValueBelow(c, base, j + 1), dropEmpty, accounts[j]))
    && (forall j :: j in c && j < t ==> FaultAt(c, base, txs, address, j).None?)
  }

  /** Past an index without an entry, or past one that was shown. */
  lemma EvaluatedOneMore(c: Column, base: Value, txs: seq<Tx>, address: nat, dropEmpty: bool, t: nat,
                         accounts: map<nat, Option<(U256, nat)>>, more: map<nat, Option<(U256, nat)>>)
    requires forall j :: j in c ==> j < |txs|
    requires EvaluatedUpTo(c, base, txs, address, dropEmpty, t, accounts)
    requires t !in c ==> more == accounts
    requires t in c ==> FaultAt(c, base, txs, address, t).None? && t in more && more == accounts[t := more[t]]
                        && IsShown(ValueBelow(c, base, t + 1), dropEmpty, more[t])
    ensures EvaluatedUpTo(c, base, txs, address, dropEmpty, t + 1, more)
  {
  }

  /** What the account starts from at its first entry. */
  method StartAt(c: Column, stored: Value, t: nat) returns (balance: U256, nonce: nat)
    requires t in c && NothingBelow(c, t) && (stored.Account? || stored.Absent?)
    ensures ValueBelow(c, Observed(stored), t) == Account(balance, nonce) || (c[t].Data? && c[t].write.Strict?)
  {
    ValueBelowFirst(c, Observed(stored), t);
    balance, nonce := 0, 0;
    if !(c[t].Data? && c[t].write.Strict?) && stored.Account? {
      balance, nonce := stored.balance, stored.nonce;
    }
  }

  /** Evaluate one account. The storage is consulted only if the first entry needs it. The
      account shown after each transaction is the value of the chain up to it, or else
      the first faulty entry is reported. */
  method Evaluate(c: Column, stored: Value, txs: seq<Tx>, address: nat, dropEmpty: bool) returns (r: Evaluation)
    requires stored.Account? || stored.Absent?
    requires forall j :: j in c ==> j < |txs|
    ensures r.Evaluated? ==> EvaluatedUpTo(c, Observed(stored), txs, address, dropEmpty, |txs|, r.accounts)
    ensures r.Evaluated? ==>
      && r.accounts.Keys == c.Keys
      && forall j :: j in r.accounts ==>
           var v := ValueBelow(c, Observed(stored), j + 1);
           && (r.accounts[j].None? <==> dropEmpty && BalanceOf(v) == 0 && NonceOf(v) == 0)
           && (r.accounts[j].Some? ==> r.accounts[j].value == (BalanceOf(v), NonceOf(v)))
    ensures r.Failed? ==>
      && r.tx in c && FaultAt(c, Observed(stored), txs, address, r.tx) == Some(r.fault)
      && forall j :: j in c && j < r.tx ==> FaultAt(c, Observed(stored), txs, address, j).None?
  {
    var balance: U256, nonce: nat, started := 0, 0, false;
    var accounts: map<nat, Option<(U256, nat)>> := map[];
    ghost var base := Observed(stored);
    for t := 0 to |txs|
      invariant started <==> !NothingBelow(c, t)
      invariant started ==> ValueBelow(c, base, t) == Account(balance, nonce)
      invariant EvaluatedUpTo(c, base, txs, address, dropEmpty, t, accounts)
    {
      ghost var before := accounts;
      if t in c {
        if !started {
          balance, nonce := StartAt(c, stored, t);
          started := true;
        }
        var fault;
        fault, balance, nonce := EvaluateEntry(c, base, txs, address, t, balance, nonce);
        if fault.Some? {
          return Failed(t, fault.value);
        }
        accounts := accounts[t := if dropEmpty && nonce == 0 && balance == 0 then None else Some((balance, nonce))];
      }
      EvaluatedOneMore(c, base, txs, address, dropEmpty, t, before, accounts);
    }
    return Evaluated(accounts);
  }

  // ---------- What the evaluation is worth ----------

  /** Lazy execution never checks a balance. The check made here does: where it passes,
      and a sender gives no more than its maximal fee, no sender is overdrawn. */
  lemma EvaluationFundsSenders(c: Column, base: Value, txs: seq<Tx>, address: nat, t: nat)
    requires t in c && t < |txs| && FaultAt(c, base, txs, address, t).None?
    requires c[t].Data? && c[t].write.LazySender? && c[t].write.amount <= MaxFee(txs[t])
    ensures InRange(c[t].write, ValueBelow(c, base, t))
    ensures NonceOf(ValueBelow(c, base, t + 1)) == NonceOf(ValueBelow(c, base, t)) + 1
  {
  }

  /** The evaluation runs when all workers have left, and then it cannot panic. */
  lemma NoPanicAtTheEnd(b: Block, s: State, txs: seq<Tx>, address: nat, t: nat)
    requires WellFormed(b) && Reachable(b, s) && !s.aborted && AllExited(s) && |txs| == b.n
    requires t in ColumnOf(s.store, Basic(address)) && t < b.n
    ensures FaultAt(ColumnOf(s.store, Basic(address)), Observed(b.stored(Basic(address))), txs, address, t) != Some(Panic)
  {
    var l := Basic(address);
    ReachableInv(b, s);
    ExitedIsAtRest(b, s);
    AtRestNoEstimates(b, s, l, t);
    assert EntryAt(s.store, l, t) == Some(ColumnOf(s.store, l)[t]);
    if ColumnOf(s.store, l)[t].write.Strict? {
      AccountColumn(b, s, address, t);
    }
  }

  /** Where the evaluation succeeds, it shows the sequential account after every
      transaction that touched it, and every sender ran with the nonce it named. */
  lemma EvaluationIsSequential(b: Block, s: State, states: seq<Loc -> Value>, results: seq<nat>, txs: seq<Tx>, address: nat,
                               dropEmpty: bool, accounts: map<nat, Option<(U256, nat)>>, t: nat)
    requires WellFormed(b) && Reachable(b, s) && !s.aborted && AllExited(s) && Serial(b, states, results)
    requires |txs| == b.n && (forall j :: j in ColumnOf(s.store, Basic(address)) ==> j < b.n) && t in accounts
    requires EvaluatedUpTo(ColumnOf(s.store, Basic(address)), Observed(b.stored(Basic(address))), txs, address, dropEmpty, b.n, accounts)
    ensures t < b.n && t in ColumnOf(s.store, Basic(address))
    ensures
      var v := states[t + 1](Basic(address));
      && (accounts[t].None? <==> dropEmpty && BalanceOf(v) == 0 && NonceOf(v) == 0)
      && (accounts[t].Some? ==> accounts[t].value == (BalanceOf(v), NonceOf(v)))
    ensures txs[t].caller == address && txs[t].nonce.Some? ==>
              NonceOf(states[t + 1](Basic(address))) == txs[t].nonce.value + 1
  {
    FinishedRunIsSerial(b, s, states, results);
  }
}
