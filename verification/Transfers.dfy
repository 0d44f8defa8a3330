/** Raw transfers, the transactions that may be updated lazily. Both ways of writing them
    down have the same effect, and a block of them ends as the ledger says. */
module Transfers {
  import opened Arithmetic
  import opened Types
  import opened LazyBalances
  import opened SchedulerSteps
  import opened Engine
  import opened Columns
  import opened Invariant
  import opened Serializability
  import opened MultiVersion
  import opened MultiVersionMemory

  /** What all transactions of the block share. */
  datatype Env = Env(coinbase: nat, basefee: U256, hasBasefee: bool, dropsEmpty: bool)

  datatype Transfer = Transfer(caller: nat, to: nat, value: U256, nonce: Option<nat>,
                               gasUsed: nat, gasLimit: U256, gasPrice: U256, priorityFee: Option<U256>)

  function EffectivePrice(env: Env, tx: Transfer): (p: U256)
    ensures p <= tx.gasPrice
  {
    match tx.priorityFee
    case None => tx.gasPrice
    case Some(fee) => Min(tx.gasPrice, SaturatingAdd(fee, env.basefee))
  }

  /** The price the beneficiary earns. */
  function RewardPrice(env: Env, tx: Transfer): (p: U256)
    ensures p <= EffectivePrice(env, tx)
  {
    if env.hasBasefee then SaturatingSub(EffectivePrice(env, tx), env.basefee) else EffectivePrice(env, tx)
  }

  /** The machine rejects a transaction whose maximal cost is no balance at all. */
  predicate WellPriced(tx: Transfer) {
    tx.gasUsed <= tx.gasLimit && tx.gasLimit * tx.gasPrice + tx.value < TWO_TO_THE_256
  }

  lemma CostIsBounded(env: Env, tx: Transfer)
    requires WellPriced(tx)
    ensures 0 <= RewardPrice(env, tx) * tx.gasUsed <= EffectivePrice(env, tx) * tx.gasUsed <= tx.gasLimit * tx.gasPrice
  {
    ProductGrows(RewardPrice(env, tx), EffectivePrice(env, tx), tx.gasUsed);
    ProductGrows(EffectivePrice(env, tx), tx.gasPrice, tx.gasUsed);
    ProductGrows(tx.gasUsed, tx.gasLimit, tx.gasPrice);
  }

  /** What the sender pays for gas. */
  function Fee(env: Env, tx: Transfer): (fee: U256)
    requires WellPriced(tx)
    ensures fee + tx.value <= tx.gasLimit * tx.gasPrice + tx.value
  {
    CostIsBounded(env, tx);
    EffectivePrice(env, tx) * tx.gasUsed
  }

  function RewardOf(env: Env, tx: Transfer): (reward: U256)
    requires WellPriced(tx)
    ensures reward <= Fee(env, tx)
  {
    CostIsBounded(env, tx);
    RewardPrice(env, tx) * tx.gasUsed
  }

  // ---------- Prices, worked out ----------

  /** The sender pays its gas price, or priority and base fee together if that is less. */
  lemma SenderPays(env: Env, tx: Transfer)
    requires WellPriced(tx)
    ensures tx.priorityFee.None? ==> Fee(env, tx) == tx.gasPrice * tx.gasUsed
    ensures tx.priorityFee.Some? ==>
              Fee(env, tx) == (if tx.priorityFee.value + env.basefee < tx.gasPrice then tx.priorityFee.value + env.basefee
                               else tx.gasPrice) * tx.gasUsed
  {
  }

  /** With a base fee the beneficiary earns the priority fee on every unit of gas, or what
      the gas price leaves above the base fee if that is less or no priority fee is named,
      and nothing where the gas price does not reach it. Without one it earns all. */
  lemma BeneficiaryEarns(env: Env, tx: Transfer)
    requires WellPriced(tx)
    ensures !env.hasBasefee ==> RewardOf(env, tx) == Fee(env, tx)
    ensures env.hasBasefee && tx.gasPrice < env.basefee ==> RewardOf(env, tx) == 0
    ensures env.hasBasefee && env.basefee <= tx.gasPrice ==>
              var above := tx.gasPrice - env.basefee;
              RewardOf(env, tx) == (if tx.priorityFee.Some? && tx.priorityFee.value < above then tx.priorityFee.value else above) * tx.gasUsed
  {
  }

  /** What is burnt is the base fee, as far as the gas price reaches, on every unit. */
  lemma BaseFeeIsBurnt(env: Env, tx: Transfer)
    requires WellPriced(tx)
    ensures Fee(env, tx) - RewardOf(env, tx)
            == if !env.hasBasefee then 0 else if tx.gasPrice < env.basefee then tx.gasPrice * tx.gasUsed else env.basefee * tx.gasUsed
  {
    ProductOfSum(tx.gasUsed, RewardPrice(env, tx), EffectivePrice(env, tx) - RewardPrice(env, tx));
  }

  // ---------- Write sets ----------

  /** What the machine leaves of the mock balance a lazy sender starts with. */
  function MockBalance(env: Env, tx: Transfer): U256
    requires WellPriced(tx)
  {
    MAX_U256 - Fee(env, tx) - (if tx.caller == tx.to then 0 else tx.value)
  }

  function LazyPlain(env: Env, tx: Transfer): map<Loc, Write>
    requires WellPriced(tx)
  {
    var sender := map[Basic(tx.caller) := LazySender(MAX_U256 - MockBalance(env, tx))];
    if tx.caller == tx.to then sender else sender[Basic(tx.to) := LazyRecipient(tx.value)]
  }

  /** An account is written if it changed, or was not there, unless it stays empty. */
  predicate IsWritten(env: Env, before: Value, after: Value) {
    && (after != before || before == Account(0, 0))
    && (!env.dropsEmpty || after != Account(0, 0))
  }

  function StrictPlain(env: Env, tx: Transfer, sender: Value, recipient: Value): map<Loc, Write>
    requires WellPriced(tx)
  {
    var paid := SaturatingSub(BalanceOf(sender), Fee(env, tx));
    if tx.caller == tx.to then map[Basic(tx.caller) := Strict(Account(paid, NonceOf(sender) + 1))]
    else
      var writes := map[Basic(tx.caller) := Strict(Account(SaturatingSub(paid, tx.value), NonceOf(sender) + 1))];
      var received := Account(SaturatingAdd(BalanceOf(recipient), tx.value), NonceOf(recipient));
      if IsWritten(env, recipient, received) then writes[Basic(tx.to) := Strict(received)] else writes
  }

  function Rewarded(w: Write, reward: U256): Write {
    match w
    case LazyRecipient(a) => LazyRecipient(SaturatingAdd(a, reward))
    case LazySender(a) => LazySender(SaturatingSub(a, reward))
    case Strict(v) => Strict(Account(SaturatingAdd(BalanceOf(v), reward), NonceOf(v)))
  }

  /** A reward adds to what is there and leaves the nonce alone, up to saturation. */
  lemma RewardIsAdded(w: Write, reward: U256)
    requires w.Strict? ==> w.value.Account?
    ensures w.LazyRecipient? && w.amount + reward < TWO_TO_THE_256 ==> Rewarded(w, reward) == LazyRecipient(w.amount + reward)
    ensures w.LazySender? && reward <= w.amount ==> Rewarded(w, reward) == LazySender(w.amount - reward)
    ensures w.LazySender? && w.amount < reward ==> Rewarded(w, reward) == LazySender(0)
    ensures w.Strict? && w.value.balance + reward < TWO_TO_THE_256 ==>
              Rewarded(w, reward) == Strict(Account(w.value.balance + reward, w.value.nonce))
    ensures w.LazyRecipient? && w.amount + reward >= TWO_TO_THE_256 ==> Rewarded(w, reward) == LazyRecipient(TWO_TO_THE_256 - 1)
    ensures w.Strict? && w.value.balance + reward >= TWO_TO_THE_256 ==>
              Rewarded(w, reward) == Strict(Account(TWO_TO_THE_256 - 1, w.value.nonce))
  {
  }

  /** The reward goes into what is already written for the beneficiary, or is written
      lazily. */
  function WithReward(writes: map<Loc, Write>, coinbase: nat, reward: U256): map<Loc, Write> {
    var l := Basic(coinbase);
    writes[l := if l in writes then Rewarded(writes[l], reward) else LazyRecipient(reward)]
  }

  ghost predicate OncePerLocation(ws: WriteSet) {
    forall i, j :: 0 <= i < j < |ws| ==> ws[i].0 != ws[j].0
  }

  lemma {:induction false} LastWriteAfterUpdate(ws: WriteSet, i: nat, w: Write, k: Loc)
    requires i < |ws| && OncePerLocation(ws)
    ensures LastWriteTo(ws, ws[i].0) == Some(ws[i].1)
    ensures LastWriteTo(ws[i := (ws[i].0, w)], k) == if k == ws[i].0 then Some(w) else LastWriteTo(ws, k)
  {
    var n := |ws| - 1;
    var updated := ws[i := (ws[i].0, w)];
    if i < n {
      var rest := ws[..n];
      assert OncePerLocation(rest) && rest[i] == ws[i] && ws[n].0 != ws[i].0;
      LastWriteAfterUpdate(rest, i, w, k);
      assert updated[..n] == rest[i := (ws[i].0, w)] && updated[n] == ws[n];
    } else {
      assert updated[..n] == ws[..n];
    }
  }

  /** Add a reward to the list of writes, in place if the beneficiary is written already;
      an error if what is written there is no balance. */
  method ApplyReward(ws: WriteSet, l: Loc, reward: U256) returns (r: Option<WriteSet>)
    requires OncePerLocation(ws)
    ensures r.None? <==> exists i :: 0 <= i < |ws| && ws[i].0 == l && ws[i].1.Strict? && !ws[i].1.value.Account?
    ensures r.Some? ==> OncePerLocation(r.value) && forall k ::
      LastWriteTo(r.value, k) ==
      if k != l then LastWriteTo(ws, k)
      else if Writes(ws, l) then Some(Rewarded(LastWriteTo(ws, l).value, reward))
      else Some(LazyRecipient(reward))
  {
    var i := 0;
    while i < |ws| && ws[i].0 != l
      invariant 0 <= i <= |ws| && forall j :: 0 <= j < i ==> ws[j].0 != l
    {
      i := i + 1;
    }
    if i < |ws| {
      var w := ws[i].1;
      if w.Strict? && !w.value.Account? {
        return None;
      }
      forall k ensures LastWriteTo(ws[i := (l, Rewarded(w, reward))], k) == if k == l then Some(Rewarded(w, reward)) else LastWriteTo(ws, k) {
        LastWriteAfterUpdate(ws, i, Rewarded(w, reward), k);
      }
      LastWriteAfterUpdate(ws, i, w, l);
      return Some(ws[i := (l, Rewarded(w, reward))]);
    }
    assert (ws + [(l, LazyRecipient(reward))])[..|ws|] == ws;
    return Some(ws + [(l, LazyRecipient(reward))]);
  }

  function LazyWrites(env: Env, tx: Transfer): map<Loc, Write>
    requires WellPriced(tx)
  {
    WithReward(LazyPlain(env, tx), env.coinbase, RewardOf(env, tx))
  }

  function StrictWrites(env: Env, tx: Transfer, sender: Value, recipient: Value): map<Loc, Write>
    requires WellPriced(tx)
  {
    WithReward(StrictPlain(env, tx, sender, recipient), env.coinbase, RewardOf(env, tx))
  }

  /** Where empty accounts are dropped none is written, so that a later reader goes on to
      storage. Otherwise the recipient is written exactly if it received anything or was
      not there. */
  lemma EmptyIsNotWritten(env: Env, tx: Transfer, sender: Value, recipient: Value)
    requires WellPriced(tx) && recipient.Account? && recipient.balance + tx.value < TWO_TO_THE_256
    ensures
      var writes := StrictPlain(env, tx, sender, recipient);
      && (env.dropsEmpty ==> forall l :: l in writes ==> writes[l] != Strict(Account(0, 0)))
      && (env.dropsEmpty ==>
            forall l :: l in StrictWrites(env, tx, sender, recipient) ==> StrictWrites(env, tx, sender, recipient)[l] != Strict(Account(0, 0)))
      && (tx.caller != tx.to ==>
            (Basic(tx.to) in writes <==> tx.value > 0 || (recipient == Account(0, 0) && !env.dropsEmpty)))
  {
  }

  // ---------- The ledger ----------

  /** What a transfer adds to the balance of an address. */
  function Delta(env: Env, tx: Transfer, a: nat): int
    requires WellPriced(tx)
  {
    (if a == tx.to then tx.value else 0)
    + (if a == env.coinbase then RewardOf(env, tx) else 0)
    - (if a == tx.caller then Fee(env, tx) + tx.value else 0)
  }

  /** The sender can pay at most what it may cost, and nobody's balance overflows. */
  ghost predicate Payable(env: Env, tx: Transfer, state: Loc -> Value)
    requires WellPriced(tx)
  {
    && (forall a :: state(Basic(a)).Account?)
    && tx.gasLimit * tx.gasPrice + tx.value <= state(Basic(tx.caller)).balance
    && Credits(env, tx, state)
  }

  ghost predicate Credits(env: Env, tx: Transfer, state: Loc -> Value)
    requires WellPriced(tx)
  {
    forall a :: a == tx.to || a == env.coinbase ==>
      BalanceOf(state(Basic(a))) + (if a == tx.to then tx.value else 0)
      + (if a == env.coinbase then RewardOf(env, tx) else 0) < TWO_TO_THE_256
  }

  /** The state after the transfer, account by account. */
  ghost predicate IsTransferred(env: Env, tx: Transfer, state: Loc -> Value, l: Loc, v: Value)
    requires WellPriced(tx) && (l.Basic? ==> state(l).Account?)
  {
    if l.Basic? then
      && v.Account?
      && v.balance == state(l).balance + Delta(env, tx, l.address)
      && v.nonce == state(l).nonce + (if l.address == tx.caller then 1 else 0)
    else v == state(l)
  }

  /** The parties of a transfer, one by one: the value goes from the sender to the recipient,
      the fee is the sender's, the reward the beneficiary's, and nobody else is concerned. */
  lemma TransferByParties(env: Env, tx: Transfer, state: Loc -> Value, after: Loc -> Value)
    requires WellPriced(tx) && (forall a :: state(Basic(a)).Account?)
    requires forall l :: IsTransferred(env, tx, state, l, after(l))
    ensures forall l :: l != Basic(tx.caller) && l != Basic(tx.to) && l != Basic(env.coinbase) ==> after(l) == state(l)
    ensures tx.caller != tx.to && tx.caller != env.coinbase ==>
              BalanceOf(after(Basic(tx.caller))) == state(Basic(tx.caller)).balance - Fee(env, tx) - tx.value
    ensures tx.to != tx.caller && tx.to != env.coinbase ==>
              BalanceOf(after(Basic(tx.to))) == state(Basic(tx.to)).balance + tx.value
    ensures env.coinbase != tx.caller && env.coinbase != tx.to ==>
              BalanceOf(after(Basic(env.coinbase))) == state(Basic(env.coinbase)).balance + RewardOf(env, tx)
    ensures tx.caller == tx.to != env.coinbase ==>
              BalanceOf(after(Basic(tx.caller))) == state(Basic(tx.caller)).balance - Fee(env, tx)
    ensures forall a :: after(Basic(a)).Account? && after(Basic(a)).nonce == state(Basic(a)).nonce + (if a == tx.caller then 1 else 0)
  {
    assert IsTransferred(env, tx, state, Basic(tx.caller), after(Basic(tx.caller)));
    assert IsTransferred(env, tx, state, Basic(tx.to), after(Basic(tx.to)));
    assert IsTransferred(env, tx, state, Basic(env.coinbase), after(Basic(env.coinbase)));
    forall l | l != Basic(tx.caller) && l != Basic(tx.to) && l != Basic(env.coinbase) ensures after(l) == state(l) {
      assert IsTransferred(env, tx, state, l, after(l));
      if l.Basic? { assert state(Basic(l.address)).Account?; }
    }
    forall a
      ensures after(Basic(a)).Account? && after(Basic(a)).nonce == state(Basic(a)).nonce + (if a == tx.caller then 1 else 0)
    {
      assert IsTransferred(env, tx, state, Basic(a), after(Basic(a)));
    }
  }

  /** Lazy writes: every one is in range, and together they are the transfer, also when
      the sender, the recipient and the beneficiary are not three different accounts. */
  lemma LazyIsTransfer(env: Env, tx: Transfer, state: Loc -> Value, l: Loc)
    requires WellPriced(tx) && Payable(env, tx, state)
    ensures IsTransferred(env, tx, state, l, After(state, LazyWrites(env, tx), l))
    ensures l in LazyWrites(env, tx) ==> InRange(LazyWrites(env, tx)[l], state(l))
  {
    if l.Basic? {
      assert l == Basic(l.address);
      assert state(Basic(l.address)).Account?;
    }
    assert BalanceOf(state(Basic(tx.to))) >= 0 && BalanceOf(state(Basic(env.coinbase))) >= 0;
  }

  /** Strict writes are the same transfer. */
  lemma StrictIsTransfer(env: Env, tx: Transfer, state: Loc -> Value, l: Loc)
    requires WellPriced(tx) && Payable(env, tx, state)
    ensures
      var writes := StrictWrites(env, tx, state(Basic(tx.caller)), state(Basic(tx.to)));
      && IsTransferred(env, tx, state, l, After(state, writes, l))
      && (l in writes ==> InRange(writes[l], state(l)))
  {
    if l.Basic? {
      assert l == Basic(l.address);
      assert state(Basic(l.address)).Account?;
    }
    assert BalanceOf(state(Basic(tx.to))) >= 0 && BalanceOf(state(Basic(env.coinbase))) >= 0;
  }

  /** Choosing lazily or strictly makes no difference to anybody. */
  lemma LazyOrStrict(env: Env, tx: Transfer, state: Loc -> Value, l: Loc)
    requires WellPriced(tx) && Payable(env, tx, state)
    ensures After(state, LazyWrites(env, tx), l)
            == After(state, StrictWrites(env, tx, state(Basic(tx.caller)), state(Basic(tx.to))), l)
  {
    LazyIsTransfer(env, tx, state, l);
    StrictIsTransfer(env, tx, state, l);
  }

  // ---------- Raw transfers in a block ----------

  /** How the machine runs a transfer to an account without code. If it updates lazily it
      is done; otherwise it reads the sender, whose nonce and funds it checks, then the
      recipient. */
  function RawAction(env: Env, tx: Transfer, lazy: bool, vs: seq<Value>): Action
    requires WellPriced(tx) && |vs| > 0
  {
    if lazy then Finish(LazyWrites(env, tx), tx.gasUsed)
    else if |vs| == 1 then Action.Read(Basic(tx.caller))
    else if tx.nonce.Some? && tx.nonce.value != NonceOf(vs[1]) then Stuck
    else if BalanceOf(vs[1]) < tx.gasLimit * tx.gasPrice + tx.value then Stuck
    else if tx.caller == tx.to then Finish(StrictWrites(env, tx, vs[1], vs[1]), tx.gasUsed)
    else if |vs| == 2 then Action.Read(CodeHash(tx.caller))
    else if vs[2] != Code(None) then Fail
    else if |vs| == 3 then Action.Read(Basic(tx.to))
    else Finish(StrictWrites(env, tx, vs[1], vs[3]), tx.gasUsed)
  }

  ghost predicate IgnoresLaziness(b: Block, t: nat, vs: seq<Value>) {
    b.vm(t, true, vs) == b.vm(t, false, vs)
  }

  /** Transaction t asks for the code hash of the recipient first. It is a raw transfer if
      there is none, and otherwise does not update lazily. */
  ghost predicate StartsAsTransfer(b: Block, env: Env, tx: Transfer, t: nat)
    requires WellPriced(tx)
  {
    && (forall lazy :: b.vm(t, lazy, []) == Action.Read(CodeHash(tx.to)))
    && (forall lazy, vs: seq<Value> :: |vs| > 0 && vs[0] == Code(None) ==> b.vm(t, lazy, vs) == RawAction(env, tx, lazy, vs))
    && (forall vs: seq<Value> :: |vs| > 0 && vs[0] != Code(None) ==> IgnoresLaziness(b, t, vs))
  }

  /** The transactions in txs start as transfers, no other updates lazily. */
  ghost predicate IsMixed(b: Block, env: Env, txs: map<nat, Transfer>) {
    forall t: nat :: t < b.n ==>
      if t in txs then WellPriced(txs[t]) && StartsAsTransfer(b, env, txs[t], t)
      else forall vs :: IgnoresLaziness(b, t, vs)
  }

  /** What an ordinary run of a raw transfer reads, and so writes. */
  lemma StrictRun(b: Block, env: Env, tx: Transfer, t: nat, state: Loc -> Value, events: seq<Event>)
    requires WellPriced(tx) && StartsAsTransfer(b, env, tx, t) && state(CodeHash(tx.to)) == Code(None)
    requires Runs(b, t, false, state, events)
    ensures b.vm(t, false, Values(events)).writes == StrictWrites(env, tx, state(Basic(tx.caller)), state(Basic(tx.to)))
    ensures b.vm(t, false, Values(events)).result == tx.gasUsed
    ensures tx.gasLimit * tx.gasPrice + tx.value <= BalanceOf(state(Basic(tx.caller)))
    ensures tx.nonce.Some? ==> tx.nonce.value == NonceOf(state(Basic(tx.caller)))
  {
    var vs := Values(events);
    assert |vs| >= 1 && b.vm(t, false, vs[..0]) == Action.Read(events[0].loc);
    assert vs[0] == Code(None);
    assert |vs| >= 2 && vs[..1][0] == vs[0];
    assert b.vm(t, false, vs[..1]) == Action.Read(events[1].loc);
    assert vs[1] == state(Basic(tx.caller));
    if tx.caller != tx.to {
      assert |vs| >= 4;
      assert vs[..3][0] == vs[0] && vs[..3][1] == vs[1] && vs[..3][2] == vs[2];
      assert b.vm(t, false, vs[..3]) == Action.Read(events[3].loc);
      assert vs[3] == state(Basic(tx.to));
    }
  }

  lemma LazyRun(b: Block, env: Env, tx: Transfer, t: nat, state: Loc -> Value, events: seq<Event>)
    requires WellPriced(tx) && StartsAsTransfer(b, env, tx, t) && state(CodeHash(tx.to)) == Code(None)
    requires Runs(b, t, true, state, events)
    ensures b.vm(t, true, Values(events)).writes == LazyWrites(env, tx)
    ensures b.vm(t, true, Values(events)).result == tx.gasUsed
  {
    var vs := Values(events);
    assert |vs| >= 1 && b.vm(t, true, vs[..0]) == Action.Read(events[0].loc);
  }

  /** A lazy run of anything else is an ordinary run. */
  lemma LazyIsOrdinary(b: Block, env: Env, txs: map<nat, Transfer>, t: nat, state: Loc -> Value, events: seq<Event>)
    requires IsMixed(b, env, txs) && t < b.n && Runs(b, t, true, state, events)
    requires t in txs ==> state(CodeHash(txs[t].to)) != Code(None)
    ensures Runs(b, t, false, state, events) && b.vm(t, true, Values(events)) == b.vm(t, false, Values(events))
  {
    var vs := Values(events);
    forall k | 0 <= k <= |events| ensures b.vm(t, true, vs[..k]) == b.vm(t, false, vs[..k]) {
      if t in txs {
        if k > 0 {
          assert b.vm(t, true, vs[..0]) == Action.Read(events[0].loc);
          assert vs[..k][0] == vs[0];
        }
      } else {
        assert IgnoresLaziness(b, t, vs[..k]);
      }
    }
    assert vs[..|events|] == vs;
  }

  lemma {:induction false} StatesHoldAccounts(b: Block, states: seq<Loc -> Value>, results: seq<nat>, t: nat)
    requires WellFormed(b) && Sequential(b, states, results) && t <= b.n
    ensures forall a :: states[t](Basic(a)).Account?
  {
    if t == 0 {
      forall a ensures states[0](Basic(a)).Account? {
        assert states[0](Basic(a)) == Observed(b.stored(Basic(a)));
      }
    } else {
      StatesHoldAccounts(b, states, results, t - 1);
      assert SequentialStep(b, t - 1, states[t - 1], states[t - 1 + 1], results[t - 1]);
      StepHoldsAccounts(b, t - 1, states[t - 1], states[t], results[t - 1]);
    }
  }

  lemma StepHoldsAccounts(b: Block, t: nat, state: Loc -> Value, after: Loc -> Value, result: nat)
    requires WellFormed(b) && SequentialStep(b, t, state, after, result) && forall a :: state(Basic(a)).Account?
    ensures forall a :: after(Basic(a)).Account?
  {
    var events :|
      && Runs(b, t, false, state, events)
      && b.vm(t, false, Values(events)).result == result
      && forall l :: after(l) == After(state, b.vm(t, false, Values(events)).writes, l);
    assert WellWritten(b, t, b.vm(t, false, Values(events)).writes);
  }

  /** A raw transfer of the sequential run: it was payable, and it is a transfer, whichever
      way it is written. */
  lemma SequentialTransfer(b: Block, env: Env, tx: Transfer, t: nat, state: Loc -> Value, after: Loc -> Value, result: nat)
    requires WellPriced(tx) && StartsAsTransfer(b, env, tx, t) && state(CodeHash(tx.to)) == Code(None)
    requires (forall a :: state(Basic(a)).Account?) && Credits(env, tx, state)
    requires SequentialStep(b, t, state, after, result)
    ensures Payable(env, tx, state) && result == tx.gasUsed
    ensures forall l :: after(l) == After(state, LazyWrites(env, tx), l)
    ensures forall l :: IsTransferred(env, tx, state, l, after(l))
  {
    var events :|
      && Runs(b, t, false, state, events)
      && b.vm(t, false, Values(events)).result == result
      && forall l :: after(l) == After(state, b.vm(t, false, Values(events)).writes, l);
    StrictRun(b, env, tx, t, state, events);
    EitherWayTransferred(env, tx, state, after);
  }

  lemma EitherWayTransferred(env: Env, tx: Transfer, state: Loc -> Value, after: Loc -> Value)
    requires WellPriced(tx) && Payable(env, tx, state)
    requires forall l :: after(l) == After(state, StrictWrites(env, tx, state(Basic(tx.caller)), state(Basic(tx.to))), l)
    ensures forall l :: after(l) == After(state, LazyWrites(env, tx), l)
    ensures forall l :: IsTransferred(env, tx, state, l, after(l))
  {
    forall l
      ensures after(l) == After(state, LazyWrites(env, tx), l)
      ensures IsTransferred(env, tx, state, l, after(l))
    {
      LazyOrStrict(env, tx, state, l);
      LazyIsTransfer(env, tx, state, l);
    }
  }

  // ---------- Blocks that contain raw transfers ----------

  /** On this state t is a raw transfer. */
  predicate IsRaw(txs: map<nat, Transfer>, t: nat, state: Loc -> Value) {
    t in txs && state(CodeHash(txs[t].to)) == Code(None)
  }

  /** What raw transfers credit does not overflow. That they are funded needs no saying: the
      sequential run would be stuck otherwise. */
  ghost predicate CreditsFit(b: Block, env: Env, txs: map<nat, Transfer>, states: seq<Loc -> Value>)
    requires IsMixed(b, env, txs) && |states| == b.n + 1
  {
    forall t :: 0 <= t < b.n && IsRaw(txs, t, states[t]) ==> Credits(env, txs[t], states[t])
  }

  /** Nor do the lazy writes of the other transactions, such as their rewards. */
  ghost predicate OthersFit(b: Block, txs: map<nat, Transfer>, states: seq<Loc -> Value>)
    requires |states| == b.n + 1
  {
    forall t, events :: 0 <= t < b.n && !IsRaw(txs, t, states[t]) && Runs(b, t, false, states[t], events) ==>
      forall l :: l in b.vm(t, false, Values(events)).writes ==> InRange(b.vm(t, false, Values(events)).writes[l], states[t](l))
  }

  /** This execution has the sequential effects, and its writes are in range. */
  ghost predicate RunIsSerial(b: Block, t: nat, lazy: bool, state: Loc -> Value, after: Loc -> Value, result: nat, events: seq<Event>)
    requires b.vm(t, lazy, Values(events)).Finish?
  {
    && b.vm(t, lazy, Values(events)).result == result
    && forall l ::
         && after(l) == After(state, b.vm(t, lazy, Values(events)).writes, l)
         && (l in b.vm(t, lazy, Values(events)).writes ==> InRange(b.vm(t, lazy, Values(events)).writes[l], state(l)))
  }

  lemma RawRunIsSerial(b: Block, env: Env, tx: Transfer, t: nat, next: nat, lazy: bool, states: seq<Loc -> Value>, results: seq<nat>, events: seq<Event>)
    requires WellPriced(tx) && StartsAsTransfer(b, env, tx, t) && WellFormed(b) && Sequential(b, states, results) && t < b.n && next == t + 1
    requires states[t](CodeHash(tx.to)) == Code(None) && Credits(env, tx, states[t]) && Runs(b, t, lazy, states[t], events)
    ensures RunIsSerial(b, t, lazy, states[t], states[next], results[t], events)
  {
    StatesHoldAccounts(b, states, results, t);
    StepOf(b, states, results, t, next);
    SequentialTransfer(b, env, tx, t, states[t], states[next], results[t]);
    if lazy { LazyRun(b, env, tx, t, states[t], events); } else { StrictRun(b, env, tx, t, states[t], events); }
    forall l
      ensures states[next](l) == After(states[t], b.vm(t, lazy, Values(events)).writes, l)
      ensures l in b.vm(t, lazy, Values(events)).writes ==> InRange(b.vm(t, lazy, Values(events)).writes[l], states[t](l))
    {
      LazyOrStrict(env, tx, states[t], l);
      LazyIsTransfer(env, tx, states[t], l);
      StrictIsTransfer(env, tx, states[t], l);
    }
  }

  lemma OtherRunIsSerial(b: Block, env: Env, txs: map<nat, Transfer>, t: nat, next: nat, lazy: bool, states: seq<Loc -> Value>, results: seq<nat>, events: seq<Event>)
    requires IsMixed(b, env, txs) && Sequential(b, states, results) && OthersFit(b, txs, states) && t < b.n && next == t + 1
    requires !IsRaw(txs, t, states[t]) && Runs(b, t, lazy, states[t], events)
    ensures RunIsSerial(b, t, lazy, states[t], states[next], results[t], events)
  {
    if lazy { LazyIsOrdinary(b, env, txs, t, states[t], events); }
    StepOf(b, states, results, t, next);
    var f :|
      && Runs(b, t, false, states[t], f)
      && b.vm(t, false, Values(f)).result == results[t]
      && forall l :: states[next](l) == After(states[t], b.vm(t, false, Values(f)).writes, l);
    RunsOnce(b, t, false, states[t], events, f);
  }

  lemma MixedRunIsSerial(b: Block, env: Env, txs: map<nat, Transfer>, t: nat, next: nat, lazy: bool, states: seq<Loc -> Value>, results: seq<nat>, events: seq<Event>)
    requires WellFormed(b) && IsMixed(b, env, txs) && Sequential(b, states, results) && t < b.n && next == t + 1
    requires CreditsFit(b, env, txs, states) && OthersFit(b, txs, states) && Runs(b, t, lazy, states[t], events)
    ensures RunIsSerial(b, t, lazy, states[t], states[next], results[t], events)
  {
    if IsRaw(txs, t, states[t]) {
      RawRunIsSerial(b, env, txs[t], t, next, lazy, states, results, events);
    } else {
      OtherRunIsSerial(b, env, txs, t, next, lazy, states, results, events);
    }
  }

  ghost predicate AllRunsAreSerial(b: Block, states: seq<Loc -> Value>, results: seq<nat>, t: nat, next: nat)
    requires t < next < |states| && t < |results|
  {
    forall lazy, events :: Runs(b, t, lazy, states[t], events) ==> RunIsSerial(b, t, lazy, states[t], states[next], results[t], events)
  }

  lemma RunsAreHarmless(b: Block, states: seq<Loc -> Value>, results: seq<nat>)
    requires |states| == b.n + 1 && |results| == b.n
    requires forall t: nat, next: nat :: t < b.n && next == t + 1 ==> AllRunsAreSerial(b, states, results, t, next)
    ensures LazinessIsHarmless(b, states, results)
  {
    forall t, events | 0 <= t < b.n && Runs(b, t, true, states[t], events)
      ensures b.vm(t, true, Values(events)).result == results[t]
      ensures forall l :: states[t + 1](l) == After(states[t], b.vm(t, true, Values(events)).writes, l)
    {
      assert AllRunsAreSerial(b, states, results, t, t + 1);
      assert RunIsSerial(b, t, true, states[t], states[t + 1], results[t], events);
    }
  }

  lemma RunsAreFunded(b: Block, states: seq<Loc -> Value>, results: seq<nat>)
    requires |states| == b.n + 1 && |results| == b.n
    requires forall t: nat, next: nat :: t < b.n && next == t + 1 ==> AllRunsAreSerial(b, states, results, t, next)
    ensures Funded(b, states)
  {
    forall t, lazy, events | 0 <= t < b.n && Runs(b, t, lazy, states[t], events)
      ensures forall l :: l in b.vm(t, lazy, Values(events)).writes ==> InRange(b.vm(t, lazy, Values(events)).writes[l], states[t](l))
    {
      assert AllRunsAreSerial(b, states, results, t, t + 1);
      assert RunIsSerial(b, t, lazy, states[t], states[t + 1], results[t], events);
    }
  }

  /** For any block that updates nothing but raw transfers lazily, harmless laziness and
      funded lazy updates are theorems. */
  lemma MixedBlockIsSerial(b: Block, env: Env, txs: map<nat, Transfer>, states: seq<Loc -> Value>, results: seq<nat>)
    requires WellFormed(b) && IsMixed(b, env, txs) && Sequential(b, states, results) && NoneDrained(b, states)
    requires CreditsFit(b, env, txs, states) && OthersFit(b, txs, states)
    ensures Serial(b, states, results)
  {
    forall t: nat, next: nat | t < b.n && next == t + 1 ensures AllRunsAreSerial(b, states, results, t, next) {
      forall lazy, events | Runs(b, t, lazy, states[t], events) ensures RunIsSerial(b, t, lazy, states[t], states[next], results[t], events) {
        MixedRunIsSerial(b, env, txs, t, next, lazy, states, results, events);
      }
    }
    RunsAreHarmless(b, states, results);
    RunsAreFunded(b, states, results);
  }

  // ---------- A block of transfers ----------

  /** Only transfers to accounts without code. */
  function TransferAction(env: Env, txs: seq<Transfer>, t: nat, lazy: bool, vs: seq<Value>): Action
    requires forall k :: 0 <= k < |txs| ==> WellPriced(txs[k])
  {
    if t >= |txs| then Fail
    else if |vs| == 0 then Action.Read(CodeHash(txs[t].to))
    else if vs[0] != Code(None) then Fail
    else RawAction(env, txs[t], lazy, vs)
  }

  function Indices(n: nat): (r: set<nat>)
    ensures forall t: nat :: t in r <==> t < n
  {
    if n == 0 then {} else Indices(n - 1) + {n - 1}
  }

  /** The beneficiary is seeded for every transaction. */
  ghost function TransferBlock(env: Env, txs: seq<Transfer>, stored: Loc -> Value): Block
    requires forall k :: 0 <= k < |txs| ==> WellPriced(txs[k])
  {
    Block(|txs|, (t: nat, lazy: bool, vs: seq<Value>) => TransferAction(env, txs, t, lazy, vs), stored,
          map[Basic(env.coinbase) := Indices(|txs|)], {env.coinbase},
          (t: nat) => if t < |txs| then {txs[t].caller, txs[t].to} else {})
  }

  ghost predicate ProperStorage(stored: Loc -> Value) {
    && (forall a :: stored(Basic(a)).Account? || stored(Basic(a)).Absent?)
    && (forall l :: stored(l).Absent? ==> l.Basic?)
  }

  /** In particular every transfer writes the seeded beneficiary. */
  lemma TransferBlockWellFormed(env: Env, txs: seq<Transfer>, stored: Loc -> Value)
    requires (forall k :: 0 <= k < |txs| ==> WellPriced(txs[k])) && ProperStorage(stored)
    ensures WellFormed(TransferBlock(env, txs, stored))
  {
    var b := TransferBlock(env, txs, stored);
    forall t: nat, lazy, vs | b.vm(t, lazy, vs).Finish? ensures WellWritten(b, t, b.vm(t, lazy, vs).writes) {
    }
  }

  function ByIndex(txs: seq<Transfer>): map<nat, Transfer> {
    map t: nat | t in Indices(|txs|) :: txs[t]
  }

  lemma TransferBlockIsMixed(env: Env, txs: seq<Transfer>, stored: Loc -> Value)
    requires forall k :: 0 <= k < |txs| ==> WellPriced(txs[k])
    ensures IsMixed(TransferBlock(env, txs, stored), env, ByIndex(txs))
  {
    forall t: nat | t < |txs| ensures t in ByIndex(txs) && StartsAsTransfer(TransferBlock(env, txs, stored), env, txs[t], t) {
      TransferStarts(env, txs, stored, t);
    }
  }

  lemma TransferStarts(env: Env, txs: seq<Transfer>, stored: Loc -> Value, t: nat)
    requires (forall k :: 0 <= k < |txs| ==> WellPriced(txs[k])) && t < |txs|
    ensures StartsAsTransfer(TransferBlock(env, txs, stored), env, txs[t], t)
  {
    var b := TransferBlock(env, txs, stored);
    forall vs: seq<Value> | |vs| > 0 && vs[0] != Code(None) ensures IgnoresLaziness(b, t, vs) {
      assert b.vm(t, true, vs) == Fail && b.vm(t, false, vs) == Fail;
    }
  }

  /** Credits fit. */
  ghost predicate Fits(env: Env, txs: seq<Transfer>, states: seq<Loc -> Value>)
    requires (forall k :: 0 <= k < |txs| ==> WellPriced(txs[k])) && |states| == |txs| + 1
  {
    forall t :: 0 <= t < |txs| ==> Credits(env, txs[t], states[t])
  }

  /** A transfer that completes was to an account without code. */
  lemma RunIsRaw(env: Env, txs: seq<Transfer>, stored: Loc -> Value, t: nat, lazy: bool, state: Loc -> Value, events: seq<Event>)
    requires (forall k :: 0 <= k < |txs| ==> WellPriced(txs[k])) && t < |txs|
    requires Runs(TransferBlock(env, txs, stored), t, lazy, state, events)
    ensures state(CodeHash(txs[t].to)) == Code(None)
  {
    var b, vs := TransferBlock(env, txs, stored), Values(events);
    assert |vs| >= 1 && b.vm(t, lazy, vs[..0]) == Action.Read(events[0].loc);
  }

  lemma SequentialIsRaw(env: Env, txs: seq<Transfer>, stored: Loc -> Value, states: seq<Loc -> Value>, results: seq<nat>, t: nat)
    requires (forall k :: 0 <= k < |txs| ==> WellPriced(txs[k])) && t < |txs|
    requires Sequential(TransferBlock(env, txs, stored), states, results)
    ensures states[t](CodeHash(txs[t].to)) == Code(None)
  {
    var b := TransferBlock(env, txs, stored);
    assert SequentialStep(b, t, states[t], states[t + 1], results[t]);
    var events :| Runs(b, t, false, states[t], events);
    RunIsRaw(env, txs, stored, t, false, states[t], events);
  }

  lemma StepOf(b: Block, states: seq<Loc -> Value>, results: seq<nat>, t: nat, next: nat)
    requires Sequential(b, states, results) && t < b.n && next == t + 1
    ensures SequentialStep(b, t, states[t], states[next], results[t])
  {
    assert SequentialStep(b, t, states[t], states[t + 1], results[t]);
  }

  lemma TransferStep(env: Env, txs: seq<Transfer>, stored: Loc -> Value, states: seq<Loc -> Value>, results: seq<nat>, t: nat, next: nat)
    requires (forall k :: 0 <= k < |txs| ==> WellPriced(txs[k])) && t < |txs| && next == t + 1 && ProperStorage(stored)
    requires Sequential(TransferBlock(env, txs, stored), states, results) && Fits(env, txs, states)
    ensures (forall a :: states[t](Basic(a)).Account?) && Payable(env, txs[t], states[t])
    ensures forall l :: IsTransferred(env, txs[t], states[t], l, states[next](l))
  {
    var b := TransferBlock(env, txs, stored);
    TransferBlockWellFormed(env, txs, stored);
    StatesHoldAccounts(b, states, results, t);
    SequentialIsRaw(env, txs, stored, states, results, t);
    StepOf(b, states, results, t, next);
    TransferStarts(env, txs, stored, t);
    SequentialTransfer(b, env, txs[t], t, states[t], states[next], results[t]);
  }

  /** A block of raw transfers meets every premise of serializability, laziness included. */
  lemma TransferBlockIsSerial(env: Env, txs: seq<Transfer>, stored: Loc -> Value, states: seq<Loc -> Value>, results: seq<nat>)
    requires (forall k :: 0 <= k < |txs| ==> WellPriced(txs[k])) && ProperStorage(stored)
    requires Sequential(TransferBlock(env, txs, stored), states, results) && Fits(env, txs, states)
    requires NoneDrained(TransferBlock(env, txs, stored), states)
    ensures Serial(TransferBlock(env, txs, stored), states, results)
  {
    var b := TransferBlock(env, txs, stored);
    TransferBlockWellFormed(env, txs, stored);
    TransferBlockIsMixed(env, txs, stored);
    forall t | 0 <= t < b.n ensures IsRaw(ByIndex(txs), t, states[t]) {
      SequentialIsRaw(env, txs, stored, states, results, t);
    }
    MixedBlockIsSerial(b, env, ByIndex(txs), states, results);
  }

  // ---------- The ledger of a finished run ----------

  /** What the first t transfers add to an address. */
  function DeltaUpTo(env: Env, txs: seq<Transfer>, a: nat, t: nat): int
    requires (forall k :: 0 <= k < |txs| ==> WellPriced(txs[k])) && t <= |txs|
  {
    if t == 0 then 0 else DeltaUpTo(env, txs, a, t - 1) + Delta(env, txs[t - 1], a)
  }

  function SentUpTo(txs: seq<Transfer>, a: nat, t: nat): nat
    requires t <= |txs|
  {
    if t == 0 then 0 else SentUpTo(txs, a, t - 1) + (if txs[t - 1].caller == a then 1 else 0)
  }

  lemma LedgerStep(env: Env, txs: seq<Transfer>, stored: Loc -> Value, states: seq<Loc -> Value>, results: seq<nat>, a: nat, t: nat, next: nat)
    requires (forall k :: 0 <= k < |txs| ==> WellPriced(txs[k])) && t < |txs| && next == t + 1 && ProperStorage(stored)
    requires Sequential(TransferBlock(env, txs, stored), states, results) && Fits(env, txs, states)
    ensures BalanceOf(states[next](Basic(a))) == BalanceOf(states[t](Basic(a))) + Delta(env, txs[t], a)
    ensures NonceOf(states[next](Basic(a))) == NonceOf(states[t](Basic(a))) + (if txs[t].caller == a then 1 else 0)
  {
    TransferStep(env, txs, stored, states, results, t, next);
    assert IsTransferred(env, txs[t], states[t], Basic(a), states[next](Basic(a)));
  }

  lemma {:induction false} LedgerUpTo(env: Env, txs: seq<Transfer>, stored: Loc -> Value, states: seq<Loc -> Value>, results: seq<nat>, a: nat, t: nat)
    requires (forall k :: 0 <= k < |txs| ==> WellPriced(txs[k])) && t <= |txs| && ProperStorage(stored)
    requires Sequential(TransferBlock(env, txs, stored), states, results) && Fits(env, txs, states)
    ensures states[t](Basic(a)).Account?
    ensures BalanceOf(states[t](Basic(a))) == BalanceOf(stored(Basic(a))) + DeltaUpTo(env, txs, a, t)
    ensures NonceOf(states[t](Basic(a))) == NonceOf(stored(Basic(a))) + SentUpTo(txs, a, t)
  {
    TransferBlockWellFormed(env, txs, stored);
    StatesHoldAccounts(TransferBlock(env, txs, stored), states, results, t);
    if t == 0 {
      assert states[0](Basic(a)) == Observed(stored(Basic(a)));
    } else {
      LedgerUpTo(env, txs, stored, states, results, a, t - 1);
      LedgerStep(env, txs, stored, states, results, a, t - 1, t);
    }
  }

  /** From any interleaving of the workers over a block of raw transfers, whichever of
      them happened to be updated lazily, the store the workers leave behind evaluates
      to the ledger: what was stored, plus what was received and earned, minus what was
      sent and paid, and one nonce for every transfer sent. */
  lemma FinishedTransfersAreTheLedger(env: Env, txs: seq<Transfer>, stored: Loc -> Value, states: seq<Loc -> Value>, results: seq<nat>,
                                      s: State, a: nat, t: nat)
    requires (forall k :: 0 <= k < |txs| ==> WellPriced(txs[k])) && t <= |txs| && ProperStorage(stored)
    requires Sequential(TransferBlock(env, txs, stored), states, results) && Fits(env, txs, states)
    requires NoneDrained(TransferBlock(env, txs, stored), states)
    requires Reachable(TransferBlock(env, txs, stored), s) && !s.aborted && AllExited(s)
    ensures
      var v := ValueBelow(ColumnOf(s.store, Basic(a)), Observed(stored(Basic(a))), t);
      && v.Account?
      && v.balance == BalanceOf(stored(Basic(a))) + DeltaUpTo(env, txs, a, t)
      && v.nonce == NonceOf(stored(Basic(a))) + SentUpTo(txs, a, t)
  {
    TransferBlockWellFormed(env, txs, stored);
    TransferBlockIsSerial(env, txs, stored, states, results);
    FinishedRunIsSerial(TransferBlock(env, txs, stored), s, states, results);
    LedgerUpTo(env, txs, stored, states, results, a, t);
  }

  // ---------- Conservation ----------

  /** What the first t transfers burn: gas that nobody earns. */
  function BurntUpTo(env: Env, txs: seq<Transfer>, t: nat): nat
    requires (forall k :: 0 <= k < |txs| ==> WellPriced(txs[k])) && t <= |txs|
  {
    if t == 0 then 0 else BurntUpTo(env, txs, t - 1) + (Fee(env, txs[t - 1]) - RewardOf(env, txs[t - 1]))
  }

  function GasUpTo(txs: seq<Transfer>, t: nat): nat
    requires t <= |txs|
  {
    if t == 0 then 0 else GasUpTo(txs, t - 1) + txs[t - 1].gasUsed
  }

  /** That is the base fee for all gas used, as long as every gas price reaches it, and
      nothing before there was a base fee. */
  lemma {:induction false} BurntIsBaseFee(env: Env, txs: seq<Transfer>, t: nat)
    requires (forall k :: 0 <= k < |txs| ==> WellPriced(txs[k])) && t <= |txs|
    requires env.hasBasefee ==> forall k :: 0 <= k < t ==> env.basefee <= txs[k].gasPrice
    ensures BurntUpTo(env, txs, t) == if env.hasBasefee then env.basefee * GasUpTo(txs, t) else 0
  {
    if t > 0 {
      BurntIsBaseFee(env, txs, t - 1);
      BaseFeeIsBurnt(env, txs[t - 1]);
      ProductOfSum(env.basefee, GasUpTo(txs, t - 1), txs[t - 1].gasUsed);
    }
  }

  function SumDeltas(env: Env, txs: seq<Transfer>, addresses: seq<nat>, t: nat): int
    requires (forall k :: 0 <= k < |txs| ==> WellPriced(txs[k])) && t <= |txs|
  {
    if addresses == [] then 0 else DeltaUpTo(env, txs, addresses[0], t) + SumDeltas(env, txs, addresses[1..], t)
  }

  /** Everybody the transfer concerns is on the list. */
  predicate TakesPart(env: Env, tx: Transfer, addresses: seq<nat>) {
    tx.caller in addresses && tx.to in addresses && env.coinbase in addresses
  }

  /** Over all accounts a block touches, exactly the burnt gas goes missing. */
  lemma {:induction false} TransfersConserve(env: Env, txs: seq<Transfer>, addresses: seq<nat>, t: nat)
    requires (forall k :: 0 <= k < |txs| ==> WellPriced(txs[k])) && t <= |txs|
    requires forall i, j :: 0 <= i < j < |addresses| ==> addresses[i] != addresses[j]
    requires forall k :: 0 <= k < t ==> TakesPart(env, txs[k], addresses)
    ensures SumDeltas(env, txs, addresses, t) == 0 - BurntUpTo(env, txs, t)
  {
    if t == 0 {
      NoDeltas(env, txs, addresses);
    } else {
      TransfersConserve(env, txs, addresses, t - 1);
      assert TakesPart(env, txs[t - 1], addresses);
      DeltasOfOne(env, txs, addresses, t - 1);
    }
  }

  /** Where every gas price reaches the base fee, exactly the base fee for all gas used
      goes missing. */
  lemma BaseFeeGoesMissing(env: Env, txs: seq<Transfer>, addresses: seq<nat>, t: nat)
    requires (forall k :: 0 <= k < |txs| ==> WellPriced(txs[k])) && t <= |txs|
    requires forall i, j :: 0 <= i < j < |addresses| ==> addresses[i] != addresses[j]
    requires forall k :: 0 <= k < t ==> TakesPart(env, txs[k], addresses)
    requires env.hasBasefee && forall k :: 0 <= k < t ==> env.basefee <= txs[k].gasPrice
    ensures SumDeltas(env, txs, addresses, t) == 0 - env.basefee * GasUpTo(txs, t)
  {
    TransfersConserve(env, txs, addresses, t);
    BurntIsBaseFee(env, txs, t);
  }

  lemma {:induction false} NoDeltas(env: Env, txs: seq<Transfer>, addresses: seq<nat>)
    requires forall k :: 0 <= k < |txs| ==> WellPriced(txs[k])
    ensures SumDeltas(env, txs, addresses, 0) == 0
  {
    if addresses != [] { NoDeltas(env, txs, addresses[1..]); }
  }

  /** One transfer adds to those of its three accounts that are in the list. */
  lemma {:induction false} DeltasOfOne(env: Env, txs: seq<Transfer>, addresses: seq<nat>, t: nat)
    requires (forall k :: 0 <= k < |txs| ==> WellPriced(txs[k])) && t < |txs|
    requires forall i, j :: 0 <= i < j < |addresses| ==> addresses[i] != addresses[j]
    ensures SumDeltas(env, txs, addresses, t + 1) == SumDeltas(env, txs, addresses, t)
              + (if txs[t].to in addresses then txs[t].value else 0)
              + (if env.coinbase in addresses then RewardOf(env, txs[t]) else 0)
              - (if txs[t].caller in addresses then Fee(env, txs[t]) + txs[t].value else 0)
  {
    if addresses != [] {
      var rest := addresses[1..];
      assert forall i :: 0 <= i < |rest| ==> rest[i] == addresses[i + 1];
      assert addresses[0] !in rest;
      assert forall a :: a in addresses <==> a == addresses[0] || a in rest;
      DeltasOfOne(env, txs, rest, t);
    }
  }
}
