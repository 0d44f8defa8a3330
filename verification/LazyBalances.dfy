/** Lazy balances. A location may hold a chain of balance changes that nobody has
    worked out yet. A reader walks such a chain backwards, keeping a magnitude and a
    sign, until it finds a strict value or falls back to storage. The end of a block
    walks the same chain forwards. This module states both walks and proves when
    they agree. */
module LazyBalances {
  import opened Types

  const MAX_U256: U256 := TWO_TO_THE_256 - 1

  function SaturatingAdd(a: U256, b: U256): U256 {
    if a + b < TWO_TO_THE_256 then a + b else MAX_U256
  }

  function SaturatingSub(a: U256, b: U256): U256 {
    if b <= a then a - b else 0
  }

  function AbsDiff(a: U256, b: U256): U256 {
    if a < b then b - a else a - b
  }

  /** Sums and differences as near as 256 bits get to them. */
  lemma SaturationClamps(a: U256, b: U256)
    ensures SaturatingAdd(a, b) <= a + b && (SaturatingAdd(a, b) == a + b || SaturatingAdd(a, b) == TWO_TO_THE_256 - 1)
    ensures SaturatingSub(a, b) >= a - b && (SaturatingSub(a, b) == a - b || SaturatingSub(a, b) == 0)
    ensures AbsDiff(a, b) == a - b || AbsDiff(a, b) == b - a
  {
  }

  /** Nobody tells an account that does not exist from an empty one. */
  function Observed(v: Value): Value {
    if v.Absent? then Account(0, 0) else v
  }

  function BalanceOf(v: Value): U256 {
    if v.Account? then v.balance else 0
  }

  function NonceOf(v: Value): nat {
    if v.Account? then v.nonce else 0
  }

  /** One write on top of what the location held before it. */
  function Apply(w: Write, v: Value): Value {
    match w
    case Strict(x) => x
    case LazyRecipient(a) => Account(SaturatingAdd(BalanceOf(v), a), NonceOf(v))
    case LazySender(a) => Account(SaturatingSub(BalanceOf(v), a), NonceOf(v) + 1)
  }

  /** The write neither overflows nor overdraws. */
  predicate InRange(w: Write, v: Value) {
    match w
    case Strict(_) => true
    case LazyRecipient(a) => BalanceOf(v) + a < TWO_TO_THE_256
    case LazySender(a) => a <= BalanceOf(v)
  }

  // ---------- The forward fold ----------

  /** A chain, newest write first, evaluated from the oldest write on. */
  function Forward(chain: seq<Write>, base: Value): Value {
    if chain == [] then base else Apply(chain[0], Forward(chain[1..], base))
  }

  /** No step of the forward fold saturates. */
  predicate StaysInRange(chain: seq<Write>, base: Value) {
    chain == [] || (StaysInRange(chain[1..], base) && InRange(chain[0], Forward(chain[1..], base)))
  }

  // ---------- The backward walk ----------

  /** The running sum of a reader: how much is still to be added to, or (when not
      positive) taken from, whatever value ends the chain. */
  datatype Tally = Tally(magnitude: U256, positive: bool, nonces: nat)

  const NOTHING := Tally(0, true, 0)

  function Signed(t: Tally): int {
    if t.positive then t.magnitude else 0 - t.magnitude
  }

  function Count(t: Tally, w: Write): Tally
    requires IsLazy(w)
  {
    match w
    case LazyRecipient(a) =>
      if t.positive then t.(magnitude := SaturatingAdd(t.magnitude, a))
      else Tally(AbsDiff(t.magnitude, a), a >= t.magnitude, t.nonces)
    case LazySender(a) =>
      if t.positive then Tally(AbsDiff(t.magnitude, a), t.magnitude >= a, t.nonces + 1)
      else Tally(SaturatingAdd(t.magnitude, a), false, t.nonces + 1)
  }

  /** The tally after the lazy writes at the head of the chain. */
  function CountAll(chain: seq<Write>, t: Tally): Tally {
    if chain == [] || chain[0].Strict? then t else CountAll(chain[1..], Count(t, chain[0]))
  }

  /** The strict value that ends the walk, if there is one. */
  function StrictEnd(chain: seq<Write>): Option<Value> {
    if chain == [] then None
    else if chain[0].Strict? then Some(chain[0].value)
    else StrictEnd(chain[1..])
  }

  /** The account a reader makes of a finished walk. An account unknown to storage
      comes to life only when the magnitude is not zero. */
  function Settle(t: Tally, end: Option<Value>, stored: Value): Value {
    if end.None? && stored.Absent? && t.magnitude == 0 then Absent
    else
      var account := match end case Some(v) => v case None => stored;
      Account(
        if t.positive then SaturatingAdd(BalanceOf(account), t.magnitude)
        else SaturatingSub(BalanceOf(account), t.magnitude),
        NonceOf(account) + t.nonces)
  }

  function Backward(chain: seq<Write>, stored: Value): Value {
    Settle(CountAll(chain, NOTHING), StrictEnd(chain), stored)
  }

  // ---------- When the two agree ----------

  /** Chains of account writes: every strict value is an account, and nothing lies
      beyond it. */
  predicate AccountChain(chain: seq<Write>) {
    forall i :: 0 <= i < |chain| ==> chain[i].Strict? ==> chain[i].value.Account? && i == |chain| - 1
  }

  /** What the lazy writes of a chain add up to. */
  function Net(chain: seq<Write>): int {
    if chain == [] then 0
    else Net(chain[1..]) +
         match chain[0] { case Strict(_) => 0 case LazyRecipient(a) => a case LazySender(a) => 0 - a }
  }

  /** A new account that has sent, and whose changes cancel out exactly. */
  predicate Drained(chain: seq<Write>, stored: Value) {
    && stored.Absent?
    && (forall i :: 0 <= i < |chain| ==> IsLazy(chain[i]))
    && Net(chain) == 0
    && (exists i :: 0 <= i < |chain| && chain[i].LazySender?)
  }

  /** The heart of the matter: as long as the forward fold stays in range, so does
      every step of the backward walk, and what is left to add always accounts for
      the difference between the newest balance and the one reached so far. */
  lemma {:induction false} WalkIsExact(chain: seq<Write>, t: Tally, base: Value)
    requires AccountChain(chain) && base.Account? && StaysInRange(chain, base)
    requires 0 <= BalanceOf(Forward(chain, base)) + Signed(t) < TWO_TO_THE_256
    ensures
      var t' := CountAll(chain, t);
      var start := match StrictEnd(chain) case Some(v) => v case None => base;
      && start.Account?
      && BalanceOf(start) + Signed(t') == BalanceOf(Forward(chain, base)) + Signed(t)
      && NonceOf(start) + t'.nonces == NonceOf(Forward(chain, base)) + t.nonces
  {
    if chain != [] && IsLazy(chain[0]) {
      var rest := chain[1..];
      assert AccountChain(rest) by {
        assert forall i :: 0 <= i < |rest| ==> rest[i] == chain[i + 1];
      }
      ForwardIsAccount(rest, base);
      WalkIsExact(rest, Count(t, chain[0]), base);
    }
  }

  lemma {:induction false} ForwardIsAccount(chain: seq<Write>, base: Value)
    requires AccountChain(chain) && base.Account?
    ensures Forward(chain, base).Account?
  {
    if chain != [] {
      assert forall i :: 0 <= i < |chain[1..]| ==> chain[1..][i] == chain[i + 1];
      ForwardIsAccount(chain[1..], base);
    }
  }

  /** For lazy chains, the fold is the base plus the net amount and one nonce a sender. */
  lemma {:induction false} ForwardIsNet(chain: seq<Write>, base: Value)
    requires forall i :: 0 <= i < |chain| ==> IsLazy(chain[i])
    requires base.Account? && StaysInRange(chain, base)
    ensures Forward(chain, base).Account?
    ensures BalanceOf(Forward(chain, base)) == base.balance + Net(chain)
    ensures NonceOf(Forward(chain, base)) >= base.nonce
    ensures NonceOf(Forward(chain, base)) > base.nonce <==> exists i :: 0 <= i < |chain| && chain[i].LazySender?
  {
    if chain != [] {
      var rest := chain[1..];
      assert forall i :: 0 <= i < |rest| ==> rest[i] == chain[i + 1];
      ForwardIsNet(rest, base);
      if i :| 0 <= i < |chain| && chain[i].LazySender? && !chain[0].LazySender? {
        assert rest[i - 1] == chain[i];
      }
      if j :| 0 <= j < |rest| && rest[j].LazySender? {
        assert chain[j + 1].LazySender?;
      }
    }
  }

  lemma DrainedForward(chain: seq<Write>, stored: Value)
    requires Drained(chain, stored) && StaysInRange(chain, Observed(stored))
    ensures BalanceOf(Forward(chain, Observed(stored))) == 0 && NonceOf(Forward(chain, Observed(stored))) > 0
  {
    ForwardIsNet(chain, Observed(stored));
  }

  lemma {:induction false} StrictEndIsLast(chain: seq<Write>)
    requires AccountChain(chain)
    ensures StrictEnd(chain).None? <==> forall i :: 0 <= i < |chain| ==> IsLazy(chain[i])
  {
    if chain != [] && IsLazy(chain[0]) {
      var rest := chain[1..];
      assert forall i :: 0 <= i < |rest| ==> rest[i] == chain[i + 1];
      StrictEndIsLast(rest);
      if StrictEnd(chain).None? {
        forall i | 0 <= i < |chain| ensures IsLazy(chain[i]) {
          if i > 0 { assert rest[i - 1] == chain[i]; }
        }
      }
    }
  }

  /** The backward walk gives the balance and the nonce of the forward fold, unless
      the chain drains an account that storage does not know: then the reader
      reports no account at all, and the nonce is lost. */
  lemma BackwardMeetsForward(chain: seq<Write>, stored: Value)
    requires AccountChain(chain) && (stored.Account? || stored.Absent?)
    requires StaysInRange(chain, Observed(stored))
    ensures Observed(Backward(chain, stored)) == Forward(chain, Observed(stored))
            <==> !Drained(chain, stored)
    ensures Drained(chain, stored) ==> Backward(chain, stored) == Absent
  {
    var base := Observed(stored);
    ForwardIsAccount(chain, base);
    WalkIsExact(chain, NOTHING, base);
    StrictEndIsLast(chain);
    if StrictEnd(chain).None? {
      ForwardIsNet(chain, base);
    }
  }

  /** The smallest block that shows it: a new account receives five and sends five. */
  lemma DrainedAccountIsLost()
    ensures
      var chain := [LazySender(5), LazyRecipient(5)];
      && StaysInRange(chain, Observed(Absent))
      && Forward(chain, Observed(Absent)) == Account(0, 1)
      && Backward(chain, Absent) == Absent
  {
    var chain := [LazySender(5), LazyRecipient(5)];
    assert chain[1..] == [LazyRecipient(5)];
    assert chain[1..][1..] == [];
    assert Forward(chain[1..], Account(0, 0)) == Account(5, 0);
    var t := Count(NOTHING, chain[0]);
    assert CountAll(chain, NOTHING) == CountAll(chain[1..], t);
    assert CountAll(chain[1..], t) == CountAll(chain[1..][1..], Count(t, chain[1]));
  }

  /** Out of range the walks part as well: an account that holds all there can be receives
      one and then sends one. The fold saturates at the first and loses it; the walk sees
      two changes that cancel out. */
  lemma SaturatedWalksDiffer()
    ensures
      var chain, stored := [LazySender(1), LazyRecipient(1)], Account(MAX_U256, 0);
      && !StaysInRange(chain, stored) && !Drained(chain, stored)
      && Forward(chain, stored) == Account(MAX_U256 - 1, 1)
      && Backward(chain, stored) == Account(MAX_U256, 1)
  {
    var chain, stored := [LazySender(1), LazyRecipient(1)], Account(MAX_U256, 0);
    assert chain[1..] == [LazyRecipient(1)] && chain[1..][1..] == [];
    assert Forward(chain[1..], stored) == Account(MAX_U256, 0);
    var t := Count(NOTHING, chain[0]);
    assert CountAll(chain, NOTHING) == CountAll(chain[1..], t);
    assert CountAll(chain[1..], t) == CountAll(chain[1..][1..], Count(t, chain[1]));
  }
}
