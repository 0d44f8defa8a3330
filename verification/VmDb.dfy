/** The tracked reads of one execution, with the loops the code runs, proved against
    the reads of the multi-version store as a value. */
module VmDatabase {
  import opened Types
  import opened LazyBalances
  import opened MultiVersion

  // ---------- From entry to entry ----------

  /** What a walk yields that has already collected these origins and writes. */
  function Prepend(os: Origins, ws: seq<Write>, rest: Chain): Chain {
    match rest
    case BlockedAt(on) => rest
    case Chain(os', ws') => Chain(os + os', ws + ws')
  }

  function PrependRead(os: Origins, rest: ReadResult): ReadResult {
    match rest
    case Got(os', v) => Got(os + os', v)
    case _ => rest
  }

  /** A walk jumps from entry to entry. */
  lemma {:induction false} WalkFromClosest(c: Column, t: nat)
    ensures Walk(c, t) ==
            match Closest(c, t)
            case None => Chain([Storage], [])
            case Some(j) =>
              match c[j]
              case Estimate => BlockedAt(j)
              case Data(i, w) =>
                var o := MvMemory(TxVersion(j, i));
                if w.Strict? then Chain([o], [w]) else Prepend([o], [w], Walk(c, j))
  {
    if t > 0 && t - 1 !in c { WalkFromClosest(c, t - 1); }
  }

  lemma {:induction false} RewalkFromClosest(c: Column, t: nat, prev: Origins)
    ensures Rewalk(c, t, prev) ==
            match Closest(c, t)
            case None => if prev == [Storage] then Got([Storage], Absent) else Inconsistent
            case Some(j) =>
              match c[j]
              case Estimate => Blocked(j)
              case Data(i, w) =>
                var o := MvMemory(TxVersion(j, i));
                if prev == [] || prev[0] != o then Inconsistent
                else if w.Strict? then Got([o], Absent)
                else PrependRead([o], Rewalk(c, j, prev[1..]))
  {
    if t > 0 && t - 1 !in c { RewalkFromClosest(c, t - 1, prev); }
  }

  /** Counting a chain can pause after its lazy head. */
  lemma {:induction false} CountAllSplit(ws: seq<Write>, rest: seq<Write>, t: Tally)
    requires forall i :: 0 <= i < |ws| ==> IsLazy(ws[i])
    ensures CountAll(ws + rest, t) == CountAll(rest, CountAll(ws, t))
    ensures StrictEnd(ws + rest) == StrictEnd(rest)
  {
    if ws == [] {
      assert ws + rest == rest;
    } else {
      assert (ws + rest)[1..] == ws[1..] + rest;
      CountAllSplit(ws[1..], rest, Count(t, ws[0]));
    }
  }

  lemma CountOneMore(ws: seq<Write>, w: Write, t: Tally)
    requires forall i :: 0 <= i < |ws| ==> IsLazy(ws[i])
    requires IsLazy(w)
    ensures CountAll(ws + [w], t) == Count(CountAll(ws, t), w)
  {
    CountAllSplit(ws, [w], t);
    assert [w][1..] == [];
  }

  // ---------- Reading ----------

  /** The outcome of a read, where a value of the wrong kind is an error of its own. */
  datatype Fetch = Fetched(result: ReadResult) | InvalidType

  /** All strict values below t are accounts. */
  predicate HoldsAccounts(c: Column, t: nat) {
    forall j :: j in c && j < t && c[j].Data? && c[j].write.Strict? ==> c[j].write.value.Account?
  }

  predicate HoldsWords(c: Column, t: nat) {
    forall j :: j in c && j < t && c[j].Data? ==> c[j].write.Strict? && c[j].write.value.Word?
  }

  predicate HoldsHashes(c: Column, t: nat) {
    forall j :: j in c && j < t && c[j].Data? ==>
      c[j].write.Strict? && c[j].write.value.Code? && c[j].write.value.hash.Some?
  }

  /** Nobody tells an unknown account from an empty one. */
  function Seen(r: ReadResult): ReadResult {
    match r case Got(os, v) => Got(os, Observed(v)) case _ => r
  }

  /** One lazy write counted into the running sum, in the branches of the code. */
  method Accumulate(magnitude: U256, positive: bool, nonces: nat, w: Write) returns (m: U256, p: bool, n: nat)
    requires IsLazy(w)
    ensures Tally(m, p, n) == Count(Tally(magnitude, positive, nonces), w)
  {
    m, p, n := magnitude, positive, nonces;
    match w {
      case LazyRecipient(a) =>
        if p {
          m := SaturatingAdd(m, a);
        } else {
          p := a >= m;
          m := AbsDiff(m, a);
        }
      case LazySender(a) =>
        if p {
          p := m >= a;
          m := AbsDiff(m, a);
        } else {
          m := SaturatingAdd(m, a);
        }
        n := n + 1;
    }
  }

  /** A reader of t has come down to this index, having collected these origins and
      these lazy writes, and has found no difference to its earlier origins. */
  ghost predicate Descending(c: Column, t: nat, prev: Origins, os: Origins, ws: seq<Write>, below: nat) {
    && below <= t
    && (forall i :: 0 <= i < |ws| ==> IsLazy(ws[i]))
    && Walk(c, t) == Prepend(os, ws, Walk(c, below))
    && (prev != [] ==>
          && |os| <= |prev| && os == prev[..|os|]
          && Rewalk(c, t, prev) == PrependRead(os, Rewalk(c, below, prev[|os|..])))
  }

  /** The reader has met this strict value, or storage. */
  ghost predicate Landed(c: Column, t: nat, prev: Origins, os: Origins, ws: seq<Write>, end: Option<Value>) {
    && (forall i :: 0 <= i < |ws| ==> IsLazy(ws[i]))
    && (prev != [] ==> |os| <= |prev| && os == prev[..|os|])
    && match end
       case Some(v) =>
         && Walk(c, t) == Chain(os, ws + [Strict(v)])
         && (prev != [] ==> Rewalk(c, t, prev) == Got(os, Absent))
       case None =>
         && Walk(c, t) == Chain(os + [Storage], ws)
         && (prev != [] ==> Rewalk(c, t, prev) ==
                            if prev[|os|..] == [Storage] then Got(os + [Storage], Absent) else Inconsistent)
  }

  lemma DescendOne(c: Column, t: nat, prev: Origins, os: Origins, ws: seq<Write>, below: nat)
    requires Descending(c, t, prev, os, ws, below)
    ensures match Closest(c, below)
            case None => Landed(c, t, prev, os, ws, None)
            case Some(j) =>
              match c[j]
              case Estimate => ReadBasic(c, Absent, t, prev) == Blocked(j)
              case Data(i, w) =>
                var o := MvMemory(TxVersion(j, i));
                if prev != [] && (|prev| == |os| || prev[|os|] != o) then Rewalk(c, t, prev) == Inconsistent
                else if w.Strict? then Landed(c, t, prev, os + [o], ws, Some(w.value))
                else Descending(c, t, prev, os + [o], ws + [w], j)
  {
    WalkFromClosest(c, below);
    if prev != [] { RewalkFromClosest(c, below, prev[|os|..]); }
    var next := Closest(c, below);
    if next.Some? && c[next.value].Data? {
      var j, w := next.value, c[next.value].write;
      var o := MvMemory(TxVersion(j, c[j].incarnation));
      OneEntryDown(os, ws, o, w, Walk(c, j));
      if prev != [] && |os| < |prev| && prev[|os|] == o {
        assert prev[|os|..][1..] == prev[|os| + 1..];
        OneRereadDown(os, o, Rewalk(c, j, prev[|os| + 1..]));
      }
    }
  }

  /** The account read off a finished descent. */
  method SettleAccount(stored: Value, prev: Origins, os: Origins, magnitude: U256, positive: bool, nonces: nat, end: Option<Value>,
                       ghost c: Column, ghost t: nat, ghost ws: seq<Write>)
    returns (r: ReadResult)
    requires stored.Account? || stored.Absent?
    requires end.Some? ==> end.value.Account?
    requires Landed(c, t, prev, os, ws, end) && Tally(magnitude, positive, nonces) == CountAll(ws, NOTHING)
    ensures Seen(r) == ReadBasic(c, stored, t, prev)
    ensures r.Got? ==> Walk(c, t).Chain? && r.value == Backward(Walk(c, t).writes, stored)
  {
    var origins, final := os, end;
    if final.None? {
      if prev == [] {
        origins := origins + [Storage];
      } else if |prev| != |origins| + 1 || prev[|prev| - 1] != Storage {
        return Inconsistent;
      }
      final := if stored.Account? then Some(stored) else if magnitude > 0 then Some(Account(0, 0)) else None;
      CountAllSplit(ws, [], NOTHING);
      assert ws + [] == ws;
    } else {
      CountAllSplit(ws, [Strict(final.value)], NOTHING);
    }
    if prev != [] {
      origins := prev;
    }
    if final.None? {
      return Got(origins, Absent);
    }
    var balance := if positive then SaturatingAdd(final.value.balance, magnitude) else SaturatingSub(final.value.balance, magnitude);
    return Got(origins, Account(balance, final.value.nonce + nonces));
  }

  /** The loop of an account read: walk down the entries, compare every origin with the
      earlier read, if there was one, and keep a running sum with a sign. */
  method FetchAccount(c: Column, stored: Value, t: nat, prev: Origins) returns (r: Fetch)
    requires stored.Account? || stored.Absent?
    ensures r.Fetched? ==> Seen(r.result) == ReadBasic(c, stored, t, prev)
    ensures r.Fetched? && r.result.Got? ==> Walk(c, t).Chain? && r.result.value == Backward(Walk(c, t).writes, stored)
    ensures r.InvalidType? ==> !HoldsAccounts(c, t)
  {
    var origins: Origins := [];
    var magnitude: U256, positive: bool, nonces: nat := 0, true, 0;
    var final: Option<Value> := None;
    var below: nat, more := t, true;
    ghost var counted: seq<Write> := [];
    assert Descending(c, t, prev, [], [], t) by {
      assert prev[0..] == prev;
    }
    while more
      invariant below <= t && Tally(magnitude, positive, nonces) == CountAll(counted, NOTHING)
      invariant more ==> Descending(c, t, prev, origins, counted, below)
      invariant !more ==> Landed(c, t, prev, origins, counted, final)
      invariant final.Some? ==> final.value.Account?
      decreases more, below
    {
      DescendOne(c, t, prev, origins, counted, below);
      var next := Closest(c, below);
      if next.None? {
        final, more := None, false;
      } else {
        match c[next.value] {
          case Estimate =>
            return Fetched(Blocked(next.value));
          case Data(i, w) =>
            var origin := MvMemory(TxVersion(next.value, i));
            if prev != [] && |prev| == |origins| {
              return Fetched(Inconsistent);
            }
            if prev != [] && prev[|origins|] != origin {
              return Fetched(Inconsistent);
            }
            origins := origins + [origin];
            match w {
              case Strict(v) =>
                if !v.Account? {
                  return InvalidType;
                }
                final, more := Some(v), false;
              case _ =>
                CountOneMore(counted, w, NOTHING);
                magnitude, positive, nonces := Accumulate(magnitude, positive, nonces, w);
                counted := counted + [w];
                below := next.value;
            }
        }
      }
    }
    var result := SettleAccount(stored, prev, origins, magnitude, positive, nonces, final, c, t, counted);
    return Fetched(result);
  }

  lemma OneEntryDown(os: Origins, ws: seq<Write>, o: Origin, w: Write, rest: Chain)
    ensures Prepend(os, ws, Prepend([o], [w], rest)) == Prepend(os + [o], ws + [w], rest)
  {
    if rest.Chain? {
      assert os + ([o] + rest.origins) == (os + [o]) + rest.origins;
      assert ws + ([w] + rest.writes) == (ws + [w]) + rest.writes;
    }
  }

  lemma OneRereadDown(os: Origins, o: Origin, rest: ReadResult)
    ensures PrependRead(os, PrependRead([o], rest)) == PrependRead(os + [o], rest)
  {
    if rest.Got? {
      assert os + ([o] + rest.origins) == (os + [o]) + rest.origins;
    }
  }

  // ---------- The database of one execution ----------

  /** An account as the virtual machine gets to see it. */
  datatype AccountRead =
    | Info(balance: U256, nonce: nat, codeHash: Option<nat>)
    | Unknown
    | Waits(on: nat)
    | Retries
    | InvalidNonce
    | WrongType

  class VmDb {
    const tx: nat
    const caller: nat
    const recipient: Option<nat>
    const nonce: Option<nat>
    var toCodeHash: Option<nat>
    var isLazy: bool
    var readSet: ReadSet
    var readAccounts: map<nat, (Value, Option<nat>)>

    constructor (tx: nat, caller: nat, recipient: Option<nat>, nonce: Option<nat>)
      ensures this.tx == tx && this.caller == caller && this.recipient == recipient && this.nonce == nonce
      ensures toCodeHash == None && !isLazy && readSet == map[] && readAccounts == map[]
    {
      this.tx, this.caller, this.recipient, this.nonce := tx, caller, recipient, nonce;
      toCodeHash, isLazy, readSet, readAccounts := None, false, map[], map[];
    }

    /** Decide, once, whether to update lazily: a transfer to an account without code,
        one side of which the store knows by now. */
    method Open(store: Store, storedHash: Option<nat>) returns (r: Fetch)
      requires !isLazy
      modifies this`readSet, this`toCodeHash, this`isLazy
      ensures recipient.None? ==> !isLazy && readSet == old(readSet) && toCodeHash == old(toCodeHash)
      ensures recipient.Some? ==>
        var l := CodeHash(recipient.value);
        && r.Fetched?
        && (HoldsHashes(ColumnOf(store, l), tx) ==>
              r.result == ReadCodeHash(ColumnOf(store, l), Code(storedHash), tx, Previous(old(readSet), l)))
        && readSet == (if r.result.Got? then old(readSet)[l := r.result.origins] else old(readSet))
        && (r.result.Got? ==> r.result.value == Code(toCodeHash))
        && (!r.result.Got? ==> toCodeHash == old(toCodeHash))
        && (isLazy <==> r.result.Got? && toCodeHash.None? && (Basic(caller) in store || Basic(recipient.value) in store))
    {
      r := Fetched(Got([Storage], Code(None)));
      if recipient.Some? {
        r := GetCodeHash(store, storedHash, recipient.value);
        if r.Fetched? && r.result.Got? {
          toCodeHash := r.result.value.hash;
          isLazy := toCodeHash.None? && (Basic(caller) in store || Basic(recipient.value) in store);
        }
      }
    }

    /** Keep the origins of a read that succeeded. */
    method Keep(l: Loc, result: ReadResult) returns (r: Fetch)
      modifies this`readSet
      ensures r == Fetched(result)
      ensures readSet == if result.Got? then old(readSet)[l := result.origins] else old(readSet)
    {
      if result.Got? {
        readSet := readSet[l := result.origins];
      }
      return Fetched(result);
    }

    method GetCodeHash(store: Store, stored: Option<nat>, address: nat) returns (r: Fetch)
      modifies this`readSet
      ensures r.Fetched? && (r.result.Got? ==> r.result.value.Code? && r.result.origins != [])
      ensures readSet == if r.result.Got? then old(readSet)[CodeHash(address) := r.result.origins] else old(readSet)
      ensures HoldsHashes(ColumnOf(store, CodeHash(address)), tx) ==>
                r.result == ReadCodeHash(ColumnOf(store, CodeHash(address)), Code(stored), tx,
                                         Previous(old(readSet), CodeHash(address)))
      ensures r.result.Got? && Previous(old(readSet), CodeHash(address)) != [] ==> readSet == old(readSet)
    {
      var l := CodeHash(address);
      var c, prev := ColumnOf(store, l), Previous(readSet, l);
      var next := Closest(c, tx);
      if next.Some? && c[next.value].Data? {
        var version := TxVersion(next.value, c[next.value].incarnation);
        match c[next.value].write {
          case Strict(Code(Some(hash))) =>
            r := Keep(l, PushOrigin(prev, MvMemory(version), Code(Some(hash))));
            return;
          case _ =>
        }
      }
      r := Keep(l, PushOrigin(prev, Storage, Code(stored)));
    }

    method ReadStorage(store: Store, stored: nat, address: nat, key: nat) returns (r: Fetch)
      modifies this`readSet
      ensures r.InvalidType? ==> !HoldsWords(ColumnOf(store, Slot(address, key)), tx) && readSet == old(readSet)
      ensures r.Fetched? ==>
        && r.result == ReadSlot(ColumnOf(store, Slot(address, key)), Word(stored), tx, Previous(old(readSet), Slot(address, key)))
        && (r.result.Got? ==> r.result.value.Word?)
        && readSet == if r.result.Got? then old(readSet)[Slot(address, key) := r.result.origins] else old(readSet)
    {
      var l := Slot(address, key);
      var c, prev := ColumnOf(store, l), Previous(readSet, l);
      var next := Closest(c, tx);
      if next.Some? {
        match c[next.value] {
          case Data(i, Strict(Word(word))) =>
            r := Keep(l, PushOrigin(prev, MvMemory(TxVersion(next.value, i)), Word(word)));
            return;
          case Estimate =>
            r := Keep(l, Blocked(next.value));
            return;
          case _ =>
            return InvalidType;
        }
      }
      r := Keep(l, PushOrigin(prev, Storage, Word(stored)));
    }

    /** The virtual machine gets a mock: this side of a lazy transfer is not looked up. */
    predicate IsMocked(address: nat)
      reads this`isLazy
    {
      isLazy && (address == caller || recipient == Some(address))
    }

    /** Read an account. A lazy transfer gets mocks for its two sides and records no
        origin for them. Otherwise the balance and nonce are those of the store below
        this transaction, the origins of a first read are recorded, and those of a
        later read are the same. A sender whose nonce is not the one the transaction
        names waits for the transaction before. Only the account and its code hash are
        recorded as read, and what was read before stays. */
    method ReadAccount(store: Store, stored: Value, storedHash: Option<nat>, address: nat) returns (r: AccountRead)
      requires stored.Account? || stored.Absent?
      modifies this`readSet, this`readAccounts
      ensures isLazy && address == caller ==> r == Info(MAX_U256, if nonce.Some? then nonce.value else 1, None)
      ensures isLazy && address != caller && recipient == Some(address) ==> r == Unknown
      ensures IsMocked(address) ==> readSet == old(readSet) && readAccounts == old(readAccounts)
      ensures !IsMocked(address) ==>
        var c := ColumnOf(store, Basic(address));
        var spec := ReadBasic(c, stored, tx, Previous(old(readSet), Basic(address)));
        && (r.WrongType? ==> !HoldsAccounts(c, tx))
        && (spec.Blocked? && !r.WrongType? ==> r == Waits(spec.on))
        && (spec.Inconsistent? && !r.WrongType? ==> r == Retries)
        && (spec.Got? && !r.WrongType? ==>
              var account, code := Backward(Walk(c, tx).writes, stored), ColumnOf(store, CodeHash(address));
              var unexpected := account.Account? && address == caller && nonce.Some? && nonce.value != account.nonce;
              && (account.Absent? || account.Account?)
              && (r.Unknown? <==> account.Absent?)
              && (unexpected ==> r == if tx > 0 then Waits(tx - 1) else InvalidNonce)
              && (account.Account? && !unexpected ==> r.Retries? || (r.Info? && Account(r.balance, r.nonce) == account))
              && (account.Account? && !unexpected && recipient == Some(address) ==> r.Info? && r.codeHash == toCodeHash)
              && (account.Account? && !unexpected && recipient != Some(address) && HoldsHashes(code, tx) ==>
                    match ReadCodeHash(code, Code(storedHash), tx, Previous(old(readSet), CodeHash(address)))
                    case Got(_, Code(hash)) => r.Info? && r.codeHash == hash
                    case _ => r.Retries?))
        && readAccounts == (if r.Info? then old(readAccounts)[address := (Account(r.balance, r.nonce), r.codeHash)] else old(readAccounts))
        && (forall l :: l != Basic(address) && l != CodeHash(address) ==>
              (l in readSet <==> l in old(readSet)) && Previous(readSet, l) == Previous(old(readSet), l))
        && (spec.Got? && !r.WrongType? ==> Basic(address) in readSet && readSet[Basic(address)] == spec.origins)
        && (!spec.Got? || r.WrongType? ==> readSet == old(readSet))
        && (r.Unknown? || recipient == Some(address) ==>
              Previous(readSet, CodeHash(address)) == Previous(old(readSet), CodeHash(address)))
        && (r.Info? && recipient != Some(address) ==>
              && CodeHash(address) in readSet
              && var code := ColumnOf(store, CodeHash(address));
                 HoldsHashes(code, tx) ==>
                   var hash := ReadCodeHash(code, Code(storedHash), tx, Previous(old(readSet), CodeHash(address)));
                   hash.Got? && readSet[CodeHash(address)] == hash.origins)
    {
      if isLazy {
        if address == caller {
          return Info(MAX_U256, if nonce.Some? then nonce.value else 1, None);
        } else if recipient == Some(address) {
          return Unknown;
        }
      }
      var l := Basic(address);
      var fetch := FetchAccount(ColumnOf(store, l), stored, tx, Previous(readSet, l));
      if fetch.InvalidType? {
        return WrongType;
      }
      match fetch.result {
        case Blocked(on) => return Waits(on);
        case Inconsistent => return Retries;
        case Got(origins, account) =>
          readSet := readSet[l := origins];
          if account.Absent? {
            return Unknown;
          }
          if address == caller && nonce.Some? && nonce.value != account.nonce {
            return if tx > 0 then Waits(tx - 1) else InvalidNonce;
          }
          var codeHash := toCodeHash;
          if recipient != Some(address) {
            var code := GetCodeHash(store, storedHash, address);
            if !code.result.Got? {
              return Retries;
            }
            codeHash := code.result.value.hash;
          }
          readAccounts := readAccounts[address := (account, codeHash)];
          return Info(account.balance, account.nonce, codeHash);
      }
    }
  }
}
