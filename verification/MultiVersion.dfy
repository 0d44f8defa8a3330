/** The multi-version store as a value: what a reader below a transaction finds, what
    a second read of the same location accepts, and what validation accepts. */
module MultiVersion {
  import opened Types
  import opened LazyBalances

  function ColumnOf(store: Store, l: Loc): Column {
    if l in store then store[l] else map[]
  }

  function EntryAt(store: Store, l: Loc, t: nat): Option<Entry> {
    if l in store && t in store[l] then Some(store[l][t]) else None
  }

  function SetEntry(store: Store, l: Loc, t: nat, e: Entry): (r: Store)
    ensures forall k, j :: EntryAt(r, k, j) == if k == l && j == t then Some(e) else EntryAt(store, k, j)
  {
    store[l := ColumnOf(store, l)[t := e]]
  }

  function RemoveEntry(store: Store, l: Loc, t: nat): (r: Store)
    ensures forall k, j :: EntryAt(r, k, j) == if k == l && j == t then None else EntryAt(store, k, j)
  {
    if l in store then store[l := store[l] - {t}] else store
  }

  /** The value of a location just below transaction t: all lower writes, in order. */
  function ValueBelow(c: Column, base: Value, t: nat): Value {
    if t == 0 then base
    else if t - 1 in c && c[t - 1].Data? then Apply(c[t - 1].write, ValueBelow(c, base, t - 1))
    else ValueBelow(c, base, t - 1)
  }

  // ---------- Reading ----------

  /** The origins of the earlier reads of a location, none if there was none. */
  function Previous(readSet: ReadSet, l: Loc): Origins {
    if l in readSet then readSet[l] else []
  }

  /** What a reader of transaction t collects on its way down a column. */
  datatype Chain = BlockedAt(on: nat) | Chain(origins: Origins, writes: seq<Write>)

  function Walk(c: Column, t: nat): (r: Chain)
    ensures r.BlockedAt? ==> r.on < t
    ensures r.Chain? ==> r.origins != []
  {
    if t == 0 then Chain([Storage], [])
    else if t - 1 !in c then Walk(c, t - 1)
    else
      match c[t - 1]
      case Estimate => BlockedAt(t - 1)
      case Data(i, w) =>
        var o := MvMemory(TxVersion(t - 1, i));
        if w.Strict? then Chain([o], [w])
        else
          match Walk(c, t - 1)
          case BlockedAt(on) => BlockedAt(on)
          case Chain(os, ws) => Chain([o] + os, [w] + ws)
  }

  /** The entry a reader of transaction t meets first. */
  function Closest(c: Column, t: nat): (r: Option<nat>)
    ensures r.Some? ==> r.value < t && r.value in c && forall j :: r.value < j < t ==> j !in c
    ensures r.None? ==> forall j :: 0 <= j < t ==> j !in c
  {
    if t == 0 then None else if t - 1 in c then Some(t - 1) else Closest(c, t - 1)
  }

  /** The outcome of one read by a running transaction. */
  datatype ReadResult = Blocked(on: nat) | Inconsistent | Got(origins: Origins, value: Value)

  /** A later read of an account: origins are compared with the earlier ones while
      walking, so an inconsistency may be found before an estimate is. */
  function Rewalk(c: Column, t: nat, prev: Origins): (r: ReadResult)
    ensures r.Blocked? ==> r.on < t
  {
    if t == 0 then (if prev == [Storage] then Got([Storage], Absent) else Inconsistent)
    else if t - 1 !in c then Rewalk(c, t - 1, prev)
    else
      match c[t - 1]
      case Estimate => Blocked(t - 1)
      case Data(i, w) =>
        var o := MvMemory(TxVersion(t - 1, i));
        if prev == [] || prev[0] != o then Inconsistent
        else if w.Strict? then Got([o], Absent)
        else
          match Rewalk(c, t - 1, prev[1..])
          case Got(os, v) => Got([o] + os, v)
          case other => other
  }

  /** A read of an account. An empty prev stands for the first read. */
  function ReadBasic(c: Column, stored: Value, t: nat, prev: Origins): (r: ReadResult)
    ensures r.Blocked? ==> r.on < t
    ensures r.Got? ==> r.origins != []
  {
    if prev != [] && !Rewalk(c, t, prev).Got? then Rewalk(c, t, prev)
    else
      match Walk(c, t)
      case BlockedAt(on) => Blocked(on)
      case Chain(os, ws) => Got(if prev == [] then os else prev, Observed(Backward(ws, stored)))
  }

  /** Only one origin is kept for locations that hold no lazy writes. */
  function PushOrigin(prev: Origins, o: Origin, v: Value): (r: ReadResult)
    ensures r.Got? ==> r.origins != []
  {
    if prev == [] then Got([o], v)
    else if prev[|prev| - 1] != o then Inconsistent
    else Got(prev, v)
  }

  function ReadSlot(c: Column, stored: Value, t: nat, prev: Origins): (r: ReadResult)
    ensures r.Blocked? ==> r.on < t
    ensures r.Got? ==> r.origins != []
  {
    match Closest(c, t)
    case None => PushOrigin(prev, Storage, stored)
    case Some(j) =>
      match c[j]
      case Estimate => Blocked(j)
      case Data(i, w) => PushOrigin(prev, MvMemory(TxVersion(j, i)), Apply(w, stored))
  }

  /** A code hash is read straight from storage when its closest entry is an estimate. */
  function ReadCodeHash(c: Column, stored: Value, t: nat, prev: Origins): (r: ReadResult)
    ensures !r.Blocked?
    ensures r.Got? ==> r.origins != []
  {
    match Closest(c, t)
    case None => PushOrigin(prev, Storage, stored)
    case Some(j) =>
      match c[j]
      case Estimate => PushOrigin(prev, Storage, stored)
      case Data(i, w) => PushOrigin(prev, MvMemory(TxVersion(j, i)), Apply(w, stored))
  }

  function Read(store: Store, l: Loc, stored: Value, t: nat, prev: Origins): (r: ReadResult)
    ensures r.Blocked? ==> r.on < t
    ensures r.Got? ==> r.origins != []
  {
    var c := ColumnOf(store, l);
    match l
    case Basic(_) => ReadBasic(c, stored, t, prev)
    case Slot(_, _) => ReadSlot(c, stored, t, prev)
    case CodeHash(_) => ReadCodeHash(c, stored, t, prev)
  }

  // ---------- What a read says ----------

  /** Nothing between j and t keeps a reader of t from coming down to j. */
  predicate LazyBetween(c: Column, j: nat, t: nat) {
    forall k :: k in c && j < k < t ==> c[k].Data? && IsLazy(c[k].write)
  }

  /** A first read of an account is blocked exactly by the estimate it comes down to, past
      lazy writes only, and it names that one. */
  lemma {:induction false} WalkNamesTheEstimate(c: Column, t: nat, j: nat)
    ensures Walk(c, t) == BlockedAt(j) <==> j < t && j in c && c[j].Estimate? && LazyBetween(c, j, t)
  {
    if t > 0 { WalkNamesTheEstimate(c, t - 1, j); }
  }

  lemma BlockedByTheEstimate(c: Column, stored: Value, t: nat, j: nat)
    ensures ReadBasic(c, stored, t, []) == Blocked(j) <==> j < t && j in c && c[j].Estimate? && LazyBetween(c, j, t)
  {
    WalkNamesTheEstimate(c, t, j);
  }

  /** The entry of j is the next one below t. */
  predicate IsNext(c: Column, j: nat, t: nat) {
    j < t && j in c && forall k :: j < k < t ==> k !in c
  }

  lemma {:induction false} ClosestIsNext(c: Column, t: nat, j: nat)
    ensures Closest(c, t) == Some(j) <==> IsNext(c, j, t)
  {
    if t > 0 && t - 1 !in c { ClosestIsNext(c, t - 1, j); }
  }

  /** What a read of a single origin makes of the origin it finds. */
  predicate IsTracked(r: ReadResult, prev: Origins, o: Origin, v: Value) {
    && (prev == [] ==> r == Got([o], v))
    && (prev != [] && prev[|prev| - 1] == o ==> r == Got(prev, v))
    && (prev != [] && prev[|prev| - 1] != o ==> r == Inconsistent)
  }

  /** A slot is read from the next entry below: an estimate blocks and is named, a write
      gives its value; without an entry, storage does. */
  lemma SlotReadsTheNextEntry(c: Column, stored: Value, t: nat, prev: Origins)
    ensures
      var r := ReadSlot(c, stored, t, prev);
      && (forall j :: IsNext(c, j, t) && c[j].Estimate? ==> r == Blocked(j))
      && (forall j :: IsNext(c, j, t) && c[j].Data? && c[j].write.Strict? ==>
            IsTracked(r, prev, MvMemory(TxVersion(j, c[j].incarnation)), c[j].write.value))
      && ((forall j :: j in c ==> t <= j) ==> IsTracked(r, prev, Storage, stored))
  {
    forall j ensures Closest(c, t) == Some(j) <==> j >= 0 && IsNext(c, j, t) {
      if j >= 0 { ClosestIsNext(c, t, j); }
    }
  }

  /** A code hash is read the same way, but an estimate does not block: it is read from
      storage. */
  lemma CodeHashReadsPastEstimates(c: Column, stored: Value, t: nat, prev: Origins)
    ensures
      var r := ReadCodeHash(c, stored, t, prev);
      && (forall j :: IsNext(c, j, t) && c[j].Estimate? ==> IsTracked(r, prev, Storage, stored))
      && (forall j :: IsNext(c, j, t) && c[j].Data? && c[j].write.Strict? ==>
            IsTracked(r, prev, MvMemory(TxVersion(j, c[j].incarnation)), c[j].write.value))
      && ((forall j :: j in c ==> t <= j) ==> IsTracked(r, prev, Storage, stored))
  {
    forall j ensures Closest(c, t) == Some(j) <==> j >= 0 && IsNext(c, j, t) {
      if j >= 0 { ClosestIsNext(c, t, j); }
    }
  }

  // ---------- Validating ----------

  /** Validation of one location against a column: origins are consumed one entry at
      a time, and entries beyond the last origin are not looked at. */
  predicate ColumnMatches(c: Column, t: nat, os: Origins)
    decreases t, |os|
  {
    if os == [] then true
    else if t == 0 then os[0].Storage? && ColumnMatches(c, 0, os[1..])
    else if t - 1 !in c then ColumnMatches(c, t - 1, os)
    else
      match c[t - 1]
      case Estimate => false
      case Data(i, w) => os[0] == MvMemory(TxVersion(t - 1, i)) && ColumnMatches(c, t - 1, os[1..])
  }

  predicate Matches(store: Store, l: Loc, t: nat, os: Origins) {
    if l in store then ColumnMatches(store[l], t, os) else os == [Storage]
  }

  // ---------- Versions determine values ----------

  /** What each (transaction, incarnation) wrote to one location, for those that did. */
  type Versions = map<TxVersion, Write>

  predicate Agrees(c: Column, versions: Versions) {
    forall j :: j in c && c[j].Data? ==>
      && TxVersion(j, c[j].incarnation) in versions
      && versions[TxVersion(j, c[j].incarnation)] == c[j].write
  }

  /** The writes a list of origins stands for. */
  function WritesOf(versions: Versions, os: Origins): seq<Write>
  {
    if os == [] || os[0].Storage? || os[0].version !in versions then []
    else [versions[os[0].version]] + WritesOf(versions, os[1..])
  }

  /** A complete list of origins: lazy versions, then a strict version or storage,
      at ever lower transactions. */
  predicate Complete(versions: Versions, os: Origins, t: nat) {
    && os != []
    && (match os[0]
        case Storage => |os| == 1
        case MvMemory(v) =>
          && v.tx < t
          && v in versions
          && if versions[v].Strict? then |os| == 1 else Complete(versions, os[1..], v.tx))
  }

  lemma {:induction false} WalkIsComplete(c: Column, t: nat, versions: Versions)
    requires Agrees(c, versions)
    ensures Walk(c, t).Chain? ==>
              Complete(versions, Walk(c, t).origins, t) && WritesOf(versions, Walk(c, t).origins) == Walk(c, t).writes
  {
    if t > 0 {
      WalkIsComplete(c, t - 1, versions);
      if t - 1 !in c {
        if Walk(c, t).Chain? { CompleteHigher(versions, Walk(c, t).origins, t - 1, t); }
      } else {
        match c[t - 1] {
          case Estimate =>
          case Data(i, w) =>
            var o := MvMemory(TxVersion(t - 1, i));
            assert o.version in versions && versions[o.version] == w;
            if w.Strict? {
              assert Walk(c, t).origins[1..] == [];
            } else if Walk(c, t).Chain? {
              assert Walk(c, t).origins[1..] == Walk(c, t - 1).origins;
            }
        }
      }
    }
  }

  lemma CompleteHigher(versions: Versions, os: Origins, t: nat, u: nat)
    requires t <= u && (os == [] || Complete(versions, os, t))
    ensures os == [] || Complete(versions, os, u)
  {
  }

  /** A complete list of origins matches a column exactly when reading it again would
      collect that very list. */
  lemma {:induction false} MatchesExactlyRereads(c: Column, t: nat, os: Origins, versions: Versions)
    requires Agrees(c, versions) && Complete(versions, os, t)
    ensures ColumnMatches(c, t, os) <==> Walk(c, t).Chain? && Walk(c, t).origins == os
    decreases t
  {
    if t > 0 {
      if t - 1 !in c {
        if os[0].Storage? || os[0].version.tx < t - 1 {
          MatchesExactlyRereads(c, t - 1, os, versions);
        } else {
          NoSuchVersion(c, t - 1, os);
        }
      } else if c[t - 1].Data? {
        var o := MvMemory(TxVersion(t - 1, c[t - 1].incarnation));
        if os[0] == o && IsLazy(c[t - 1].write) {
          MatchesExactlyRereads(c, t - 1, os[1..], versions);
          if Walk(c, t).Chain? {
            assert Walk(c, t).origins[1..] == Walk(c, t - 1).origins;
            assert os == [o] + os[1..];
          }
        } else if os[0] == o {
          assert os == [o];
        }
      }
    }
  }

  /** A column without entries from t on neither matches nor yields a version that high. */
  lemma {:induction false} NoSuchVersion(c: Column, t: nat, os: Origins)
    requires os != [] && os[0].MvMemory? && os[0].version.tx >= t
    ensures !ColumnMatches(c, t, os)
    ensures Walk(c, t).Chain? ==> Walk(c, t).origins != os
  {
    if t > 0 && t - 1 !in c {
      NoSuchVersion(c, t - 1, os);
    }
  }

  /** Validation of an account location decides whether reading it again would give
      the same origins. */
  lemma ValidationDecidesRereading(store: Store, l: Loc, t: nat, os: Origins, stored: Value, versions: Versions)
    requires l.Basic? && Agrees(ColumnOf(store, l), versions) && Complete(versions, os, t)
    ensures Matches(store, l, t, os)
            <==> Read(store, l, stored, t, []).Got? && Read(store, l, stored, t, []).origins == os
  {
    MatchesExactlyRereads(ColumnOf(store, l), t, os, versions);
    EmptyColumn(t);
  }

  lemma {:induction false} EmptyColumn(t: nat)
    ensures Walk(map[], t) == Chain([Storage], [])
    ensures Closest(map[], t) == None
  {
    if t > 0 { EmptyColumn(t - 1); }
  }

  /** For locations without lazy writes the walk stops at the closest entry. */
  lemma {:induction false} StrictWalk(c: Column, t: nat)
    requires forall j :: j in c && c[j].Data? ==> c[j].write.Strict?
    ensures match Closest(c, t)
            case None => Walk(c, t) == Chain([Storage], [])
            case Some(j) => match c[j] { case Estimate => Walk(c, t) == BlockedAt(j)
                                        case Data(i, w) => Walk(c, t) == Chain([MvMemory(TxVersion(j, i))], [w]) }
  {
    if t > 0 && t - 1 !in c { StrictWalk(c, t - 1); }
  }

  /** Storage slots: validation decides rereading. Code hashes: a valid location would
      be read the same way again, and below an estimate validation always fails. */
  lemma ValidationOfSingleOrigins(store: Store, l: Loc, t: nat, os: Origins, stored: Value, versions: Versions)
    requires !l.Basic? && Agrees(ColumnOf(store, l), versions) && Complete(versions, os, t)
    requires forall j :: j in ColumnOf(store, l) && ColumnOf(store, l)[j].Data? ==> ColumnOf(store, l)[j].write.Strict?
    ensures var again := Read(store, l, stored, t, []);
            && (l.Slot? ==> (Matches(store, l, t, os) <==> again.Got? && again.origins == os))
            && (l.CodeHash? ==> (Matches(store, l, t, os) <==>
                                 && again.Got? && again.origins == os
                                 && !(Closest(ColumnOf(store, l), t).Some?
                                      && ColumnOf(store, l)[Closest(ColumnOf(store, l), t).value].Estimate?)))
  {
    var c := ColumnOf(store, l);
    MatchesExactlyRereads(c, t, os, versions);
    StrictWalk(c, t);
    EmptyColumn(t);
  }

  /** The origins do not depend on entries from t upwards. */
  lemma {:induction false} MatchesBelow(c: Column, d: Column, t: nat, os: Origins)
    requires forall j :: 0 <= j < t ==> (j in c <==> j in d) && (j in c ==> c[j] == d[j])
    ensures ColumnMatches(c, t, os) == ColumnMatches(d, t, os)
    decreases t, |os|
  {
    if os != [] {
      if t == 0 { MatchesBelow(c, d, 0, os[1..]); }
      else { MatchesBelow(c, d, t - 1, os); MatchesBelow(c, d, t - 1, os[1..]); }
    }
  }

  /** Whatever replaces an estimate, what matched before still matches: nobody can
      have read through it. */
  lemma {:induction false} EstimateIsOpaque(c: Column, d: Column, s: nat, t: nat, os: Origins)
    requires s in c && c[s] == Estimate
    requires forall j :: j != s ==> (j in c <==> j in d) && (j in c ==> c[j] == d[j])
    requires ColumnMatches(c, t, os)
    ensures ColumnMatches(d, t, os)
    decreases t, |os|
  {
    if os != [] {
      if t == 0 { EstimateIsOpaque(c, d, s, 0, os[1..]); }
      else if t - 1 !in c { EstimateIsOpaque(c, d, s, t - 1, os); }
      else if t - 1 != s { EstimateIsOpaque(c, d, s, t - 1, os[1..]); }
    }
  }

  // ---------- Rereading ----------

  /** A second read of an account that is not turned away collects the origins of the
      first: the walk is cut short only by a strict version, which ended the first
      walk as well. */
  lemma {:induction false} RewalkRepeats(c: Column, t: nat, prev: Origins, versions: Versions)
    requires Agrees(c, versions) && Complete(versions, prev, t) && Rewalk(c, t, prev).Got?
    ensures Walk(c, t).Chain? && Walk(c, t).origins == prev
  {
    if t > 0 {
      if t - 1 !in c {
        if prev[0].MvMemory? && prev[0].version.tx == t - 1 {
          NoRewalk(c, t - 1, prev);
        }
        RewalkRepeats(c, t - 1, prev, versions);
      } else {
        var o := MvMemory(TxVersion(t - 1, c[t - 1].incarnation));
        assert prev[0] == o;
        assert prev == [o] + prev[1..];
        if IsLazy(c[t - 1].write) {
          RewalkRepeats(c, t - 1, prev[1..], versions);
        }
      }
    }
  }

  lemma {:induction false} NoRewalk(c: Column, t: nat, prev: Origins)
    requires prev != [] && prev[0].MvMemory? && prev[0].version.tx >= t
    ensures !Rewalk(c, t, prev).Got?
  {
    if t > 0 && t - 1 !in c { NoRewalk(c, t - 1, prev); }
  }
}
