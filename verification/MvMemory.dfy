/** The multi-version memory as the code keeps it: one map of columns, and for every
    transaction the read set and the written locations it recorded last. */
module MultiVersionMemory {
  import opened Types
  import opened MultiVersion
  import opened Engine

  // ---------- Lists of locations ----------

  /** Drop one element by moving the last one into its place. */
  function SwapRemove(list: seq<Loc>, i: nat): seq<Loc>
    requires i < |list|
  {
    list[i := list[|list| - 1]][..|list| - 1]
  }

  lemma SwapRemoveDropsOne(list: seq<Loc>, i: nat)
    requires i < |list| && NoDuplicates(list)
    ensures NoDuplicates(SwapRemove(list, i))
    ensures forall l :: l in SwapRemove(list, i) <==> l in list && l != list[i]
    ensures forall k :: 0 <= k < i ==> k < |SwapRemove(list, i)| && SwapRemove(list, i)[k] == list[k]
  {
    var r := SwapRemove(list, i);
    forall l | l in list && l != list[i] ensures l in r {
      var k :| 0 <= k < |list| && list[k] == l;
      assert r[if k == |list| - 1 then i else k] == l;
    }
  }

  // ---------- Write sets ----------

  /** A write set lists locations with values; a later pair replaces an earlier one. */
  type WriteSet = seq<(Loc, Write)>

  predicate Writes(ws: WriteSet, l: Loc) {
    exists i :: 0 <= i < |ws| && ws[i].0 == l
  }

  function LastWriteTo(ws: WriteSet, l: Loc): (r: Option<Write>)
    ensures r.Some? <==> Writes(ws, l)
  {
    if ws == [] then None
    else if ws[|ws| - 1].0 == l then Some(ws[|ws| - 1].1)
    else
      var rest := ws[..|ws| - 1];
      assert Writes(ws, l) <==> Writes(rest, l) by {
        if Writes(ws, l) {
          var i :| 0 <= i < |ws| && ws[i].0 == l;
          assert rest[i].0 == l;
        }
        if Writes(rest, l) {
          var i :| 0 <= i < |rest| && rest[i].0 == l;
          assert ws[i].0 == l;
        }
      }
      LastWriteTo(rest, l)
  }

  /** The entries after version v recorded its writes, when its transaction had last
      written the given locations. */
  ghost predicate Recorded(before: Store, after: Store, v: TxVersion, lastWrite: seq<Loc>, ws: WriteSet) {
    forall l, j ::
      EntryAt(after, l, j) ==
      if j != v.tx then EntryAt(before, l, j)
      else if Writes(ws, l) then Some(Data(v.incarnation, LastWriteTo(ws, l).value))
      else if l in lastWrite then None
      else EntryAt(before, l, j)
  }

  /** If the remembered locations were all the transaction held in the store, apart from
      seeded estimates it now replaces, then it holds exactly its new write set. */
  lemma RecordIsExact(before: Store, after: Store, v: TxVersion, lastWrite: seq<Loc>, ws: WriteSet, l: Loc)
    requires Recorded(before, after, v, lastWrite, ws)
    requires EntryAt(before, l, v.tx).Some? && l !in lastWrite ==> Writes(ws, l)
    ensures EntryAt(after, l, v.tx) ==
            if Writes(ws, l) then Some(Data(v.incarnation, LastWriteTo(ws, l).value)) else None
  {
  }

  // ---------- The iterator of validation ----------

  predicate AllStorage(os: Origins) {
    forall i :: 0 <= i < |os| ==> os[i].Storage?
  }

  lemma {:induction false} MatchesBottom(c: Column, os: Origins)
    ensures ColumnMatches(c, 0, os) <==> AllStorage(os)
  {
    if os != [] {
      MatchesBottom(c, os[1..]);
      assert AllStorage(os) <==> os[0].Storage? && AllStorage(os[1..]) by {
        if os[0].Storage? && AllStorage(os[1..]) {
          assert forall i :: 0 < i < |os| ==> os[i] == os[1..][i - 1];
        }
      }
    }
  }

  /** Stepping down a column one index at a time or from entry to entry is the same. */
  lemma {:induction false} MatchesFromClosest(c: Column, t: nat, os: Origins)
    requires os != []
    ensures ColumnMatches(c, t, os) <==>
            match Closest(c, t)
            case None => os[0].Storage? && ColumnMatches(c, 0, os[1..])
            case Some(j) =>
              && c[j].Data? && os[0] == MvMemory(TxVersion(j, c[j].incarnation))
              && ColumnMatches(c, j, os[1..])
  {
    if t > 0 && t - 1 !in c { MatchesFromClosest(c, t - 1, os); }
  }

  // ---------- The memory ----------

  /** Estimates at the seeded locations, inserted one location at a time. */
  method EstimatesFor(seeds: map<Loc, set<nat>>) returns (data: Store)
    ensures data == SeedStore(seeds)
    ensures forall l, j :: EntryAt(data, l, j) == if l in seeds && j in seeds[l] then Some(Estimate) else None
  {
    data := map[];
    var todo := seeds.Keys;
    while todo != {}
      invariant todo <= seeds.Keys && data.Keys == seeds.Keys - todo
      invariant forall l :: l in data ==> data[l] == SeedStore(seeds)[l]
      decreases |todo|
    {
      var l :| l in todo;
      data := data[l := map t | t in seeds[l] :: Estimate];
      todo := todo - {l};
    }
  }

  class MvMemory {
    var data: Store
    const lastRead: array<ReadSet>
    const lastWrite: array<seq<Loc>>
    var lazyAddresses: set<nat>

    ghost predicate Valid()
      reads this, lastWrite
    {
      && lastRead.Length == lastWrite.Length
      && forall t :: 0 <= t < lastWrite.Length ==> NoDuplicates(lastWrite[t])
    }

    /** Estimates for the seeded locations, and nothing recorded. */
    constructor (blockSize: nat, seeds: map<Loc, set<nat>>, lazyAddresses: set<nat>)
      ensures Valid() && fresh(lastRead) && fresh(lastWrite)
      ensures data == SeedStore(seeds) && this.lazyAddresses == lazyAddresses
      ensures lastRead[..] == seq(blockSize, i => map[]) && lastWrite[..] == seq(blockSize, i => [])
    {
      var estimates := EstimatesFor(seeds);
      data := estimates;
      lastRead := new ReadSet[blockSize](i => map[]);
      lastWrite := new seq<Loc>[blockSize](i => []);
      this.lazyAddresses := lazyAddresses;
      new;
      assert lastRead[..] == seq(blockSize, i => map[]) && lastWrite[..] == seq(blockSize, i => []);
    }

    method AddLazyAddresses(addresses: seq<nat>)
      modifies this`lazyAddresses
      ensures forall a :: a in lazyAddresses <==> a in old(lazyAddresses) || a in addresses
    {
      for i := 0 to |addresses|
        invariant forall a :: a in lazyAddresses <==> a in old(lazyAddresses) || a in addresses[..i]
      {
        lazyAddresses := lazyAddresses + {addresses[i]};
      }
    }

    /** Remove the locations that are not written any more. */
    method ClearOld(version: TxVersion, ws: WriteSet)
      requires Valid() && version.tx < lastWrite.Length
      modifies this`data, lastWrite
      ensures Valid() && data.Keys == old(data).Keys
      ensures forall l :: l in lastWrite[version.tx] <==> l in old(lastWrite[version.tx]) && Writes(ws, l)
      ensures forall j :: 0 <= j < lastWrite.Length && j != version.tx ==> lastWrite[j] == old(lastWrite[j])
      ensures forall l, j :: EntryAt(data, l, j) ==
                if j == version.tx && l in old(lastWrite[version.tx]) && !Writes(ws, l) then None else EntryAt(old(data), l, j)
    {
      var t, i := version.tx, 0;
      ghost var was := lastWrite[t];
      while i < |lastWrite[t]|
        invariant i <= |lastWrite[t]| && Valid() && data.Keys == old(data).Keys
        invariant forall j :: 0 <= j < lastWrite.Length && j != t ==> lastWrite[j] == old(lastWrite[j])
        invariant forall l :: l in lastWrite[t] ==> l in was
        invariant forall l :: l in was && l !in lastWrite[t] ==> !Writes(ws, l)
        invariant forall k :: 0 <= k < i ==> Writes(ws, lastWrite[t][k])
        invariant forall l, j :: EntryAt(data, l, j) ==
                    if j == t && l in was && l !in lastWrite[t] then None else EntryAt(old(data), l, j)
        decreases |lastWrite[t]| - i
      {
        var previous := lastWrite[t][i];
        if forall k :: 0 <= k < |ws| ==> ws[k].0 != previous {
          if previous in data {
            data := RemoveEntry(data, previous, t);
          }
          SwapRemoveDropsOne(lastWrite[t], i);
          lastWrite[t] := SwapRemove(lastWrite[t], i);
        } else {
          i := i + 1;
        }
      }
    }

    /** Insert one new write; is its location new to the list? */
    method InsertOne(version: TxVersion, l: Loc, value: Write) returns (isNew: bool)
      requires Valid() && version.tx < lastWrite.Length
      modifies this`data, lastWrite
      ensures Valid() && data == SetEntry(old(data), l, version.tx, Data(version.incarnation, value))
      ensures forall k :: k in lastWrite[version.tx] <==> k in old(lastWrite[version.tx]) || k == l
      ensures forall j :: 0 <= j < lastWrite.Length && j != version.tx ==> lastWrite[j] == old(lastWrite[j])
      ensures isNew <==> l !in old(lastWrite[version.tx])
    {
      data := SetEntry(data, l, version.tx, Data(version.incarnation, value));
      isNew := l !in lastWrite[version.tx];
      if isNew {
        lastWrite[version.tx] := lastWrite[version.tx] + [l];
      }
    }

    /** Insert the new writes, and tell whether one of them is new. */
    method InsertNew(version: TxVersion, ws: WriteSet) returns (wroteNew: bool)
      requires Valid() && version.tx < lastWrite.Length
      modifies this`data, lastWrite
      ensures Valid() && (forall l :: l in data <==> l in old(data) || Writes(ws, l))
      ensures forall l :: l in lastWrite[version.tx] <==> l in old(lastWrite[version.tx]) || Writes(ws, l)
      ensures forall j :: 0 <= j < lastWrite.Length && j != version.tx ==> lastWrite[j] == old(lastWrite[j])
      ensures forall l, j :: EntryAt(data, l, j) ==
                if j == version.tx && Writes(ws, l) then Some(Data(version.incarnation, LastWriteTo(ws, l).value))
                else EntryAt(old(data), l, j)
      ensures wroteNew <==> exists l :: Writes(ws, l) && l !in old(lastWrite[version.tx])
    {
      var t, i := version.tx, 0;
      wroteNew := false;
      ghost var was := lastWrite[t];
      while i < |ws|
        invariant 0 <= i <= |ws| && Valid()
        invariant forall l :: l in data <==> l in old(data) || Writes(ws[..i], l)
        invariant forall l :: l in lastWrite[t] <==> l in was || Writes(ws[..i], l)
        invariant forall j :: 0 <= j < lastWrite.Length && j != t ==> lastWrite[j] == old(lastWrite[j])
        invariant forall l, j :: EntryAt(data, l, j) ==
                    if j == t && Writes(ws[..i], l) then Some(Data(version.incarnation, LastWriteTo(ws[..i], l).value))
                    else EntryAt(old(data), l, j)
        invariant wroteNew <==> exists l :: Writes(ws[..i], l) && l !in was
      {
        OneMorePair(ws, i);
        var isNew := InsertOne(version, ws[i].0, ws[i].1);
        wroteNew := wroteNew || isNew;
        i := i + 1;
      }
      assert ws[..i] == ws;
    }

    /** Replace the recorded read and write sets of a transaction by those of version.
        Exactly its own entries change, and the answer tells whether a location was
        written that the recorded incarnation had not. */
    method Record(version: TxVersion, readSet: ReadSet, ws: WriteSet) returns (wroteNew: bool)
      requires Valid() && version.tx < lastWrite.Length
      modifies this`data, lastRead, lastWrite
      ensures Valid()
      ensures Recorded(old(data), data, version, old(lastWrite[version.tx]), ws)
      ensures forall l :: l in data <==> l in old(data) || Writes(ws, l)
      ensures forall l :: l in lastWrite[version.tx] <==> Writes(ws, l)
      ensures forall j :: 0 <= j < lastWrite.Length && j != version.tx ==> lastWrite[j] == old(lastWrite[j])
      ensures lastRead[..] == old(lastRead[..])[version.tx := readSet]
      ensures wroteNew <==> exists l :: Writes(ws, l) && l !in old(lastWrite[version.tx])
    {
      lastRead[version.tx] := readSet;
      ClearOld(version, ws);
      wroteNew := InsertNew(version, ws);
    }

    /** Does the column still yield these origins to transaction t? The iterator moves
        down from entry to entry, one for each origin. */
    method ValidateOrigins(c: Column, t: nat, os: Origins) returns (valid: bool)
      ensures valid <==> ColumnMatches(c, t, os)
    {
      var k, below := 0, t;
      while k < |os|
        invariant 0 <= k <= |os|
        invariant ColumnMatches(c, t, os) <==> ColumnMatches(c, below, os[k..])
      {
        var next := Closest(c, below);
        MatchesFromClosest(c, below, os[k..]);
        assert os[k..][1..] == os[k + 1..];
        match os[k] {
          case MvMemory(prior) =>
            if next.None? || c[next.value].Estimate? {
              return false;
            }
            if next.value != prior.tx || prior.incarnation != c[next.value].incarnation {
              return false;
            }
            below := next.value;
          case Storage =>
            if next.Some? {
              return false;
            }
            below := 0;
        }
        k := k + 1;
      }
      return true;
    }

    /** Would every recorded read of t yield the same origins again? */
    method ValidateReadLocations(t: nat) returns (valid: bool)
      requires Valid() && t < lastRead.Length
      ensures valid <==> forall l :: l in lastRead[t] ==> Matches(data, l, t, lastRead[t][l])
    {
      var todo := lastRead[t].Keys;
      while todo != {}
        invariant todo <= lastRead[t].Keys
        invariant forall l :: l in lastRead[t] && l !in todo ==> Matches(data, l, t, lastRead[t][l])
        decreases |todo|
      {
        var l :| l in todo;
        var os := lastRead[t][l];
        if l in data {
          var matched := ValidateOrigins(data[l], t, os);
          if !matched {
            return false;
          }
        } else if |os| != 1 || os[|os| - 1] != Storage {
          return false;
        }
        todo := todo - {l};
      }
      return true;
    }

    /** Turn what the transaction wrote last into estimates, in locations known by now. */
    method ConvertWritesToEstimates(t: nat)
      requires Valid() && t < lastWrite.Length
      modifies this`data
      ensures data.Keys == old(data).Keys
      ensures forall l, j :: EntryAt(data, l, j) ==
                if j == t && l in lastWrite[t] && l in old(data) then Some(Estimate) else EntryAt(old(data), l, j)
    {
      var i := 0;
      while i < |lastWrite[t]|
        invariant 0 <= i <= |lastWrite[t]| && data.Keys == old(data).Keys
        invariant forall l, j :: EntryAt(data, l, j) ==
                    if j == t && l in lastWrite[t][..i] && l in old(data) then Some(Estimate) else EntryAt(old(data), l, j)
      {
        data := ConvertOne(data, lastWrite[t][i], t);
        i := i + 1;
      }
    }

    method ConsumeLazyAddresses() returns (addresses: set<nat>)
      modifies this`lazyAddresses
      ensures addresses == old(lazyAddresses) && lazyAddresses == {}
    {
      addresses := lazyAddresses;
      lazyAddresses := {};
    }
  }

  lemma OneMorePair(ws: WriteSet, i: nat)
    requires i < |ws|
    ensures forall l :: Writes(ws[..i + 1], l) <==> Writes(ws[..i], l) || l == ws[i].0
    ensures forall l :: LastWriteTo(ws[..i + 1], l) == if l == ws[i].0 then Some(ws[i].1) else LastWriteTo(ws[..i], l)
  {
    var more := ws[..i + 1];
    assert more[..|more| - 1] == ws[..i];
    forall l
      ensures Writes(more, l) <==> Writes(ws[..i], l) || l == ws[i].0
      ensures LastWriteTo(more, l) == if l == ws[i].0 then Some(ws[i].1) else LastWriteTo(ws[..i], l)
    {
      assert more[i].0 == ws[i].0;
      if Writes(ws[..i], l) {
        var k :| 0 <= k < i && ws[..i][k].0 == l;
        assert more[k].0 == l;
      }
      if Writes(more, l) && l != ws[i].0 {
        var k :| 0 <= k < |more| && more[k].0 == l;
        assert ws[..i][k].0 == l;
      }
    }
  }
}
