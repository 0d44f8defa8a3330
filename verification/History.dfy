/** What executions have seen. A version is recorded once and determines its writes
    for the whole run, so the origins kept for a location say which value was read. */
module History {
  import opened Types
  import opened LazyBalances
  import opened MultiVersion
  import opened SchedulerSteps
  import opened Engine
  import opened Owners
  import opened Columns

  type Log = map<TxVersion, Exec>

  /** What each recorded version wrote to one location. */
  ghost function VersionsAt(b: Block, log: Log, l: Loc): Versions {
    map v | v in log && l in WritesBy(b, v.tx, log[v]) :: WritesBy(b, v.tx, log[v])[l]
  }

  /** The value of a location, given the writes a reader collected and storage. */
  function Resolve(l: Loc, writes: seq<Write>, stored: Value): Value {
    if l.Basic? then Observed(Backward(writes, stored)) else Forward(writes, stored)
  }

  ghost function ReadValue(b: Block, log: Log, l: Loc, os: Origins): Value {
    Resolve(l, WritesOf(VersionsAt(b, log, l), os), b.stored(l))
  }

  ghost predicate OriginsOk(b: Block, log: Log, t: nat, e: Exec) {
    forall l :: l in e.readSet ==> Complete(VersionsAt(b, log, l), e.readSet[l], t)
  }

  /** An execution is what the virtual machine asked for, and each value is the one its
      origins stand for. */
  ghost predicate ExecOk(b: Block, log: Log, t: nat, e: Exec) {
    && OriginsOk(b, log, t, e)
    && (forall k :: 0 <= k < |e.events| ==>
          && b.vm(t, e.lazy, Values(e.events)[..k]) == Action.Read(e.events[k].loc)
          && e.events[k].loc in e.readSet
          && e.events[k].value == ReadValue(b, log, e.events[k].loc, e.readSet[e.events[k].loc]))
  }

  ghost predicate HistoryOk(b: Block, s: State) {
    && (forall v :: v in s.log ==> ExecOk(b, s.log, v.tx, s.log[v]) && NextAction(b, v.tx, s.log[v]).Finish?)
    && (forall w :: 0 <= w < |s.pcs| && s.pcs[w].Working? && s.pcs[w].work.Running? ==>
          ExecOk(b, s.log, s.pcs[w].tx, s.pcs[w].work.exec))
  }

  // ---------- Growing logs ----------

  ghost predicate Extends(log: Log, more: Log) {
    forall v :: v in log ==> v in more && more[v] == log[v]
  }

  lemma VersionsGrow(b: Block, log: Log, more: Log, l: Loc)
    requires Extends(log, more)
    ensures forall v :: v in VersionsAt(b, log, l) ==>
              v in VersionsAt(b, more, l) && VersionsAt(b, more, l)[v] == VersionsAt(b, log, l)[v]
  {
  }

  lemma {:induction false} CompleteStays(vs: Versions, more: Versions, os: Origins, t: nat)
    requires forall v :: v in vs ==> v in more && more[v] == vs[v]
    requires os != [] && Complete(vs, os, t)
    ensures Complete(more, os, t) && WritesOf(more, os) == WritesOf(vs, os)
  {
    if os[0].MvMemory? {
      if vs[os[0].version].Strict? {
        assert os[1..] == [];
      } else {
        CompleteStays(vs, more, os[1..], os[0].version.tx);
      }
    }
  }

  lemma ExecStays(b: Block, log: Log, more: Log, t: nat, e: Exec)
    requires Extends(log, more) && ExecOk(b, log, t, e)
    ensures ExecOk(b, more, t, e)
  {
    forall l | l in e.readSet
      ensures Complete(VersionsAt(b, more, l), e.readSet[l], t) && ReadValue(b, more, l, e.readSet[l]) == ReadValue(b, log, l, e.readSet[l])
    {
      VersionsGrow(b, log, more, l);
      CompleteStays(VersionsAt(b, log, l), VersionsAt(b, more, l), e.readSet[l], t);
    }
  }

  // ---------- The store agrees with the log ----------

  lemma EntryIsLogged(b: Block, s: State, l: Loc, t: nat)
    requires ColumnsOk(b, s) && EntryAt(s.store, l, t).Some? && EntryAt(s.store, l, t).value.Data?
    ensures var e := EntryAt(s.store, l, t).value;
            var v := TxVersion(t, e.incarnation);
            v in VersionsAt(b, s.log, l) && VersionsAt(b, s.log, l)[v] == e.write
  {
    var phase := PhaseOf(s, t);
    assert ColumnOk(b, s, t, phase);
    match phase
    case Filling(e, todo) => assert Filled(b, s, t, e, todo);
    case Settled => assert Filled(b, s, t, s.log[Current(s, t)], {});
    case Withdrawing(todo) => assert Withdraws(b, s, t, s.log[Current(s, t)], todo);
    case _ =>
  }

  /** The same version is the same write, whenever it is found. */
  lemma StoreAgrees(b: Block, s: State, l: Loc)
    requires ColumnsOk(b, s)
    ensures Agrees(ColumnOf(s.store, l), VersionsAt(b, s.log, l))
  {
    var c := ColumnOf(s.store, l);
    forall j | j in c && c[j].Data?
      ensures var v := TxVersion(j, c[j].incarnation);
              v in VersionsAt(b, s.log, l) && VersionsAt(b, s.log, l)[v] == c[j].write
    {
      assert EntryAt(s.store, l, j) == Some(c[j]);
      EntryIsLogged(b, s, l, j);
    }
  }

  /** Only accounts are written lazily. */
  lemma StrictVersions(b: Block, s: State, l: Loc, v: TxVersion)
    requires WellFormed(b) && HistoryOk(b, s) && v in VersionsAt(b, s.log, l)
    ensures !l.Basic? ==> VersionsAt(b, s.log, l)[v].Strict?
    ensures l.Basic? && VersionsAt(b, s.log, l)[v].Strict? ==> VersionsAt(b, s.log, l)[v].value.Account?
  {
    var a := NextAction(b, v.tx, s.log[v]);
    assert WellWritten(b, v.tx, a.writes);
  }

  // ---------- Reading ----------

  /** Reading an account, with or without earlier origins to agree with. */
  lemma ReadBasicIsOk(b: Block, log: Log, c: Column, l: Loc, t: nat, prev: Origins)
    requires l.Basic? && Agrees(c, VersionsAt(b, log, l))
    requires prev == [] || Complete(VersionsAt(b, log, l), prev, t)
    ensures
      var r := ReadBasic(c, b.stored(l), t, prev);
      r.Got? ==>
        && Complete(VersionsAt(b, log, l), r.origins, t)
        && r.value == ReadValue(b, log, l, r.origins)
        && (prev != [] ==> r.origins == prev)
  {
    WalkIsComplete(c, t, VersionsAt(b, log, l));
    if prev != [] && Rewalk(c, t, prev).Got? {
      RewalkRepeats(c, t, prev, VersionsAt(b, log, l));
    }
  }

  /** Pushing the origin of a location without lazy writes. */
  lemma PushIsOk(b: Block, log: Log, l: Loc, t: nat, prev: Origins, o: Origin, v: Value)
    requires !l.Basic? && (forall x :: x in VersionsAt(b, log, l) ==> VersionsAt(b, log, l)[x].Strict?)
    requires prev == [] || Complete(VersionsAt(b, log, l), prev, t)
    requires Complete(VersionsAt(b, log, l), [o], t) && v == ReadValue(b, log, l, [o])
    ensures
      var r := PushOrigin(prev, o, v);
      r.Got? ==>
        && Complete(VersionsAt(b, log, l), r.origins, t)
        && r.value == ReadValue(b, log, l, r.origins)
        && (prev != [] ==> r.origins == prev)
  {
    if prev != [] {
      StrictOriginsAreSingle(VersionsAt(b, log, l), prev, t);
    }
  }

  lemma ReadStrictIsOk(b: Block, log: Log, c: Column, l: Loc, t: nat, prev: Origins)
    requires !l.Basic? && Agrees(c, VersionsAt(b, log, l))
    requires forall x :: x in VersionsAt(b, log, l) ==> VersionsAt(b, log, l)[x].Strict?
    requires prev == [] || Complete(VersionsAt(b, log, l), prev, t)
    ensures
      var r := if l.Slot? then ReadSlot(c, b.stored(l), t, prev) else ReadCodeHash(c, b.stored(l), t, prev);
      r.Got? ==>
        && Complete(VersionsAt(b, log, l), r.origins, t)
        && r.value == ReadValue(b, log, l, r.origins)
        && (prev != [] ==> r.origins == prev)
  {
    PushIsOk(b, log, l, t, prev, Storage, b.stored(l));
    match Closest(c, t)
    case None =>
    case Some(j) =>
      if c[j].Data? {
        SingleOrigin(c, j, VersionsAt(b, log, l), t, b.stored(l));
        PushIsOk(b, log, l, t, prev, MvMemory(TxVersion(j, c[j].incarnation)), Apply(c[j].write, b.stored(l)));
      }
  }

  /** What one read adds: complete origins, the value they stand for, and, for a
      location read before, the origins kept then. */
  lemma ReadIsOk(b: Block, s: State, t: nat, e: Exec, l: Loc)
    requires WellFormed(b) && ColumnsOk(b, s) && HistoryOk(b, s) && OriginsOk(b, s.log, t, e)
    ensures
      var r := MultiVersion.Read(s.store, l, b.stored(l), t, Previous(e.readSet, l));
      r.Got? ==>
        && Complete(VersionsAt(b, s.log, l), r.origins, t)
        && r.value == ReadValue(b, s.log, l, r.origins)
        && (l in e.readSet ==> r.origins == e.readSet[l])
  {
    StoreAgrees(b, s, l);
    if l.Basic? {
      ReadBasicIsOk(b, s.log, ColumnOf(s.store, l), l, t, Previous(e.readSet, l));
    } else {
      forall v | v in VersionsAt(b, s.log, l) ensures VersionsAt(b, s.log, l)[v].Strict? {
        StrictVersions(b, s, l, v);
      }
      ReadStrictIsOk(b, s.log, ColumnOf(s.store, l), l, t, Previous(e.readSet, l));
    }
  }

  lemma StrictOriginsAreSingle(vs: Versions, os: Origins, t: nat)
    requires forall v :: v in vs ==> vs[v].Strict?
    requires Complete(vs, os, t)
    ensures |os| == 1
  {
  }

  lemma SingleOrigin(c: Column, j: nat, vs: Versions, t: nat, stored: Value)
    requires Agrees(c, vs) && j < t && j in c && c[j].Data? && c[j].write.Strict?
    ensures var os := [MvMemory(TxVersion(j, c[j].incarnation))];
            Complete(vs, os, t) && WritesOf(vs, os) == [c[j].write] && Forward(WritesOf(vs, os), stored) == Apply(c[j].write, stored)
  {
    var os := [MvMemory(TxVersion(j, c[j].incarnation))];
    assert os[1..] == [];
    assert WritesOf(vs, os) == [c[j].write] + WritesOf(vs, os[1..]);
    assert [c[j].write][1..] == [];
  }

  /** Repeatable reads: however often one execution reads a location, and whatever the
      other workers do in between, it gets the same value. */
  lemma RepeatableReads(b: Block, s: State, w: nat, k: nat)
    requires WellFormed(b) && Ownership(b, s) && ColumnsOk(b, s) && HistoryOk(b, s)
    requires w < |s.pcs| && s.pcs[w].Working? && s.pcs[w].work.Running?
    requires k < |s.pcs[w].work.exec.events|
    ensures
      var t, e := s.pcs[w].tx, s.pcs[w].work.exec;
      var l := e.events[k].loc;
      var r := MultiVersion.Read(s.store, l, b.stored(l), t, Previous(e.readSet, l));
      r.Got? ==> r.value == e.events[k].value && r.origins == e.readSet[l]
  {
    var t, e := s.pcs[w].tx, s.pcs[w].work.exec;
    assert ExecOk(b, s.log, t, e);
    ReadIsOk(b, s, t, e, e.events[k].loc);
  }

  lemma RunNextIsOk(b: Block, s: State, t: nat, e: Exec)
    requires WellFormed(b) && ColumnsOk(b, s) && HistoryOk(b, s) && ExecOk(b, s.log, t, e)
    requires !Fails(b, t, e) && !NextAction(b, t, e).Finish?
    ensures RunNext(b, s.store, t, e).Running? ==> ExecOk(b, s.log, t, RunNext(b, s.store, t, e).exec)
  {
    if RunNext(b, s.store, t, e).Running? {
      var e' := RunNext(b, s.store, t, e).exec;
      var l := NextAction(b, t, e).loc;
      ReadIsOk(b, s, t, e, l);
      var n := |e.events|;
      forall k | 0 <= k < |e'.events|
        ensures b.vm(t, e'.lazy, Values(e'.events)[..k]) == Action.Read(e'.events[k].loc)
        ensures e'.events[k].loc in e'.readSet
        ensures e'.events[k].value == ReadValue(b, s.log, e'.events[k].loc, e'.readSet[e'.events[k].loc])
      {
        if k < n {
          assert Values(e'.events)[..k] == Values(e.events)[..k];
        } else {
          assert Values(e'.events)[..k] == Values(e.events);
        }
      }
    }
  }

  // ---------- Preservation ----------

  lemma InitHistory(b: Block, s: State)
    requires Init(b, s)
    ensures HistoryOk(b, s)
  {
  }

  /** Nothing recorded, and worker w not reading afterwards. */
  lemma HistoryQuiet(b: Block, s: State, w: nat, s': State)
    requires HistoryOk(b, s) && w < |s.pcs| && s'.log == s.log
    requires |s'.pcs| == |s.pcs| && s'.pcs == s.pcs[w := s'.pcs[w]]
    requires s'.pcs[w].Working? && s'.pcs[w].work.Running? ==> ExecOk(b, s.log, s'.pcs[w].tx, s'.pcs[w].work.exec)
    ensures HistoryOk(b, s')
  {
  }

  lemma BeginRecordKeepsHistory(b: Block, s: State, w: nat, t: nat, i: nat, e: Exec)
    requires HistoryOk(b, s) && w < |s.pcs| && t < |s.lastRead|
    requires s.pcs[w] == Working(t, i, Running(e)) && NextAction(b, t, e).Finish? && TxVersion(t, i) !in s.log
    ensures HistoryOk(b, BeginRecord(b, s, w, t, i, e))
  {
    var s' := BeginRecord(b, s, w, t, i, e);
    assert ExecOk(b, s.log, t, e);
    assert Extends(s.log, s'.log);
    forall v | v in s'.log ensures ExecOk(b, s'.log, v.tx, s'.log[v]) {
      ExecStays(b, s.log, s'.log, v.tx, s'.log[v]);
    }
    forall u | 0 <= u < |s'.pcs| && s'.pcs[u].Working? && s'.pcs[u].work.Running?
      ensures ExecOk(b, s'.log, s'.pcs[u].tx, s'.pcs[u].work.exec)
    {
      ExecStays(b, s.log, s'.log, s'.pcs[u].tx, s'.pcs[u].work.exec);
    }
  }

  lemma RunKeepsHistory(b: Block, s: State, w: nat, s': State)
    requires WellFormed(b) && Ownership(b, s) && ColumnsOk(b, s) && HistoryOk(b, s)
    requires w < |s.pcs| && s.pcs[w].Working? && s.pcs[w].tx < b.n && s.pcs[w].work.Running? && RunStep(b, s, w, s')
    ensures HistoryOk(b, s')
  {
    var t, i, e := s.pcs[w].tx, s.pcs[w].incarnation, s.pcs[w].work.exec;
    if Fails(b, t, e) {
      HistoryQuiet(b, s, w, s');
    } else if NextAction(b, t, e).Finish? {
      BeginRecordKeepsColumns(b, s, w, t, i, e);
      BeginRecordKeepsHistory(b, s, w, t, i, e);
    } else {
      RunNextIsOk(b, s, t, e);
      HistoryQuiet(b, s, w, s');
    }
  }

  lemma RecordKeepsHistory(b: Block, s: State, w: nat, s': State)
    requires HistoryOk(b, s) && Shape(b, s) && w < |s.pcs| && s.pcs[w].Working? && s.pcs[w].tx < b.n
    requires
      || (s.pcs[w].work.Clearing? && ClearStep(b, s, w, s'))
      || (s.pcs[w].work.Writing? && WriteStep(b, s, w, s'))
      || (s.pcs[w].work.Publish? && PublishStep(b, s, w, s'))
    ensures HistoryOk(b, s')
  {
    HistoryQuiet(b, s, w, s');
  }

  lemma FinishKeepsHistory(b: Block, s: State, w: nat, s': State)
    requires HistoryOk(b, s) && Shape(b, s) && w < |s.pcs| && s.pcs[w].Working? && s.pcs[w].tx < b.n
    requires
      || (s.pcs[w].work.Blocking? && BlockStep(b, s, w, s'))
      || (s.pcs[w].work.Resume? && ResumeStep(b, s, w, s'))
      || (Adjusts(s.pcs[w].work) && AdjustStep(b, s, w, s'))
      || (s.pcs[w].work.Conclude? && ConcludeStep(b, s, w, s'))
    ensures HistoryOk(b, s')
  {
    HistoryQuiet(b, s, w, s');
  }

  lemma WorkKeepsHistory(b: Block, s: State, w: nat, s': State)
    requires WellFormed(b) && Ownership(b, s) && ColumnsOk(b, s) && HistoryOk(b, s)
    requires w < |s.pcs| && s.pcs[w].Working? && s.pcs[w].tx < b.n && WorkStep(b, s, w, s')
    ensures HistoryOk(b, s')
  {
    match s.pcs[w].work
    case Start => HistoryQuiet(b, s, w, s');
    case Running(_) => RunKeepsHistory(b, s, w, s');
    case Clearing(_) => RecordKeepsHistory(b, s, w, s');
    case Writing(_, _, _) => RecordKeepsHistory(b, s, w, s');
    case Publish(_, _) => RecordKeepsHistory(b, s, w, s');
    case _ => FinishKeepsHistory(b, s, w, s');
  }

  lemma CheckKeepsHistory(b: Block, s: State, w: nat, s': State)
    requires HistoryOk(b, s) && Shape(b, s) && w < |s.pcs| && s.pcs[w].Validating? && s.pcs[w].tx < b.n && CheckStep(b, s, w, s')
    ensures HistoryOk(b, s')
  {
    HistoryQuiet(b, s, w, s');
  }

  lemma AbortKeepsHistory(b: Block, s: State, w: nat, s': State)
    requires HistoryOk(b, s) && Shape(b, s) && w < |s.pcs| && s.pcs[w].Aborting? && s.pcs[w].tx < b.n && AbortStep(b, s, w, s')
    ensures HistoryOk(b, s')
  {
    HistoryQuiet(b, s, w, s');
  }

  lemma ClaimKeepsHistory(b: Block, s: State, w: nat, s': State)
    requires HistoryOk(b, s) && Shape(b, s) && w < |s.pcs|
    requires
      || (s.pcs[w].Claimed? && s.pcs[w].tx < b.n && ClaimStep(b, s, w, s'))
      || (s.pcs[w].Rescheduling? && s.pcs[w].tx < b.n && RescheduleStep(b, s, w, s'))
    ensures HistoryOk(b, s')
  {
    HistoryQuiet(b, s, w, s');
  }

  lemma StepKeepsHistory(b: Block, s: State, w: nat, s': State)
    requires WellFormed(b) && Ownership(b, s) && ColumnsOk(b, s) && HistoryOk(b, s) && WorkerStep(b, s, w, s')
    ensures HistoryOk(b, s')
  {
    match s.pcs[w]
    case Idle(_) => HistoryQuiet(b, s, w, s');
    case Claimed(_, _) => ClaimKeepsHistory(b, s, w, s');
    case Working(_, _, _) => WorkKeepsHistory(b, s, w, s');
    case Validating(_, _, _) => CheckKeepsHistory(b, s, w, s');
    case Aborting(_, _) => AbortKeepsHistory(b, s, w, s');
    case Rescheduling(_, _) => ClaimKeepsHistory(b, s, w, s');
  }
}
