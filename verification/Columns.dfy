/** What the store holds for one transaction. Outside its own record and abort
    windows a finished transaction has exactly its last write set in the store, and
    any other transaction has nothing but estimates. */
module Columns {
  import opened Types
  import opened MultiVersion
  import opened SchedulerSteps
  import opened Engine
  import opened Owners

  /** Where a transaction stands between its write sets. */
  datatype Phase =
    | Marked                            // nothing but estimates, next incarnation not recorded
    | Replacing(exec: Exec)             // recording: dropping old locations
    | Filling(exec: Exec, todo: set<Loc>) // recording: writing new entries
    | Settled                           // the write set and the result of the current incarnation
    | Withdrawing(todo: set<Loc>)       // turning entries into estimates
    | Withdrawn                         // nothing but estimates, current incarnation recorded

  function PhaseOfPc(pc: Pc): Phase
    requires Owns(pc)
  {
    match pc
    case Aborting(_, Converting(todo)) => Withdrawing(todo)
    case Aborting(_, Reset) => Withdrawn
    case Working(_, _, stage) =>
      match stage
      case Start => Marked
      case Running(_) => Marked
      case Blocking(_) => Marked
      case Clearing(e) => Replacing(e)
      case Writing(e, todo, _) => Filling(e, todo)
      case Publish(e, _) => Filling(e, {})
      case _ => Settled
  }

  function PhaseOf(s: State, t: nat): Phase
    requires t < |s.owner| && t < |s.sched.status|
  {
    match s.owner[t]
    case Queue(_) => Marked
    case Nobody => if IsFinished(s.sched.status[t].status) then Settled else Marked
    case Worker(w) => if w < |s.pcs| && Owns(s.pcs[w]) then PhaseOfPc(s.pcs[w]) else Marked
  }

  function Current(s: State, t: nat): TxVersion
    requires t < |s.sched.status|
  {
    TxVersion(t, s.sched.status[t].incarnation)
  }

  predicate Seeded(b: Block, l: Loc, t: nat) {
    l in b.seeds && t in b.seeds[l]
  }

  /** Assumptions on the block: transactions write where estimates were seeded for
      them, and values fit their locations. */
  ghost predicate WellFormed(b: Block) {
    && (forall l, t: nat :: Seeded(b, l, t) ==> t < b.n)
    && (forall a :: b.stored(Basic(a)).Account? || b.stored(Basic(a)).Absent?)
    && (forall l :: b.stored(l).Absent? ==> l.Basic?)
    && (forall t: nat, lazy, vs :: b.vm(t, lazy, vs).Finish? ==> WellWritten(b, t, b.vm(t, lazy, vs).writes))
  }

  ghost predicate WellWritten(b: Block, t: nat, writes: map<Loc, Write>) {
    && (forall l :: Seeded(b, l, t) ==> l in writes)
    && (forall l :: l in writes && !l.Basic? ==> writes[l].Strict?)
    && (forall l :: l in writes && l.Basic? && writes[l].Strict? ==> writes[l].value.Account?)
  }

  predicate Logged(b: Block, s: State, t: nat, e: Exec)
    requires Shape(b, s) && t < b.n
  {
    && Current(s, t) in s.log && s.log[Current(s, t)] == e
    && s.lastRead[t] == e.readSet
    && NextAction(b, t, e).Finish?
  }

  ghost predicate OnlyEstimates(b: Block, s: State, t: nat)
    requires Shape(b, s) && t < b.n
  {
    forall l :: match EntryAt(s.store, l, t)
                case None => l !in s.lastWrite[t]
                case Some(e) => e == Estimate && (l in s.lastWrite[t] || Seeded(b, l, t))
  }

  /** The entries of t once only the locations in todo have yet to be written. */
  ghost predicate Filled(b: Block, s: State, t: nat, e: Exec, todo: set<Loc>)
    requires Shape(b, s) && t < b.n
  {
    var writes := WritesBy(b, t, e);
    && todo <= writes.Keys
    && (forall l :: if l in todo then (match EntryAt(s.store, l, t)
                                       case None => l !in s.lastWrite[t]
                                       case Some(x) => x == Estimate)
                    else if l in writes then
                      EntryAt(s.store, l, t) == Some(Data(s.sched.status[t].incarnation, writes[l])) && l in s.lastWrite[t]
                    else EntryAt(s.store, l, t) == None && l !in s.lastWrite[t])
  }

  /** The entries of t while the locations outside todo have become estimates. */
  ghost predicate Withdraws(b: Block, s: State, t: nat, e: Exec, todo: set<Loc>)
    requires Shape(b, s) && t < b.n
  {
    var writes := WritesBy(b, t, e);
    && s.lastWrite[t] == writes.Keys && todo <= writes.Keys
    && (forall l :: EntryAt(s.store, l, t) ==
                    if l in todo then Some(Data(s.sched.status[t].incarnation, writes[l]))
                    else if l in writes then Some(Estimate)
                    else None)
  }

  ghost predicate Recorded(b: Block, s: State, t: nat)
    requires Shape(b, s) && t < b.n
  {
    Current(s, t) in s.log && Logged(b, s, t, s.log[Current(s, t)]) && Filled(b, s, t, s.log[Current(s, t)], {})
  }

  ghost predicate ColumnOk(b: Block, s: State, t: nat, phase: Phase)
    requires Shape(b, s) && t < b.n
  {
    match phase
    case Marked => OnlyEstimates(b, s, t) && Current(s, t) !in s.log
    case Replacing(e) => OnlyEstimates(b, s, t) && Logged(b, s, t, e)
    case Filling(e, todo) => Logged(b, s, t, e) && Filled(b, s, t, e, todo)
    case Settled => Recorded(b, s, t) && s.results[t] == Some(ResultBy(b, t, s.log[Current(s, t)]))
    case Withdrawing(todo) =>
      Current(s, t) in s.log && Logged(b, s, t, s.log[Current(s, t)]) && Withdraws(b, s, t, s.log[Current(s, t)], todo)
    case Withdrawn => OnlyEstimates(b, s, t)
  }

  ghost predicate ColumnsOk(b: Block, s: State) {
    && Shape(b, s)
    && (forall t :: 0 <= t < b.n ==> ColumnOk(b, s, t, PhaseOf(s, t)))
    && (forall l, t: nat :: EntryAt(s.store, l, t).Some? ==> t < b.n)
    && (forall v :: v in s.log ==> v.tx < b.n && v.incarnation <= s.sched.status[v.tx].incarnation)
  }

  lemma InitColumns(b: Block, s: State)
    requires WellFormed(b) && Init(b, s)
    ensures ColumnsOk(b, s)
  {
    forall t | 0 <= t < b.n ensures ColumnOk(b, s, t, PhaseOf(s, t)) {
      assert OnlyEstimates(b, s, t);
    }
    forall l, t: nat | EntryAt(s.store, l, t).Some? ensures t < b.n {
      assert Seeded(b, l, t);
    }
  }

  // ---------- Frames ----------

  /** Worker w's move and transaction t aside, nothing changed. */
  ghost predicate OnlyTouches(b: Block, s: State, w: nat, s': State, t: nat) {
    && Shape(b, s) && Shape(b, s') && w < |s.pcs| && t < b.n
    && |s'.pcs| == |s.pcs| && s'.pcs == s.pcs[w := s'.pcs[w]]
    && (forall x :: 0 <= x < b.n && x != t ==>
          && s'.sched.status[x] == s.sched.status[x] && s'.owner[x] == s.owner[x]
          && s'.lastRead[x] == s.lastRead[x] && s'.lastWrite[x] == s.lastWrite[x] && s'.results[x] == s.results[x])
    && (forall l, x: nat :: x != t ==> EntryAt(s'.store, l, x) == EntryAt(s.store, l, x))
    && (forall v :: v in s.log && v.tx != t ==> v in s'.log && s'.log[v] == s.log[v])
    && (forall v :: v in s'.log && v.tx != t ==> v in s.log)
    && (Owns(s.pcs[w]) && s.pcs[w].tx != t ==> Owns(s'.pcs[w]) && PhaseOfPc(s'.pcs[w]) == PhaseOfPc(s.pcs[w]))
  }

  lemma ColumnsFrame(b: Block, s: State, w: nat, s': State, t: nat)
    requires Ownership(b, s) && ColumnsOk(b, s) && OnlyTouches(b, s, w, s', t)
    requires ColumnOk(b, s', t, PhaseOf(s', t))
    requires forall v :: v in s'.log && v.tx == t ==> v.incarnation <= s'.sched.status[t].incarnation
    ensures ColumnsOk(b, s')
  {
    forall x | 0 <= x < b.n ensures ColumnOk(b, s', x, PhaseOf(s', x)) {
      if x != t {
        assert OwnerOk(b, s, x);
        assert PhaseOf(s', x) == PhaseOf(s, x);
        OtherColumn(b, s, w, s', t, x, PhaseOf(s, x));
      }
    }
    forall l, x: nat | EntryAt(s'.store, l, x).Some? ensures x < b.n {
      if x != t { assert EntryAt(s.store, l, x).Some?; }
    }
  }

  lemma OtherColumn(b: Block, s: State, w: nat, s': State, t: nat, x: nat, phase: Phase)
    requires OnlyTouches(b, s, w, s', t) && x < b.n && x != t && ColumnOk(b, s, x, phase)
    ensures ColumnOk(b, s', x, phase)
  {
    assert Current(s', x) == Current(s, x);
    match phase
    case Marked => assert OnlyEstimates(b, s', x);
    case Replacing(e) => assert OnlyEstimates(b, s', x);
    case Filling(e, todo) => assert Filled(b, s', x, e, todo);
    case Settled => assert Filled(b, s', x, s.log[Current(s, x)], {});
    case Withdrawing(todo) => assert Withdraws(b, s', x, s.log[Current(s, x)], todo);
    case Withdrawn => assert OnlyEstimates(b, s', x);
  }

  /** Actions that change neither the store nor any phase. */
  lemma ColumnsQuiet(b: Block, s: State, w: nat, s': State)
    requires Ownership(b, s) && ColumnsOk(b, s) && Shape(b, s') && w < |s.pcs|
    requires |s'.pcs| == |s.pcs| && s'.pcs == s.pcs[w := s'.pcs[w]]
    requires s'.store == s.store && s'.lastRead == s.lastRead && s'.lastWrite == s.lastWrite && s'.log == s.log && s'.results == s.results
    requires s'.sched.status == s.sched.status && s'.owner == s.owner
    requires Owns(s.pcs[w]) ==> Owns(s'.pcs[w]) && PhaseOfPc(s'.pcs[w]) == PhaseOfPc(s.pcs[w])
    ensures ColumnsOk(b, s')
  {
    forall x | 0 <= x < b.n ensures ColumnOk(b, s', x, PhaseOf(s', x)) {
      assert OwnerOk(b, s, x);
      assert PhaseOf(s', x) == PhaseOf(s, x);
      SameColumn(b, s, s', x, PhaseOf(s, x));
    }
  }

  lemma SameColumn(b: Block, s: State, s': State, x: nat, phase: Phase)
    requires Shape(b, s) && Shape(b, s') && x < b.n && ColumnOk(b, s, x, phase)
    requires s'.store == s.store && s'.lastRead == s.lastRead && s'.lastWrite == s.lastWrite && s'.log == s.log && s'.results == s.results
    requires s'.sched.status[x].incarnation == s.sched.status[x].incarnation
    ensures ColumnOk(b, s', x, phase)
  {
    assert Current(s', x) == Current(s, x);
    match phase
    case Marked => assert OnlyEstimates(b, s', x);
    case Replacing(e) => assert OnlyEstimates(b, s', x);
    case Filling(e, todo) => assert Filled(b, s', x, e, todo);
    case Settled => assert Filled(b, s', x, s.log[Current(s, x)], {});
    case Withdrawing(todo) => assert Withdraws(b, s', x, s.log[Current(s, x)], todo);
    case Withdrawn => assert OnlyEstimates(b, s', x);
  }

  /** Transaction t changes hands or status while its column stays as it is. */
  lemma ColumnsHandover(b: Block, s: State, w: nat, s': State, t: nat)
    requires Ownership(b, s) && ColumnsOk(b, s) && Shape(b, s') && w < |s.pcs| && t < b.n
    requires |s'.pcs| == |s.pcs| && s'.pcs == s.pcs[w := s'.pcs[w]]
    requires s'.sched.status == s.sched.status[t := s'.sched.status[t]] && s'.owner == s.owner[t := s'.owner[t]]
    requires Owns(s.pcs[w]) && s.pcs[w].tx != t ==> Owns(s'.pcs[w]) && PhaseOfPc(s'.pcs[w]) == PhaseOfPc(s.pcs[w])
    requires s'.store == s.store && s'.lastRead == s.lastRead && s'.lastWrite == s.lastWrite && s'.log == s.log && s'.results == s.results
    requires
      var i, i' := s.sched.status[t].incarnation, s'.sched.status[t].incarnation;
      var p, p' := PhaseOf(s, t), PhaseOf(s', t);
      || (i' == i && p' == p)
      || (i' == i + 1 && p'.Marked? && (p.Marked? || p.Withdrawn?))
      || (i' == i && p.Settled? && p' == Withdrawing(s.lastWrite[t]))
      || (i' == i && p == Withdrawing({}) && p'.Withdrawn?)
    ensures ColumnsOk(b, s')
  {
    var p, p' := PhaseOf(s, t), PhaseOf(s', t);
    assert ColumnOk(b, s, t, p);
    if s'.sched.status[t].incarnation == s.sched.status[t].incarnation {
      SameColumn(b, s, s', t, p);
      if p.Settled? && p' != p {
        var e := s.log[Current(s, t)];
        assert Filled(b, s, t, e, {});
        assert s.lastWrite[t] == WritesBy(b, t, e).Keys;
        assert Withdraws(b, s', t, e, s.lastWrite[t]);
      } else if p.Withdrawing? && p' != p {
        assert Withdraws(b, s, t, s.log[Current(s, t)], {});
        assert OnlyEstimates(b, s', t);
      }
    } else {
      assert OnlyEstimates(b, s', t);
    }
    ColumnsFrame(b, s, w, s', t);
  }

  /** The owner's own column is in the phase its program counter says. */
  lemma MyColumn(b: Block, s: State, w: nat)
    requires Ownership(b, s) && ColumnsOk(b, s) && w < |s.pcs| && Owns(s.pcs[w])
    ensures s.pcs[w].tx < b.n && s.owner[s.pcs[w].tx] == Worker(w)
    ensures s.pcs[w].Working? ==> s.sched.status[s.pcs[w].tx] == TxStatus(s.pcs[w].incarnation, Executing)
    ensures PhaseOf(s, s.pcs[w].tx) == PhaseOfPc(s.pcs[w])
    ensures ColumnOk(b, s, s.pcs[w].tx, PhaseOfPc(s.pcs[w]))
  {
    assert WorkerOk(b, s, w);
    var t := s.pcs[w].tx;
    assert OwnerOk(b, s, t);
    assert ColumnOk(b, s, t, PhaseOf(s, t));
  }

  // ---------- The actions on the store ----------

  lemma BeginRecordKeepsColumns(b: Block, s: State, w: nat, t: nat, i: nat, e: Exec)
    requires WellFormed(b) && Ownership(b, s) && ColumnsOk(b, s) && w < |s.pcs|
    requires t < b.n && s.pcs[w] == Working(t, i, Running(e)) && NextAction(b, t, e).Finish?
    ensures ColumnsOk(b, BeginRecord(b, s, w, t, i, e))
    ensures TxVersion(t, i) !in s.log
  {
    var s' := BeginRecord(b, s, w, t, i, e);
    MyColumn(b, s, w);
    assert OnlyEstimates(b, s', t);
    ColumnsFrame(b, s, w, s', t);
  }

  lemma ClearOneKeepsColumns(b: Block, s: State, w: nat, t: nat, l: Loc)
    requires Ownership(b, s) && ColumnsOk(b, s)
    requires w < |s.pcs| && t < b.n && s.pcs[w].Working? && s.pcs[w].tx == t && s.pcs[w].work.Clearing?
    requires l in s.lastWrite[t] && l !in WritesBy(b, t, s.pcs[w].work.exec)
    ensures ColumnsOk(b, ClearOne(s, t, l))
  {
    var s' := ClearOne(s, t, l);
    MyColumn(b, s, w);
    assert OnlyEstimates(b, s', t) by {
      assert OnlyEstimates(b, s, t);
    }
    assert s'.pcs == s.pcs[w := s'.pcs[w]];
    ColumnsFrame(b, s, w, s', t);
  }

  /** Once only locations that will be written are left, nothing else is there. */
  lemma OnlyWrittenLeft(b: Block, s: State, t: nat, e: Exec)
    requires WellFormed(b) && Shape(b, s) && t < b.n && OnlyEstimates(b, s, t)
    requires NextAction(b, t, e).Finish? && s.lastWrite[t] <= WritesBy(b, t, e).Keys
    ensures Filled(b, s, t, e, WritesBy(b, t, e).Keys)
  {
    var writes := WritesBy(b, t, e);
    assert WellWritten(b, t, writes);
    forall l ensures l !in writes ==> EntryAt(s.store, l, t) == None && l !in s.lastWrite[t] {
      assert !Seeded(b, l, t) || l in writes;
    }
  }

  lemma ClearKeepsColumns(b: Block, s: State, w: nat, s': State)
    requires WellFormed(b) && Ownership(b, s) && ColumnsOk(b, s)
    requires w < |s.pcs| && s.pcs[w].Working? && s.pcs[w].tx < b.n && s.pcs[w].work.Clearing?
    requires ClearStep(b, s, w, s')
    ensures ColumnsOk(b, s')
  {
    var t, e := s.pcs[w].tx, s.pcs[w].work.exec;
    var writes := WritesBy(b, t, e);
    if s.lastWrite[t] <= writes.Keys {
      MyColumn(b, s, w);
      OnlyWrittenLeft(b, s, t, e);
      assert Filled(b, s', t, e, writes.Keys);
      ColumnsFrame(b, s, w, s', t);
    } else {
      var l :| l in s.lastWrite[t] && l !in writes && s' == ClearOne(s, t, l);
      ClearOneKeepsColumns(b, s, w, t, l);
    }
  }

  lemma FillOne(b: Block, s: State, w: nat, t: nat, e: Exec, todo: set<Loc>, wroteNew: bool, l: Loc)
    requires Shape(b, s) && w < |s.pcs| && t < b.n && Filled(b, s, t, e, todo) && l in todo
    ensures Filled(b, WriteOne(s, w, t, s.sched.status[t].incarnation, WritesBy(b, t, e)[l], e, todo, wroteNew, l), t, e, todo - {l})
  {
  }

  lemma WriteOneKeepsColumns(b: Block, s: State, w: nat, t: nat, i: nat, e: Exec, todo: set<Loc>, wroteNew: bool, l: Loc)
    requires Ownership(b, s) && ColumnsOk(b, s) && w < |s.pcs| && t < b.n
    requires s.pcs[w] == Working(t, i, Writing(e, todo, wroteNew)) && l in todo && l in WritesBy(b, t, e)
    ensures ColumnsOk(b, WriteOne(s, w, t, i, WritesBy(b, t, e)[l], e, todo, wroteNew, l))
  {
    var s' := WriteOne(s, w, t, i, WritesBy(b, t, e)[l], e, todo, wroteNew, l);
    WriteOnePhase(b, s, w, t, i, e, todo, wroteNew, l);
    WriteOneTouches(b, s, w, t, i, e, todo, wroteNew, l);
    ColumnsFrame(b, s, w, s', t);
  }

  lemma WriteOnePhase(b: Block, s: State, w: nat, t: nat, i: nat, e: Exec, todo: set<Loc>, wroteNew: bool, l: Loc)
    requires Ownership(b, s) && ColumnsOk(b, s) && w < |s.pcs| && t < b.n
    requires s.pcs[w] == Working(t, i, Writing(e, todo, wroteNew)) && l in todo && l in WritesBy(b, t, e)
    ensures
      var s' := WriteOne(s, w, t, i, WritesBy(b, t, e)[l], e, todo, wroteNew, l);
      ColumnOk(b, s', t, PhaseOf(s', t))
  {
    MyColumn(b, s, w);
    FillOne(b, s, w, t, e, todo, wroteNew, l);
  }

  lemma WriteOneTouches(b: Block, s: State, w: nat, t: nat, i: nat, e: Exec, todo: set<Loc>, wroteNew: bool, l: Loc)
    requires Shape(b, s) && w < |s.pcs| && t < b.n
    requires s.pcs[w] == Working(t, i, Writing(e, todo, wroteNew)) && l in todo && l in WritesBy(b, t, e)
    ensures OnlyTouches(b, s, w, WriteOne(s, w, t, i, WritesBy(b, t, e)[l], e, todo, wroteNew, l), t)
  {
  }

  lemma WriteKeepsColumns(b: Block, s: State, w: nat, s': State)
    requires Ownership(b, s) && ColumnsOk(b, s)
    requires w < |s.pcs| && s.pcs[w].Working? && s.pcs[w].tx < b.n && s.pcs[w].work.Writing?
    requires WriteStep(b, s, w, s')
    ensures ColumnsOk(b, s')
  {
    var t, i, e, todo := s.pcs[w].tx, s.pcs[w].incarnation, s.pcs[w].work.exec, s.pcs[w].work.todo;
    var wroteNew, writes := s.pcs[w].work.wroteNew, WritesBy(b, t, e);
    if todo == {} {
      MyColumn(b, s, w);
      ColumnsHandover(b, s, w, s', t);
    } else {
      var l :| l in todo && l in writes && s' == WriteOne(s, w, t, i, writes[l], e, todo, wroteNew, l);
      WriteOneKeepsColumns(b, s, w, t, i, e, todo, wroteNew, l);
    }
  }

  lemma ConvertOneKeepsColumns(b: Block, s: State, w: nat, t: nat, todo: set<Loc>, l: Loc)
    requires Ownership(b, s) && ColumnsOk(b, s) && w < |s.pcs| && t < b.n
    requires s.pcs[w] == Pc.Aborting(t, Converting(todo)) && l in todo
    ensures EntryAt(s.store, l, t).Some? && EntryAt(s.store, l, t).value.Data?
    ensures ColumnsOk(b, Go(s.(store := ConvertOne(s.store, l, t)), w, Pc.Aborting(t, Converting(todo - {l}))))
  {
    var s' := Go(s.(store := ConvertOne(s.store, l, t)), w, Pc.Aborting(t, Converting(todo - {l})));
    MyColumn(b, s, w);
    var e := s.log[Current(s, t)];
    assert Withdraws(b, s, t, e, todo);
    assert EntryAt(s.store, l, t).Some?;
    assert Withdraws(b, s', t, e, todo - {l});
    ColumnsFrame(b, s, w, s', t);
  }

  lemma ConvertKeepsColumns(b: Block, s: State, w: nat, s': State)
    requires Ownership(b, s) && ColumnsOk(b, s)
    requires w < |s.pcs| && s.pcs[w].Aborting? && s.pcs[w].tx < b.n && s.pcs[w].abort.Converting?
    requires ConvertStep(b, s, w, s')
    ensures ColumnsOk(b, s')
  {
    var t, todo := s.pcs[w].tx, s.pcs[w].abort.todo;
    if todo == {} {
      MyColumn(b, s, w);
      ColumnsHandover(b, s, w, s', t);
    } else {
      var l :| l in todo && s' == Go(s.(store := ConvertOne(s.store, l, t)), w, Pc.Aborting(t, Converting(todo - {l})));
      ConvertOneKeepsColumns(b, s, w, t, todo, l);
    }
  }

  lemma PublishKeepsColumns(b: Block, s: State, w: nat, s': State)
    requires Ownership(b, s) && ColumnsOk(b, s)
    requires w < |s.pcs| && s.pcs[w].Working? && s.pcs[w].tx < b.n && s.pcs[w].work.Publish? && PublishStep(b, s, w, s')
    ensures ColumnsOk(b, s')
  {
    MyColumn(b, s, w);
    var t, e := s.pcs[w].tx, s.pcs[w].work.exec;
    assert Filled(b, s, t, e, {}) && Filled(b, s', t, e, {});
    ColumnsFrame(b, s, w, s', t);
  }

  // ---------- The actions on the scheduler ----------

  lemma TakeKeepsColumns(b: Block, s: State, w: nat, t: nat)
    requires Ownership(b, s) && ColumnsOk(b, s) && w < |s.pcs| && t < b.n && !Owns(s.pcs[w])
    requires s.sched.status[t].status == ReadyToExecute
    ensures ColumnsOk(b, Take(s, w, t))
  {
    assert OwnerOk(b, s, t);
    ColumnsHandover(b, s, w, Take(s, w, t), t);
  }

  lemma ClaimKeepsColumns(b: Block, s: State, w: nat, s': State)
    requires Ownership(b, s) && ColumnsOk(b, s)
    requires w < |s.pcs| && s.pcs[w].Claimed? && s.pcs[w].tx < b.n && ClaimStep(b, s, w, s')
    ensures ColumnsOk(b, s')
  {
    if s.sched.status[s.pcs[w].tx].status == ReadyToExecute {
      TakeKeepsColumns(b, s, w, s.pcs[w].tx);
    } else {
      ColumnsQuiet(b, s, w, s');
    }
  }

  lemma BlockKeepsColumns(b: Block, s: State, w: nat, s': State)
    requires Ownership(b, s) && ColumnsOk(b, s)
    requires w < |s.pcs| && s.pcs[w].Working? && s.pcs[w].tx < b.n && s.pcs[w].work.Blocking? && BlockStep(b, s, w, s')
    ensures ColumnsOk(b, s')
  {
    if IsFinished(s.sched.status[s.pcs[w].work.on].status) {
      ColumnsQuiet(b, s, w, s');
    } else {
      MyColumn(b, s, w);
      ColumnsHandover(b, s, w, s', s.pcs[w].tx);
    }
  }

  lemma ResumeFirstKeepsColumns(b: Block, s: State, w: nat, t: nat, i: nat, wroteNew: bool, d: nat)
    requires Ownership(b, s) && ColumnsOk(b, s) && w < |s.pcs| && t < b.n && d < b.n
    requires s.pcs[w] == Working(t, i, Resume(wroteNew)) && s.sched.dependents[t] != [] && d == s.sched.dependents[t][0]
    ensures ColumnsOk(b, Own(Go(s.(sched := ResumeFirst(s.sched, t)), w, Working(t, i, Resumed(wroteNew, d))), d, Nobody))
  {
    assert ListOk(b, s, t) && s.owner[d] == Queue(t);
    ColumnsHandover(b, s, w, Own(Go(s.(sched := ResumeFirst(s.sched, t)), w, Working(t, i, Resumed(wroteNew, d))), d, Nobody), d);
  }

  lemma ResumeKeepsColumns(b: Block, s: State, w: nat, s': State)
    requires Ownership(b, s) && ColumnsOk(b, s)
    requires w < |s.pcs| && s.pcs[w].Working? && s.pcs[w].tx < b.n && s.pcs[w].work.Resume? && ResumeStep(b, s, w, s')
    ensures ColumnsOk(b, s')
  {
    var t := s.pcs[w].tx;
    if s.sched.dependents[t] == [] {
      ColumnsQuiet(b, s, w, s');
    } else {
      ResumeFirstKeepsColumns(b, s, w, t, s.pcs[w].incarnation, s.pcs[w].work.wroteNew, s.sched.dependents[t][0]);
    }
  }

  lemma ConcludeKeepsColumns(b: Block, s: State, w: nat, s': State)
    requires Ownership(b, s) && ColumnsOk(b, s)
    requires w < |s.pcs| && s.pcs[w].Working? && s.pcs[w].tx < b.n && s.pcs[w].work.Conclude? && ConcludeStep(b, s, w, s')
    ensures ColumnsOk(b, s')
  {
    MyColumn(b, s, w);
    ColumnsHandover(b, s, w, s', s.pcs[w].tx);
  }

  lemma RunKeepsColumns(b: Block, s: State, w: nat, s': State)
    requires WellFormed(b) && Ownership(b, s) && ColumnsOk(b, s)
    requires w < |s.pcs| && s.pcs[w].Working? && s.pcs[w].tx < b.n && s.pcs[w].work.Running? && RunStep(b, s, w, s')
    requires !s'.aborted
    ensures ColumnsOk(b, s')
  {
    var t, i, e := s.pcs[w].tx, s.pcs[w].incarnation, s.pcs[w].work.exec;
    if NextAction(b, t, e).Finish? {
      BeginRecordKeepsColumns(b, s, w, t, i, e);
    } else {
      ColumnsQuiet(b, s, w, s');
    }
  }

  lemma AdjustKeepsColumns(b: Block, s: State, w: nat, s': State)
    requires Ownership(b, s) && ColumnsOk(b, s)
    requires w < |s.pcs| && s.pcs[w].Working? && s.pcs[w].tx < b.n && Adjusts(s.pcs[w].work) && AdjustStep(b, s, w, s')
    ensures ColumnsOk(b, s')
  {
    ColumnsQuiet(b, s, w, s');
  }

  lemma WorkKeepsColumns(b: Block, s: State, w: nat, s': State)
    requires WellFormed(b) && Ownership(b, s) && ColumnsOk(b, s)
    requires w < |s.pcs| && s.pcs[w].Working? && s.pcs[w].tx < b.n && WorkStep(b, s, w, s') && !s'.aborted
    ensures ColumnsOk(b, s')
  {
    match s.pcs[w].work
    case Start => ColumnsQuiet(b, s, w, s');
    case Running(_) => RunKeepsColumns(b, s, w, s');
    case Blocking(_) => BlockKeepsColumns(b, s, w, s');
    case Clearing(_) => ClearKeepsColumns(b, s, w, s');
    case Writing(_, _, _) => WriteKeepsColumns(b, s, w, s');
    case Publish(_, _) => PublishKeepsColumns(b, s, w, s');
    case Resume(_) => ResumeKeepsColumns(b, s, w, s');
    case Conclude(_) => ConcludeKeepsColumns(b, s, w, s');
    case _ => AdjustKeepsColumns(b, s, w, s');
  }

  lemma RevokeKeepsColumns(b: Block, s: State, w: nat, s': State)
    requires Ownership(b, s) && ColumnsOk(b, s)
    requires w < |s.pcs| && s.pcs[w].Validating? && s.pcs[w].tx < b.n && RevokeStep(b, s, w, s')
    ensures ColumnsOk(b, s')
  {
    var t := s.pcs[w].tx;
    if IsFinished(s.sched.status[t].status) {
      assert OwnerOk(b, s, t);
      ColumnsHandover(b, s, w, s', t);
    } else {
      ColumnsQuiet(b, s, w, s');
    }
  }

  lemma ConfirmKeepsColumns(b: Block, s: State, w: nat, s': State)
    requires Ownership(b, s) && ColumnsOk(b, s)
    requires w < |s.pcs| && s.pcs[w].Validating? && s.pcs[w].tx < b.n && ConfirmStep(b, s, w, s')
    ensures ColumnsOk(b, s')
  {
    var t := s.pcs[w].tx;
    assert OwnerOk(b, s, t);
    ColumnsHandover(b, s, w, s', t);
  }

  lemma CheckKeepsColumns(b: Block, s: State, w: nat, s': State)
    requires Ownership(b, s) && ColumnsOk(b, s)
    requires w < |s.pcs| && s.pcs[w].Validating? && s.pcs[w].tx < b.n && CheckStep(b, s, w, s')
    ensures ColumnsOk(b, s')
  {
    match s.pcs[w].check
    case Invalid => RevokeKeepsColumns(b, s, w, s');
    case Valid => ConfirmKeepsColumns(b, s, w, s');
    case _ => ColumnsQuiet(b, s, w, s');
  }

  lemma AbortKeepsColumns(b: Block, s: State, w: nat, s': State)
    requires Ownership(b, s) && ColumnsOk(b, s)
    requires w < |s.pcs| && s.pcs[w].Aborting? && s.pcs[w].tx < b.n && AbortStep(b, s, w, s')
    ensures ColumnsOk(b, s')
  {
    match s.pcs[w].abort
    case Converting(_) => ConvertKeepsColumns(b, s, w, s');
    case Reset =>
      MyColumn(b, s, w);
      ColumnsHandover(b, s, w, s', s.pcs[w].tx);
  }

  lemma RescheduleKeepsColumns(b: Block, s: State, w: nat, s': State)
    requires Ownership(b, s) && ColumnsOk(b, s)
    requires w < |s.pcs| && s.pcs[w].Rescheduling? && s.pcs[w].tx < b.n && RescheduleStep(b, s, w, s')
    ensures ColumnsOk(b, s')
  {
    var t := s.pcs[w].tx;
    if s.pcs[w].reschedule.Retake? && s.sched.status[t].status == ReadyToExecute {
      TakeKeepsColumns(b, s, w, t);
    } else {
      ColumnsQuiet(b, s, w, s');
    }
  }

  lemma StepKeepsColumns(b: Block, s: State, w: nat, s': State)
    requires WellFormed(b) && Ownership(b, s) && ColumnsOk(b, s) && WorkerStep(b, s, w, s') && !s'.aborted
    ensures ColumnsOk(b, s')
  {
    match s.pcs[w]
    case Idle(_) => ColumnsQuiet(b, s, w, s');
    case Claimed(_, _) => ClaimKeepsColumns(b, s, w, s');
    case Working(_, _, _) => WorkKeepsColumns(b, s, w, s');
    case Validating(_, _, _) => CheckKeepsColumns(b, s, w, s');
    case Aborting(_, _) => AbortKeepsColumns(b, s, w, s');
    case Rescheduling(_, _) => RescheduleKeepsColumns(b, s, w, s');
  }
}
