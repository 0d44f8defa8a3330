/** The engine's promise: whatever the schedule, a run that is not aborted ends with
    the values and results of executing the transactions one after another. */
module Serializability {
  import opened Types
  import opened LazyBalances
  import opened MultiVersion
  import opened SchedulerSteps
  import opened Engine
  import opened Owners
  import opened Columns
  import opened History
  import opened Coverage
  import opened Progress
  import opened Invariant

  // ---------- Sequential execution ----------

  /** An execution of t on top of a state, as far as it has come. */
  ghost predicate RunsSoFar(b: Block, t: nat, lazy: bool, state: Loc -> Value, events: seq<Event>) {
    forall k :: 0 <= k < |events| ==>
      && b.vm(t, lazy, Values(events)[..k]) == Action.Read(events[k].loc)
      && events[k].value == state(events[k].loc)
  }

  /** A complete one: it has read what the state holds, and writes. */
  ghost predicate Runs(b: Block, t: nat, lazy: bool, state: Loc -> Value, events: seq<Event>) {
    RunsSoFar(b, t, lazy, state, events) && b.vm(t, lazy, Values(events)).Finish?
  }

  function After(state: Loc -> Value, writes: map<Loc, Write>, l: Loc): Value {
    if l in writes then Apply(writes[l], state(l)) else state(l)
  }

  /** Transaction t, executed alone and not lazily, takes one state to the next. */
  ghost predicate SequentialStep(b: Block, t: nat, state: Loc -> Value, next: Loc -> Value, result: nat) {
    exists events ::
      && Runs(b, t, false, state, events)
      && b.vm(t, false, Values(events)).result == result
      && forall l :: next(l) == After(state, b.vm(t, false, Values(events)).writes, l)
  }

  /** The states and results of the sequential execution of the block. */
  ghost predicate Sequential(b: Block, states: seq<Loc -> Value>, results: seq<nat>) {
    && |states| == b.n + 1 && |results| == b.n
    && (forall l :: states[0](l) == Observed(b.stored(l)))
    && (forall t :: 0 <= t < b.n ==> SequentialStep(b, t, states[t], states[t + 1], results[t]))
  }

  /** Lazy updating is only another way to do the same: on the sequential states it
      has the effects of the ordinary execution. */
  ghost predicate LazinessIsHarmless(b: Block, states: seq<Loc -> Value>, results: seq<nat>)
    requires |states| == b.n + 1 && |results| == b.n
  {
    forall t, events :: 0 <= t < b.n && Runs(b, t, true, states[t], events) ==>
      && b.vm(t, true, Values(events)).result == results[t]
      && forall l :: states[t + 1](l) == After(states[t], b.vm(t, true, Values(events)).writes, l)
  }

  /** No lazy update of the block overflows or overdraws. */
  ghost predicate Funded(b: Block, states: seq<Loc -> Value>)
    requires |states| == b.n + 1
  {
    forall t, lazy, events :: 0 <= t < b.n && Runs(b, t, lazy, states[t], events) ==>
      forall l :: l in b.vm(t, lazy, Values(events)).writes ==> InRange(b.vm(t, lazy, Values(events)).writes[l], states[t](l))
  }

  /** However transaction u is executed, it writes the location outright. */
  ghost predicate WritesStrictly(b: Block, states: seq<Loc -> Value>, u: nat, l: Loc)
    requires |states| == b.n + 1 && u < b.n
  {
    forall lazy, events :: Runs(b, u, lazy, states[u], events) ==>
      var writes := b.vm(u, lazy, Values(events)).writes;
      l in writes && writes[l].Strict?
  }

  /** An account that storage does not know, that has sent and has nothing left, and that
      no lower transaction is sure to have written outright. */
  ghost predicate IsDrained(b: Block, states: seq<Loc -> Value>, t: nat, l: Loc)
    requires |states| == b.n + 1 && t <= b.n
  {
    && l.Basic? && b.stored(l).Absent? && BalanceOf(states[t](l)) == 0 && NonceOf(states[t](l)) > 0
    && forall u: nat :: u < t ==> !WritesStrictly(b, states, u, l)
  }

  /** No transaction of the sequential run looks at a drained account. */
  ghost predicate NoneDrained(b: Block, states: seq<Loc -> Value>)
    requires |states| == b.n + 1
  {
    forall t, lazy, events :: 0 <= t < b.n && RunsSoFar(b, t, lazy, states[t], events) && b.vm(t, lazy, Values(events)).Read? ==>
      !IsDrained(b, states, t, b.vm(t, lazy, Values(events)).loc)
  }

  /** Sequential execution is deterministic. */
  lemma {:induction false} RunsPrefix(b: Block, t: nat, lazy: bool, state: Loc -> Value, e: seq<Event>, f: seq<Event>, k: nat)
    requires Runs(b, t, lazy, state, e) && Runs(b, t, lazy, state, f) && k <= |e| && k <= |f|
    ensures e[..k] == f[..k]
  {
    if k > 0 {
      RunsPrefix(b, t, lazy, state, e, f, k - 1);
      assert Values(e)[..k - 1] == Values(e[..k - 1]) && Values(f)[..k - 1] == Values(f[..k - 1]);
      assert e[..k] == e[..k - 1] + [e[k - 1]] && f[..k] == f[..k - 1] + [f[k - 1]];
      assert e[k - 1] == Event(e[k - 1].loc, e[k - 1].value) && f[k - 1] == Event(f[k - 1].loc, f[k - 1].value);
    }
  }

  lemma RunsOnce(b: Block, t: nat, lazy: bool, state: Loc -> Value, e: seq<Event>, f: seq<Event>)
    requires Runs(b, t, lazy, state, e) && Runs(b, t, lazy, state, f)
    ensures e == f
  {
    var k := if |e| <= |f| then |e| else |f|;
    RunsPrefix(b, t, lazy, state, e, f, k);
    assert Values(e)[..k] == Values(e[..k]) && Values(f)[..k] == Values(f[..k]);
    assert e[..|e|] == e && f[..|f|] == f && Values(e)[..|e|] == Values(e) && Values(f)[..|f|] == Values(f);
  }

  /** Whichever way t was executed, its effects are those of the sequential step. */
  lemma EitherWay(b: Block, states: seq<Loc -> Value>, results: seq<nat>, t: nat, lazy: bool, events: seq<Event>)
    requires Sequential(b, states, results) && LazinessIsHarmless(b, states, results)
    requires t < b.n && Runs(b, t, lazy, states[t], events)
    ensures b.vm(t, lazy, Values(events)).result == results[t]
    ensures forall l :: states[t + 1](l) == After(states[t], b.vm(t, lazy, Values(events)).writes, l)
  {
    if !lazy {
      assert SequentialStep(b, t, states[t], states[t + 1], results[t]);
      var f :|
        && Runs(b, t, false, states[t], f)
        && b.vm(t, false, Values(f)).result == results[t]
        && forall l :: states[t + 1](l) == After(states[t], b.vm(t, false, Values(f)).writes, l);
      RunsOnce(b, t, false, states[t], events, f);
    }
  }

  lemma RecordedEitherWay(b: Block, states: seq<Loc -> Value>, results: seq<nat>, t: nat, next: nat, e: Exec)
    requires Sequential(b, states, results) && LazinessIsHarmless(b, states, results)
    requires t < b.n && next == t + 1 && Runs(b, t, e.lazy, states[t], e.events)
    ensures ResultBy(b, t, e) == results[t]
    ensures forall l :: states[next](l) == After(states[t], WritesBy(b, t, e), l)
  {
    EitherWay(b, states, results, t, e.lazy, e.events);
  }

  // ---------- Chains and states ----------

  ghost predicate LocationAgrees(b: Block, s: State, states: seq<Loc -> Value>, l: Loc, u: nat)
    requires u < |states|
  {
    ValueBelow(ColumnOf(s.store, l), Observed(b.stored(l)), u) == states[u](l)
  }

  ghost predicate EntryFits(b: Block, s: State, states: seq<Loc -> Value>, l: Loc, u: nat)
    requires u < |states|
  {
    u in ColumnOf(s.store, l) && ColumnOf(s.store, l)[u].Data? ==> InRange(ColumnOf(s.store, l)[u].write, states[u](l))
  }

  /** Below t, the columns of the store evaluate to the sequential states, and no step
      of the evaluation saturates. */
  ghost predicate AgreesBelow(b: Block, s: State, states: seq<Loc -> Value>, t: nat)
    requires |states| == b.n + 1 && t <= b.n
  {
    && (forall l, u: nat :: u <= t ==> LocationAgrees(b, s, states, l, u))
    && (forall l, u: nat :: u < t ==> EntryFits(b, s, states, l, u))
  }

  /** A walk collects the writes that make up the value below t. */
  lemma {:induction false} WalkValue(c: Column, t: nat, base: Value)
    requires Walk(c, t).Chain?
    ensures Forward(Walk(c, t).writes, base) == ValueBelow(c, base, t)
  {
    if t > 0 {
      if t - 1 !in c {
        WalkValue(c, t - 1, base);
      } else {
        var w := c[t - 1].write;
        if w.Strict? {
          assert [w][1..] == [];
        } else {
          WalkValue(c, t - 1, base);
          assert Walk(c, t).writes[1..] == Walk(c, t - 1).writes;
        }
      }
    }
  }

  /** The entry of u, if it holds one, is in range on top of everything below it. */
  predicate EntryInRange(c: Column, base: Value, u: nat) {
    u in c && c[u].Data? ==> InRange(c[u].write, ValueBelow(c, base, u))
  }

  lemma {:induction false} WalkInRange(c: Column, t: nat, base: Value)
    requires Walk(c, t).Chain?
    requires forall u: nat :: u < t ==> EntryInRange(c, base, u)
    ensures StaysInRange(Walk(c, t).writes, base)
  {
    if t > 0 {
      if t - 1 !in c {
        WalkInRange(c, t - 1, base);
      } else if c[t - 1].write.Strict? {
        assert [c[t - 1].write][1..] == [];
      } else {
        WalkInRange(c, t - 1, base);
        WalkValue(c, t - 1, base);
        assert EntryInRange(c, base, t - 1);
        assert Walk(c, t).writes[1..] == Walk(c, t - 1).writes;
      }
    }
  }

  /** A walk down an account column yields an account chain. */
  lemma {:induction false} WalkAccounts(c: Column, t: nat)
    requires Walk(c, t).Chain?
    requires forall u: nat :: u in c && c[u].Data? && c[u].write.Strict? ==> c[u].write.value.Account?
    ensures AccountChain(Walk(c, t).writes)
  {
    if t > 0 {
      if t - 1 !in c {
        WalkAccounts(c, t - 1);
      } else if IsLazy(c[t - 1].write) {
        WalkAccounts(c, t - 1);
        var ws, rest := Walk(c, t).writes, Walk(c, t - 1).writes;
        assert ws == [c[t - 1].write] + rest;
      }
    }
  }

  lemma AccountColumn(b: Block, s: State, a: nat, u: nat)
    requires WellFormed(b) && ColumnsOk(b, s) && HistoryOk(b, s)
    requires
      var c := ColumnOf(s.store, Basic(a));
      u in c && c[u].Data? && c[u].write.Strict?
    ensures ColumnOf(s.store, Basic(a))[u].write.value.Account?
  {
    assert EntryAt(s.store, Basic(a), u) == Some(ColumnOf(s.store, Basic(a))[u]);
    EntryIsLogged(b, s, Basic(a), u);
    StrictVersions(b, s, Basic(a), TxVersion(u, ColumnOf(s.store, Basic(a))[u].incarnation));
  }

  /** A chain whose forward value is the sequential one is read as that value, unless it
      drains the account. */
  lemma ChainIsRead(b: Block, state: Loc -> Value, l: Loc, ws: seq<Write>)
    requires WellFormed(b) && (l.Basic? ==> !Drained(ws, b.stored(l)))
    requires Forward(ws, Observed(b.stored(l))) == state(l) && StaysInRange(ws, Observed(b.stored(l)))
    requires l.Basic? ==> AccountChain(ws)
    ensures Resolve(l, ws, b.stored(l)) == state(l)
  {
    if l.Basic? {
      assert b.stored(Basic(l.address)).Account? || b.stored(Basic(l.address)).Absent?;
      BackwardMeetsForward(ws, b.stored(l));
    }
  }

  /** The store holds exactly what execution e of t wrote, and the slot its result. */
  ghost predicate Holds(b: Block, s: State, t: nat, e: Exec)
    requires Shape(b, s) && t < b.n
  {
    && s.results[t] == Some(ResultBy(b, t, e))
    && forall l :: EntryAt(s.store, l, t) ==
                   if l in WritesBy(b, t, e) then Some(Data(s.sched.status[t].incarnation, WritesBy(b, t, e)[l])) else None
  }

  /** What the store holds of t comes from an execution on the sequential state. */
  ghost predicate HoldsRun(b: Block, s: State, states: seq<Loc -> Value>, t: nat)
    requires Shape(b, s) && t < b.n && |states| == b.n + 1
  {
    exists e: Exec :: Runs(b, t, e.lazy, states[t], e.events) && Holds(b, s, t, e)
  }

  ghost predicate HoldsRunsBelow(b: Block, s: State, states: seq<Loc -> Value>, t: nat)
    requires Shape(b, s) && t <= b.n && |states| == b.n + 1
  {
    forall u: nat :: u < t ==> HoldsRun(b, s, states, u)
  }

  /** A walk that has collected nothing but lazy writes has met no other. */
  lemma {:induction false} LazyWalk(c: Column, t: nat, u: nat)
    requires Walk(c, t).Chain? && (forall i :: 0 <= i < |Walk(c, t).writes| ==> IsLazy(Walk(c, t).writes[i]))
    requires u < t && u in c
    ensures c[u].Data? && IsLazy(c[u].write)
  {
    if t - 1 !in c {
      LazyWalk(c, t - 1, u);
    } else {
      assert IsLazy(Walk(c, t).writes[0]);
      if u < t - 1 {
        var rest := Walk(c, t - 1).writes;
        assert Walk(c, t).writes == [c[t - 1].write] + rest;
        assert forall i :: 0 <= i < |rest| ==> rest[i] == Walk(c, t).writes[i + 1];
        LazyWalk(c, t - 1, u);
      }
    }
  }

  /** So a chain that drains an account means that the sequential state is drained. */
  lemma DrainedChain(b: Block, s: State, states: seq<Loc -> Value>, t: nat, l: Loc)
    requires Shape(b, s) && |states| == b.n + 1 && t <= b.n && HoldsRunsBelow(b, s, states, t) && l.Basic?
    requires Walk(ColumnOf(s.store, l), t).Chain?
    requires
      var ws := Walk(ColumnOf(s.store, l), t).writes;
      Drained(ws, b.stored(l)) && StaysInRange(ws, Observed(b.stored(l))) && Forward(ws, Observed(b.stored(l))) == states[t](l)
    ensures IsDrained(b, states, t, l)
  {
    var c := ColumnOf(s.store, l);
    DrainedForward(Walk(c, t).writes, b.stored(l));
    forall u: nat | u < t ensures !WritesStrictly(b, states, u, l) {
      assert HoldsRun(b, s, states, u);
      var e: Exec :| Runs(b, u, e.lazy, states[u], e.events) && Holds(b, s, u, e);
      if WritesStrictly(b, states, u, l) {
        assert l in WritesBy(b, u, e) && WritesBy(b, u, e)[l].Strict?;
        assert EntryAt(s.store, l, u).Some?;
        LazyWalk(c, t, u);
      }
    }
  }

  /** Where the store agrees with the sequential states below t, a reader of t that is not
      blocked gets the sequential value. */
  lemma WalkIsState(b: Block, s: State, states: seq<Loc -> Value>, t: nat, l: Loc)
    requires WellFormed(b) && ColumnsOk(b, s) && HistoryOk(b, s) && |states| == b.n + 1 && t <= b.n
    requires AgreesBelow(b, s, states, t) && HoldsRunsBelow(b, s, states, t) && !IsDrained(b, states, t, l)
    requires Walk(ColumnOf(s.store, l), t).Chain?
    ensures Resolve(l, Walk(ColumnOf(s.store, l), t).writes, b.stored(l)) == states[t](l)
  {
    var c, base := ColumnOf(s.store, l), Observed(b.stored(l));
    forall u: nat | u < t ensures EntryInRange(c, base, u) {
      assert LocationAgrees(b, s, states, l, u) && EntryFits(b, s, states, l, u);
    }
    assert LocationAgrees(b, s, states, l, t);
    WalkValue(c, t, base);
    WalkInRange(c, t, base);
    if l.Basic? {
      forall u: nat | u in c && c[u].Data? && c[u].write.Strict? ensures c[u].write.value.Account? {
        AccountColumn(b, s, l.address, u);
      }
      WalkAccounts(c, t);
      if Drained(Walk(c, t).writes, b.stored(l)) { DrainedChain(b, s, states, t, l); }
    }
    ChainIsRead(b, states[t], l, Walk(c, t).writes);
  }

  /** In a settled prefix, what a transaction has read is what it reads in the sequential
      run. */
  lemma ReadsSequentialValue(b: Block, s: State, states: seq<Loc -> Value>, k: nat, t: nat, l: Loc)
    requires WellFormed(b) && Inv(b, s) && PrefixSettled(b, s, k) && |states| == b.n + 1
    requires t < k && l in s.lastRead[t] && AgreesBelow(b, s, states, t) && HoldsRunsBelow(b, s, states, t)
    requires !IsDrained(b, states, t, l)
    requires Current(s, t) in s.log && OriginsOk(b, s.log, t, s.log[Current(s, t)]) && s.log[Current(s, t)].readSet == s.lastRead[t]
    ensures ReadValue(b, s.log, l, s.lastRead[t][l]) == states[t](l)
  {
    var c, os, vs := ColumnOf(s.store, l), s.lastRead[t][l], VersionsAt(b, s.log, l);
    PrefixMatches(b, s, k, t, l);
    StoreAgrees(b, s, l);
    MatchesExactlyRereads(c, t, os, vs);
    EmptyColumn(t);
    WalkIsComplete(c, t, vs);
    WalkIsState(b, s, states, t, l);
  }

  /** If the recorded execution agrees with the state so far, so does its next event. */
  ghost predicate NextAgrees(b: Block, t: nat, e: Exec, state: Loc -> Value, k: nat) {
    k < |e.events| && RunsSoFar(b, t, e.lazy, state, e.events[..k]) ==>
      && b.vm(t, e.lazy, Values(e.events[..k])) == Action.Read(e.events[k].loc)
      && e.events[k].value == state(e.events[k].loc)
  }

  lemma RecordedNextAgrees(b: Block, s: State, states: seq<Loc -> Value>, k: nat, t: nat, e: Exec, j: nat)
    requires WellFormed(b) && Inv(b, s) && PrefixSettled(b, s, k) && |states| == b.n + 1 && NoneDrained(b, states)
    requires t < k && AgreesBelow(b, s, states, t) && HoldsRunsBelow(b, s, states, t)
    requires Current(s, t) in s.log && e == s.log[Current(s, t)] && e.readSet == s.lastRead[t] && ExecOk(b, s.log, t, e)
    ensures NextAgrees(b, t, e, states[t], j)
  {
    if j < |e.events| && RunsSoFar(b, t, e.lazy, states[t], e.events[..j]) {
      assert Values(e.events)[..j] == Values(e.events[..j]);
      ReadsSequentialValue(b, s, states, k, t, e.events[j].loc);
    }
  }

  lemma {:induction false} AgreesSoFar(b: Block, t: nat, e: Exec, state: Loc -> Value, k: nat)
    requires k <= |e.events| && forall j: nat :: NextAgrees(b, t, e, state, j)
    ensures RunsSoFar(b, t, e.lazy, state, e.events[..k])
  {
    if k > 0 {
      AgreesSoFar(b, t, e, state, k - 1);
      assert NextAgrees(b, t, e, state, k - 1);
      RunsOneMore(b, t, e.lazy, state, e.events[..k - 1], e.events[k - 1]);
      assert e.events[..k] == e.events[..k - 1] + [e.events[k - 1]];
    }
  }

  lemma RunsOneMore(b: Block, t: nat, lazy: bool, state: Loc -> Value, events: seq<Event>, event: Event)
    requires RunsSoFar(b, t, lazy, state, events)
    requires b.vm(t, lazy, Values(events)) == Action.Read(event.loc) && event.value == state(event.loc)
    ensures RunsSoFar(b, t, lazy, state, events + [event])
  {
    var more := events + [event];
    forall k | 0 <= k < |more|
      ensures b.vm(t, lazy, Values(more)[..k]) == Action.Read(more[k].loc) && more[k].value == state(more[k].loc)
    {
      if k < |events| {
        assert Values(more)[..k] == Values(events)[..k];
      } else {
        assert Values(more)[..k] == Values(events);
      }
    }
  }

  /** So its recorded execution is an execution on the sequential state. */
  lemma RecordedRuns(b: Block, s: State, states: seq<Loc -> Value>, k: nat, t: nat) returns (e: Exec)
    requires WellFormed(b) && Inv(b, s) && PrefixSettled(b, s, k) && |states| == b.n + 1 && NoneDrained(b, states)
    requires t < k && AgreesBelow(b, s, states, t) && HoldsRunsBelow(b, s, states, t)
    ensures Runs(b, t, e.lazy, states[t], e.events) && Holds(b, s, t, e)
  {
    PrefixColumn(b, s, k, t);
    e := s.log[Current(s, t)];
    assert ExecOk(b, s.log, t, e);
    forall j: nat ensures NextAgrees(b, t, e, states[t], j) {
      RecordedNextAgrees(b, s, states, k, t, e, j);
    }
    AgreesSoFar(b, t, e, states[t], |e.events|);
    assert e.events[..|e.events|] == e.events;
  }

  lemma RecordedIsFunded(b: Block, states: seq<Loc -> Value>, t: nat, e: Exec)
    requires |states| == b.n + 1 && Funded(b, states) && t < b.n && Runs(b, t, e.lazy, states[t], e.events)
    ensures WritesInRange(b, t, e, states[t])
  {
  }

  predicate WriteInRange(b: Block, t: nat, e: Exec, state: Loc -> Value, l: Loc) {
    l in WritesBy(b, t, e) ==> InRange(WritesBy(b, t, e)[l], state(l))
  }

  ghost predicate WritesInRange(b: Block, t: nat, e: Exec, state: Loc -> Value) {
    forall l :: WriteInRange(b, t, e, state, l)
  }

  /** One more transaction. */
  lemma AgreesOneMore(b: Block, s: State, states: seq<Loc -> Value>, t: nat, next: nat, e: Exec)
    requires next == t + 1 && Shape(b, s) && |states| == b.n + 1 && t < b.n && Holds(b, s, t, e)
    requires AgreesBelow(b, s, states, t) && WritesInRange(b, t, e, states[t])
    requires forall l :: states[next](l) == After(states[t], WritesBy(b, t, e), l)
    ensures AgreesBelow(b, s, states, next)
  {
    forall l ensures LocationAgrees(b, s, states, l, next) && EntryFits(b, s, states, l, t) {
      assert LocationAgrees(b, s, states, l, t) && WriteInRange(b, t, e, states[t], l);
      OneMoreWrite(b, s, states, t, e, l);
    }
    AgreesFurther(b, s, states, t, next);
  }

  lemma AgreesFurther(b: Block, s: State, states: seq<Loc -> Value>, t: nat, next: nat)
    requires next == t + 1 && |states| == b.n + 1 && t < b.n && AgreesBelow(b, s, states, t)
    requires forall l :: LocationAgrees(b, s, states, l, next) && EntryFits(b, s, states, l, t)
    ensures AgreesBelow(b, s, states, next)
  {
  }

  lemma OneMoreWrite(b: Block, s: State, states: seq<Loc -> Value>, t: nat, e: Exec, l: Loc)
    requires |states| == b.n + 1 && t < b.n && t < |s.sched.status|
    requires LocationAgrees(b, s, states, l, t) && WriteInRange(b, t, e, states[t], l)
    requires states[t + 1](l) == After(states[t], WritesBy(b, t, e), l)
    requires EntryAt(s.store, l, t) ==
             if l in WritesBy(b, t, e) then Some(Data(s.sched.status[t].incarnation, WritesBy(b, t, e)[l])) else None
    ensures LocationAgrees(b, s, states, l, t + 1) && EntryFits(b, s, states, l, t)
  {
  }

  /** The assumptions on the block, with its sequential execution. */
  ghost predicate Serial(b: Block, states: seq<Loc -> Value>, results: seq<nat>) {
    && Sequential(b, states, results)
    && LazinessIsHarmless(b, states, results)
    && Funded(b, states)
    && NoneDrained(b, states)
  }

  lemma AgreesNext(b: Block, s: State, states: seq<Loc -> Value>, results: seq<nat>, k: nat, t: nat, next: nat)
    requires WellFormed(b) && Inv(b, s) && PrefixSettled(b, s, k) && Serial(b, states, results)
    requires t < k && next == t + 1 && AgreesBelow(b, s, states, t) && HoldsRunsBelow(b, s, states, t)
    ensures AgreesBelow(b, s, states, next) && HoldsRun(b, s, states, t) && s.results[t] == Some(results[t])
  {
    var e := RecordedRuns(b, s, states, k, t);
    RecordedEitherWay(b, states, results, t, next, e);
    RecordedIsFunded(b, states, t, e);
    AgreesOneMore(b, s, states, t, next, e);
  }

  lemma {:induction false} AgreesInPrefix(b: Block, s: State, states: seq<Loc -> Value>, results: seq<nat>, k: nat, t: nat)
    requires WellFormed(b) && Inv(b, s) && PrefixSettled(b, s, k) && Serial(b, states, results)
    requires t <= k
    ensures AgreesBelow(b, s, states, t) && HoldsRunsBelow(b, s, states, t)
    ensures forall u :: 0 <= u < t ==> s.results[u] == Some(results[u])
  {
    if t == 0 {
      forall l ensures LocationAgrees(b, s, states, l, 0) {}
    } else {
      var p: nat := t - 1;
      AgreesInPrefix(b, s, states, results, k, p);
      AgreesNext(b, s, states, results, k, p, t);
      forall u: nat | u < t ensures HoldsRun(b, s, states, u) {}
    }
  }

  /** Already in the middle of a run: where a prefix of the block is settled, every
      location below it evaluates to what the sequential execution gives, and its result
      slots hold the sequential results. */
  lemma SettledPrefixIsSerial(b: Block, s: State, states: seq<Loc -> Value>, results: seq<nat>, k: nat)
    requires WellFormed(b) && Reachable(b, s) && !s.aborted && PrefixSettled(b, s, k)
    requires Serial(b, states, results)
    ensures forall l, t: nat :: t <= k ==> ValueBelow(ColumnOf(s.store, l), Observed(b.stored(l)), t) == states[t](l)
    ensures forall t :: 0 <= t < k ==> s.results[t] == Some(results[t])
  {
    ReachableInv(b, s);
    AgreesInPrefix(b, s, states, results, k, k);
    forall l, t: nat | t <= k ensures ValueBelow(ColumnOf(s.store, l), Observed(b.stored(l)), t) == states[t](l) {
      assert LocationAgrees(b, s, states, l, t);
    }
  }

  /** Serializability. However the workers interleaved, once no worker has work left and
      both counters are past the block, every location below every transaction
      evaluates to what the sequential execution gives, and every result slot holds
      the sequential result. */
  lemma Serializable(b: Block, s: State, states: seq<Loc -> Value>, results: seq<nat>)
    requires WellFormed(b) && Reachable(b, s) && !s.aborted && AtRest(b, s)
    requires Serial(b, states, results)
    ensures forall l, t: nat :: t <= b.n ==> ValueBelow(ColumnOf(s.store, l), Observed(b.stored(l)), t) == states[t](l)
    ensures s.results == seq(b.n, t requires 0 <= t < b.n => Some(results[t]))
  {
    ReachableInv(b, s);
    AtRestIsSettled(b, s);
    SettledPrefixIsSerial(b, s, states, results, b.n);
  }

  /** In particular when all workers have left. */
  lemma FinishedRunIsSerial(b: Block, s: State, states: seq<Loc -> Value>, results: seq<nat>)
    requires WellFormed(b) && Reachable(b, s) && !s.aborted && AllExited(s)
    requires Serial(b, states, results)
    ensures forall l, t: nat :: t <= b.n ==> ValueBelow(ColumnOf(s.store, l), Observed(b.stored(l)), t) == states[t](l)
    ensures s.results == seq(b.n, t requires 0 <= t < b.n => Some(results[t]))
  {
    ReachableInv(b, s);
    ExitedIsAtRest(b, s);
    Serializable(b, s, states, results);
  }
}
