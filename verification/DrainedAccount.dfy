/** Why the main theorem speaks of drained accounts: a block of two transactions, the
    second of which reads an account the first has drained. It meets every other premise,
    and a finished run of it ends with another store and another result. */
module DrainedAccount {
  import opened Types
  import opened LazyBalances
  import opened MultiVersion
  import opened SchedulerSteps
  import opened Engine
  import opened Columns
  import opened Invariant
  import opened Serializability
  import opened SoloRuns
  import opened InOrder

  const SENDER := Basic(0)
  const NOTE := Slot(0, 0)

  /** No account is known to storage. */
  function NothingStored(l: Loc): Value {
    match l case Basic(_) => Absent case CodeHash(_) => Code(None) case Slot(_, _) => Word(0)
  }

  const SENDS_NOTHING := map[SENDER := LazySender(0)]

  /** The first transaction sends nothing from a new account, the second notes its nonce. */
  function SendThenNote(t: nat, lazy: bool, vs: seq<Value>): Action {
    if t == 0 then Finish(SENDS_NOTHING, 0)
    else if |vs| == 0 then Action.Read(SENDER)
    else Finish(map[NOTE := Strict(Word(NonceOf(vs[0])))], NonceOf(vs[0]))
  }

  ghost function NoteBlock(): Block {
    Block(2, SendThenNote, NothingStored, map[], {0}, t => {})
  }

  /** The sequential states and results. */
  function StateAt(t: nat): Loc -> Value {
    l => if l == SENDER && t > 0 then Account(0, 1)
         else if l == NOTE && t > 1 then Word(1)
         else Observed(NothingStored(l))
  }

  const STATES := [StateAt(0), StateAt(1), StateAt(2)]
  const RESULTS: seq<nat> := [0, 1]

  lemma NoteBlockIsWellFormed()
    ensures WellFormed(NoteBlock())
  {
  }

  /** What a complete execution of either transaction looks like. */
  lemma RunsOfNote(t: nat, lazy: bool, state: Loc -> Value, events: seq<Event>)
    requires t < 2 && Runs(NoteBlock(), t, lazy, state, events)
    ensures t == 0 ==> events == []
    ensures t == 1 ==> events == [Event(SENDER, state(SENDER))]
  {
    var b, vs := NoteBlock(), Values(events);
    assert events != [] ==> b.vm(t, lazy, vs[..0]) == Action.Read(events[0].loc);
    assert |events| > 1 ==> b.vm(t, lazy, vs[..1]) == Action.Read(events[1].loc);
  }

  lemma NoteBlockIsSequential()
    ensures Sequential(NoteBlock(), STATES, RESULTS)
  {
    var b := NoteBlock();
    assert SequentialStep(b, 0, STATES[0], STATES[1], 0) by {
      assert Runs(b, 0, false, STATES[0], []);
    }
    assert SequentialStep(b, 1, STATES[1], STATES[2], 1) by {
      var events := [Event(SENDER, Account(0, 1))];
      assert Values(events) == [Account(0, 1)] && Values(events)[..0] == [];
      assert Runs(b, 1, false, STATES[1], events);
    }
  }

  lemma NoteBlockIsOtherwiseSerial()
    ensures Sequential(NoteBlock(), STATES, RESULTS)
    ensures LazinessIsHarmless(NoteBlock(), STATES, RESULTS) && Funded(NoteBlock(), STATES)
  {
    var b := NoteBlock();
    NoteBlockIsSequential();
    forall t, lazy, events | 0 <= t < b.n && Runs(b, t, lazy, STATES[t], events)
      ensures lazy ==> b.vm(t, true, Values(events)).result == RESULTS[t]
      ensures lazy ==> forall l :: STATES[t + 1](l) == After(STATES[t], b.vm(t, true, Values(events)).writes, l)
      ensures forall l :: l in b.vm(t, lazy, Values(events)).writes ==> InRange(b.vm(t, lazy, Values(events)).writes[l], STATES[t](l))
    {
      RunsOfNote(t, lazy, STATES[t], events);
    }
  }

  // ---------- The run ----------

  const SEES_NOTHING := Exec(false, [Event(SENDER, Account(0, 0))], map[SENDER := [MvMemory(TxVersion(0, 0)), Storage]])

  lemma FirstRound() returns (s: State)
    ensures Reachable(NoteBlock(), s) && OnTrack(NoteBlock(), s, 1)
    ensures Holds(NoteBlock(), s, 0, NOTHING_READ) && s.sched.status[0] == TxStatus(0, Validated)
  {
    var b := NoteBlock();
    NoteBlockIsWellFormed();
    InitialIsReachable(b, 1);
    var s0 := InitialState(b, 1);
    forall k: nat ensures ReadsOnAt(b, s0.store, 0, [NOTHING_READ], k) {}
    assert OnTrack(b, s0, 0);
    s := Round(b, s0, 0, [NOTHING_READ]);
  }

  /** The reader finds the lazy update, and no account in storage. */
  lemma SeesNothing(store: Store)
    requires EntryAt(store, SENDER, 0) == Some(Data(0, LazySender(0)))
    ensures Walk(ColumnOf(store, SENDER), 1) == Chain([MvMemory(TxVersion(0, 0)), Storage], [LazySender(0)])
    ensures Grows(NoteBlock(), store, 1, [NOTHING_READ, SEES_NOTHING]) && Fresh(store, 1, SEES_NOTHING)
  {
    var b, c := NoteBlock(), ColumnOf(store, SENDER);
    assert c[0] == Data(0, LazySender(0));
    assert Walk(c, 1) == Chain([MvMemory(TxVersion(0, 0))] + [Storage], [LazySender(0)] + []);
    assert [LazySender(0)][1..] == [];
    assert CountAll([LazySender(0)], NOTHING) == CountAll([], Count(NOTHING, LazySender(0)));
    assert Backward([LazySender(0)], Absent) == Absent;
    var r := MultiVersion.Read(store, SENDER, Absent, 1, []);
    assert r.origins == [MvMemory(TxVersion(0, 0)), Storage] && r.value == Account(0, 0);
    assert NOTHING_READ.events + [Event(SENDER, r.value)] == SEES_NOTHING.events;
    assert NextAction(b, 1, NOTHING_READ) == Action.Read(SENDER);
    assert ReadsOn(b, store, 1, NOTHING_READ, SEES_NOTHING);
    forall k: nat ensures ReadsOnAt(b, store, 1, [NOTHING_READ, SEES_NOTHING], k) {}
  }

  lemma SecondRound(s: State) returns (s': State)
    requires Reachable(NoteBlock(), s) && OnTrack(NoteBlock(), s, 1) && Holds(NoteBlock(), s, 0, NOTHING_READ)
    requires s.sched.status[0] == TxStatus(0, Validated)
    ensures Reachable(NoteBlock(), s') && OnTrack(NoteBlock(), s', 2) && Holds(NoteBlock(), s', 1, SEES_NOTHING)
  {
    var b := NoteBlock();
    NoteBlockIsWellFormed();
    assert SENDER in WritesBy(b, 0, NOTHING_READ);
    SeesNothing(s.store);
    assert |Values(SEES_NOTHING.events)| == 1;
    s' := Round(b, s, 1, [NOTHING_READ, SEES_NOTHING]);
  }

  /** Without the premise on drained accounts the main theorem would be false. */
  lemma DrainedReadIsNotSerial() returns (s: State)
    ensures WellFormed(NoteBlock()) && Sequential(NoteBlock(), STATES, RESULTS)
    ensures LazinessIsHarmless(NoteBlock(), STATES, RESULTS) && Funded(NoteBlock(), STATES)
    ensures Reachable(NoteBlock(), s) && !s.aborted && AllExited(s)
    ensures |s.results| == 2 && s.results[1] == Some(0) && RESULTS[1] == 1
    ensures ValueBelow(ColumnOf(s.store, NOTE), Word(0), 2) == Word(0) && STATES[2](NOTE) == Word(1)
    ensures IsDrained(NoteBlock(), STATES, 1, SENDER) && !NoneDrained(NoteBlock(), STATES)
  {
    var b := NoteBlock();
    NoteBlockIsWellFormed();
    NoteBlockIsOtherwiseSerial();
    var s1 := FirstRound();
    var s2 := SecondRound(s1);
    s := EveryoneLeaves(b, s2);
    NoteIsZero(s2);
    SenderIsDrained();
  }

  lemma NoteIsZero(s: State)
    requires Shape(NoteBlock(), s) && Holds(NoteBlock(), s, 1, SEES_NOTHING)
    ensures s.results[1] == Some(0) && ValueBelow(ColumnOf(s.store, NOTE), Word(0), 2) == Word(0)
  {
    var b := NoteBlock();
    assert Values(SEES_NOTHING.events) == [Account(0, 0)];
    assert NOTE in WritesBy(b, 1, SEES_NOTHING);
    assert EntryAt(s.store, NOTE, 1) == Some(Data(s.sched.status[1].incarnation, Strict(Word(0))));
  }

  lemma SenderIsDrained()
    ensures IsDrained(NoteBlock(), STATES, 1, SENDER) && !NoneDrained(NoteBlock(), STATES)
  {
    var b := NoteBlock();
    forall u: nat | u < 1 ensures !WritesStrictly(b, STATES, u, SENDER) {
      assert Runs(b, 0, false, STATES[0], []);
    }
    assert IsDrained(b, STATES, 1, SENDER);
    assert RunsSoFar(b, 1, false, STATES[1], []) && b.vm(1, false, Values([])).Read?;
  }
}
