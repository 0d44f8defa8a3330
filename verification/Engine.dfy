/** The parallel engine as a transition system: shared state, any number of workers,
    and one atomic action of one worker at a time. */
module Engine {
  import opened Types
  import opened LazyBalances
  import opened MultiVersion
  import opened SchedulerSteps

  // ---------- The block ----------

  /** What the virtual machine does next, given what it has read so far. */
  datatype Action =
    | Read(loc: Loc)
    | Finish(writes: map<Loc, Write>, result: nat)
    | Stuck   // missing funds or nonce: wait for the transaction before
    | Fail    // any other error ends the parallel run

  /** A block of n transactions over a storage. The virtual machine is a function of
      the transaction, whether it updates lazily, and the values read so far. Seeds
      are the estimates present before anything runs. The beneficiaries may be written
      lazily by every transaction, its parties (sender and recipient) by a lazy one. */
  datatype Block = Block(n: nat, vm: (nat, bool, seq<Value>) -> Action, stored: Loc -> Value, seeds: map<Loc, set<nat>>,
                         beneficiaries: set<nat>, parties: nat -> set<nat>)

  datatype Event = Event(loc: Loc, value: Value)

  /** One execution: what was read, in order, and the origins kept for each location. */
  datatype Exec = Exec(lazy: bool, events: seq<Event>, readSet: ReadSet)

  function Values(events: seq<Event>): seq<Value> {
    seq(|events|, i requires 0 <= i < |events| => events[i].value)
  }

  function NextAction(b: Block, t: nat, e: Exec): Action {
    b.vm(t, e.lazy, Values(e.events))
  }

  function WritesBy(b: Block, t: nat, e: Exec): map<Loc, Write> {
    match NextAction(b, t, e) case Finish(w, _) => w case _ => map[]
  }

  function ResultBy(b: Block, t: nat, e: Exec): nat {
    match NextAction(b, t, e) case Finish(_, r) => r case _ => 0
  }

  // ---------- Workers ----------

  /** Stages of an execution task. From Resume on the worker holds the status lock. */
  datatype WorkStage =
    | Start
    | Running(exec: Exec)
    | Blocking(on: nat)
    | Clearing(exec: Exec)
    | Writing(exec: Exec, todo: set<Loc>, wroteNew: bool)
    | Publish(exec: Exec, wroteNew: bool)
    | Resume(wroteNew: bool)
    | Resumed(wroteNew: bool, dependent: nat)
    | SetMin(wroteNew: bool)
    | Look(wroteNew: bool)
    | Lower
    | Conclude(revalidate: bool)

  datatype CheckStage = Begin | Checking(todo: set<Loc>) | Invalid | Valid

  datatype AbortStage = Converting(todo: set<Loc>) | Reset

  datatype RescheduleStage = LowerAfterAbort | LookExecution | Retake

  datatype IdleStage = Top | LoadValidation(e: nat) | ExitCount | ExitMin(count: int) | ClaimValidation | ClaimExecution

  datatype Pc =
    | Idle(idle: IdleStage)
    | Exited
    | Claimed(tx: nat, forValidation: bool)
    | Working(tx: nat, incarnation: nat, work: WorkStage)
    | Validating(tx: nat, incarnation: nat, check: CheckStage)
    | Aborting(tx: nat, abort: AbortStage)
    | Rescheduling(tx: nat, reschedule: RescheduleStage)

  /** Auxiliary: who is responsible for a transaction that is under way. */
  datatype Owner = Nobody | Worker(id: nat) | Queue(on: nat)

  /** log and owner are auxiliary: no action looks at them. */
  datatype State = State(
    sched: Sched,
    store: Store,
    lastRead: seq<ReadSet>,
    lastWrite: seq<set<Loc>>,
    results: seq<Option<nat>>,
    lazyAddresses: set<nat>,
    aborted: bool,
    pcs: seq<Pc>,
    log: map<TxVersion, Exec>,
    owner: seq<Owner>)

  const TOP := Idle(Top)

  /** The worker is inside finish_execution of t, which keeps the status lock of t. */
  predicate HoldsLock(pc: Pc, t: nat) {
    pc.Working? && pc.tx == t &&
    (pc.work.Resume? || pc.work.Resumed? || pc.work.SetMin? || pc.work.Look? || pc.work.Lower? || pc.work.Conclude?)
  }

  ghost predicate LockFree(s: State, t: nat) {
    forall w :: 0 <= w < |s.pcs| ==> !HoldsLock(s.pcs[w], t)
  }

  function SeedStore(seeds: map<Loc, set<nat>>): Store {
    map l | l in seeds :: map t | t in seeds[l] :: Estimate
  }

  ghost predicate Init(b: Block, s: State) {
    && s.sched == Initial(b.n)
    && s.store == SeedStore(b.seeds)
    && s.lastRead == seq(b.n, i => map[])
    && s.lastWrite == seq(b.n, i => {})
    && |s.results| == b.n
    && s.lazyAddresses == b.beneficiaries
    && !s.aborted
    && |s.pcs| > 0
    && (forall w :: 0 <= w < |s.pcs| ==> s.pcs[w] == TOP)
    && s.log == map[]
    && s.owner == seq(b.n, i => Nobody)
  }

  predicate Shape(b: Block, s: State) {
    && Shaped(s.sched, b.n)
    && |s.lastRead| == b.n && |s.lastWrite| == b.n && |s.results| == b.n && |s.owner| == b.n
  }

  function Go(s: State, w: nat, pc: Pc): State
    requires w < |s.pcs|
  {
    s.(pcs := s.pcs[w := pc])
  }

  function Own(s: State, t: nat, o: Owner): State
    requires t < |s.owner|
  {
    s.(owner := s.owner[t := o])
  }

  // ---------- next_task ----------

  /** Where a worker without a task goes next. */
  function IdleNext(n: nat, q: Sched, aborted: bool, stage: IdleStage): (pc: Pc)
    ensures pc.Idle? || pc.Exited? || (pc.Claimed? && pc.tx < n)
  {
    match stage
    case Top => if aborted then Exited else Idle(LoadValidation(q.executionIdx))
    case LoadValidation(e) =>
      if e >= n && q.validationIdx >= n then Idle(ExitCount)
      else if q.validationIdx < e then Idle(ClaimValidation)
      else Idle(ClaimExecution)
    case ExitCount => Idle(ExitMin(q.numValidated))
    case ExitMin(count) => if count + q.minValidationIdx >= n then Exited else TOP
    case ClaimValidation =>
      if q.validationIdx < n then Claimed(q.validationIdx, true) else Idle(ClaimExecution)
    case ClaimExecution =>
      if q.executionIdx < n then Claimed(q.executionIdx, false) else TOP
  }

  /** Claiming moves a counter on; nothing else changes the scheduler. */
  function IdleSched(q: Sched, stage: IdleStage): (r: Sched)
    ensures r.status == q.status && r.dependents == q.dependents && r.numValidated == q.numValidated
  {
    match stage
    case ClaimValidation => q.(validationIdx := q.validationIdx + 1)
    case ClaimExecution => q.(executionIdx := q.executionIdx + 1)
    case _ => q
  }

  ghost predicate IdleStep(b: Block, s: State, w: nat, s': State)
    requires Shape(b, s) && w < |s.pcs| && s.pcs[w].Idle?
  {
    var stage := s.pcs[w].idle;
    s' == Go(s.(sched := IdleSched(s.sched, stage)), w, IdleNext(b.n, s.sched, s.aborted, stage))
  }

  function Take(s: State, w: nat, t: nat): State
    requires w < |s.pcs| && t < |s.sched.status| && t < |s.owner|
  {
    Own(Go(s.(sched := SetStatus(s.sched, t, Executing)), w, Working(t, s.sched.status[t].incarnation, Start)), t, Worker(w))
  }

  /** What a claim of a transaction that is not ready leads to. */
  function ClaimNext(tx: TxStatus, t: nat, forValidation: bool): (pc: Pc)
    ensures pc == TOP || pc == Idle(ClaimExecution) || (pc == Validating(t, tx.incarnation, Begin) && IsFinished(tx.status))
  {
    if !forValidation then TOP
    else if IsFinished(tx.status) then Validating(t, tx.incarnation, Begin)
    else if tx.status == Status.Aborting then TOP
    else Idle(ClaimExecution)
  }

  ghost predicate ClaimStep(b: Block, s: State, w: nat, s': State)
    requires Shape(b, s) && w < |s.pcs| && s.pcs[w].Claimed? && s.pcs[w].tx < b.n
  {
    var t := s.pcs[w].tx;
    && LockFree(s, t)
    && s' == if s.sched.status[t].status == ReadyToExecute then Take(s, w, t)
             else Go(s, w, ClaimNext(s.sched.status[t], t, s.pcs[w].forValidation))
  }

  // ---------- try_execute, execute, record, finish_execution ----------

  /** The run ends: an error, or nobody to wait for. */
  predicate Fails(b: Block, t: nat, e: Exec) {
    NextAction(b, t, e).Fail? || (NextAction(b, t, e).Stuck? && t == 0)
  }

  /** One read, or waiting for the transaction before. */
  function RunNext(b: Block, store: Store, t: nat, e: Exec): (stage: WorkStage)
    requires !Fails(b, t, e) && !NextAction(b, t, e).Finish?
    ensures stage == Start || stage.Running? || (stage.Blocking? && stage.on < t)
  {
    match NextAction(b, t, e)
    case Stuck => Blocking(t - 1)
    case Read(l) =>
      match MultiVersion.Read(store, l, b.stored(l), t, Previous(e.readSet, l))
      case Blocked(on) => Blocking(on)
      case Inconsistent => Start
      case Got(os, v) => Running(Exec(e.lazy, e.events + [Event(l, v)], e.readSet[l := os]))
  }

  ghost predicate RunStep(b: Block, s: State, w: nat, s': State)
    requires Shape(b, s) && w < |s.pcs| && s.pcs[w].Working? && s.pcs[w].tx < b.n && s.pcs[w].work.Running?
  {
    var t, i, e := s.pcs[w].tx, s.pcs[w].incarnation, s.pcs[w].work.exec;
    s' == if Fails(b, t, e) then Go(s.(aborted := true), w, Exited)
          else if NextAction(b, t, e).Finish? then BeginRecord(b, s, w, t, i, e)
          else Go(s, w, Working(t, i, RunNext(b, s.store, t, e)))
  }

  /** The parties of a lazy transaction are noted, and the read set is replaced before
      any entry is. */
  function BeginRecord(b: Block, s: State, w: nat, t: nat, i: nat, e: Exec): State
    requires w < |s.pcs| && t < |s.lastRead|
  {
    Go(s.(lastRead := s.lastRead[t := e.readSet],
          lazyAddresses := if e.lazy then s.lazyAddresses + b.parties(t) else s.lazyAddresses,
          log := s.log[TxVersion(t, i) := e]), w, Working(t, i, Clearing(e)))
  }

  /** Drop one location the new incarnation does not write. */
  function ClearOne(s: State, t: nat, l: Loc): State
    requires t < |s.lastWrite|
  {
    s.(store := RemoveEntry(s.store, l, t), lastWrite := s.lastWrite[t := s.lastWrite[t] - {l}])
  }

  ghost predicate ClearStep(b: Block, s: State, w: nat, s': State)
    requires Shape(b, s) && w < |s.pcs| && s.pcs[w].Working? && s.pcs[w].tx < b.n && s.pcs[w].work.Clearing?
  {
    var t, i, e := s.pcs[w].tx, s.pcs[w].incarnation, s.pcs[w].work.exec;
    var writes := WritesBy(b, t, e);
    if s.lastWrite[t] <= writes.Keys then s' == Go(s, w, Working(t, i, Writing(e, writes.Keys, false)))
    else exists l :: l in s.lastWrite[t] && l !in writes && s' == ClearOne(s, t, l)
  }

  /** Write one location; it is new if the last recorded incarnation did not write it. */
  function WriteOne(s: State, w: nat, t: nat, i: nat, x: Write, e: Exec, todo: set<Loc>, wroteNew: bool, l: Loc): State
    requires w < |s.pcs| && t < |s.lastWrite|
  {
    Go(s.(store := SetEntry(s.store, l, t, Data(i, x)), lastWrite := s.lastWrite[t := s.lastWrite[t] + {l}]),
       w, Working(t, i, Writing(e, todo - {l}, wroteNew || l !in s.lastWrite[t])))
  }

  ghost predicate WriteStep(b: Block, s: State, w: nat, s': State)
    requires Shape(b, s) && w < |s.pcs| && s.pcs[w].Working? && s.pcs[w].tx < b.n && s.pcs[w].work.Writing?
  {
    var t, i := s.pcs[w].tx, s.pcs[w].incarnation;
    var e, todo, wroteNew := s.pcs[w].work.exec, s.pcs[w].work.todo, s.pcs[w].work.wroteNew;
    var writes := WritesBy(b, t, e);
    if todo == {} then s' == Go(s, w, Working(t, i, Publish(e, wroteNew)))
    else exists l :: l in todo && l in writes && s' == WriteOne(s, w, t, i, writes[l], e, todo, wroteNew, l)
  }

  ghost predicate BlockStep(b: Block, s: State, w: nat, s': State)
    requires Shape(b, s) && w < |s.pcs| && s.pcs[w].Working? && s.pcs[w].tx < b.n && s.pcs[w].work.Blocking?
  {
    var t, i, on := s.pcs[w].tx, s.pcs[w].incarnation, s.pcs[w].work.on;
    && on < b.n && LockFree(s, on) && LockFree(s, t)
    && s' == if IsFinished(s.sched.status[on].status) then Go(s, w, Working(t, i, Start))
             else Own(Go(s.(sched := Enqueue(s.sched, t, on)), w, TOP), t, Queue(on))
  }

  /** Under the status lock, apart from resuming and concluding. */
  predicate Adjusts(stage: WorkStage) {
    stage.Resumed? || stage.SetMin? || stage.Look? || stage.Lower?
  }

  function AdjustSched(q: Sched, t: nat, stage: WorkStage): (r: Sched)
    ensures r.status == q.status && r.dependents == q.dependents && r.numValidated == q.numValidated
  {
    match stage
    case Resumed(_, d) => LowerExecution(q, d)
    case SetMin(_) => LowerMinValidation(q, t)
    case Lower => LowerValidation(q, t + 1)
    case _ => q
  }

  function AdjustNext(q: Sched, t: nat, stage: WorkStage): (r: WorkStage)
    requires Adjusts(stage)
    ensures stage.Resumed? ==> r.Resume?
    ensures !stage.Resumed? ==> r.Look? || r.Lower? || r.Conclude?
  {
    match stage
    case Resumed(wroteNew, _) => Resume(wroteNew)
    case SetMin(wroteNew) => Look(wroteNew)
    case Look(wroteNew) =>
      if t < q.validationIdx then (if wroteNew then Lower else Conclude(true)) else Conclude(false)
    case Lower => Conclude(true)
  }

  ghost predicate AdjustStep(b: Block, s: State, w: nat, s': State)
    requires Shape(b, s) && w < |s.pcs| && s.pcs[w].Working? && s.pcs[w].tx < b.n && Adjusts(s.pcs[w].work)
  {
    var t, i, stage := s.pcs[w].tx, s.pcs[w].incarnation, s.pcs[w].work;
    s' == Go(s.(sched := AdjustSched(s.sched, t, stage)), w, Working(t, i, AdjustNext(s.sched, t, stage)))
  }

  ghost predicate ResumeStep(b: Block, s: State, w: nat, s': State)
    requires Shape(b, s) && w < |s.pcs| && s.pcs[w].Working? && s.pcs[w].tx < b.n && s.pcs[w].work.Resume?
  {
    var t, i, wroteNew, list := s.pcs[w].tx, s.pcs[w].incarnation, s.pcs[w].work.wroteNew, s.sched.dependents[s.pcs[w].tx];
    if list == [] then s' == Go(s, w, Working(t, i, SetMin(wroteNew)))
    else
      && list[0] < b.n && LockFree(s, list[0])
      && s' == Own(Go(s.(sched := ResumeFirst(s.sched, t)), w, Working(t, i, Resumed(wroteNew, list[0]))), list[0], Nobody)
  }

  ghost predicate ConcludeStep(b: Block, s: State, w: nat, s': State)
    requires Shape(b, s) && w < |s.pcs| && s.pcs[w].Working? && s.pcs[w].tx < b.n && s.pcs[w].work.Conclude?
  {
    var t := s.pcs[w].tx;
    s' == Own(Go(s.(sched := SetStatus(s.sched, t, Executed)), w,
                 if s.pcs[w].work.revalidate then Validating(t, s.pcs[w].incarnation, Begin) else TOP), t, Nobody)
  }

  ghost predicate PublishStep(b: Block, s: State, w: nat, s': State)
    requires Shape(b, s) && w < |s.pcs| && s.pcs[w].Working? && s.pcs[w].tx < b.n && s.pcs[w].work.Publish?
  {
    var t, i, e := s.pcs[w].tx, s.pcs[w].incarnation, s.pcs[w].work.exec;
    && LockFree(s, t)
    && s' == Go(s.(results := s.results[t := Some(ResultBy(b, t, e))]), w, Working(t, i, Resume(s.pcs[w].work.wroteNew)))
  }

  ghost predicate WorkStep(b: Block, s: State, w: nat, s': State)
    requires Shape(b, s) && w < |s.pcs| && s.pcs[w].Working? && s.pcs[w].tx < b.n
  {
    match s.pcs[w].work
    case Start =>
      exists lazy :: s' == Go(s, w, Working(s.pcs[w].tx, s.pcs[w].incarnation, Running(Exec(lazy, [], map[]))))
    case Running(_) => RunStep(b, s, w, s')
    case Blocking(_) => BlockStep(b, s, w, s')
    case Clearing(_) => ClearStep(b, s, w, s')
    case Writing(_, _, _) => WriteStep(b, s, w, s')
    case Publish(_, _) => PublishStep(b, s, w, s')
    case Resume(_) => ResumeStep(b, s, w, s')
    case Conclude(_) => ConcludeStep(b, s, w, s')
    case _ => AdjustStep(b, s, w, s')
  }

  // ---------- try_validate ----------

  predicate StillReads(s: State, t: nat, l: Loc)
    requires t < |s.lastRead|
  {
    l !in s.lastRead[t] || Matches(s.store, l, t, s.lastRead[t][l])
  }

  function CheckOne(s: State, t: nat, todo: set<Loc>, l: Loc): CheckStage
    requires t < |s.lastRead|
  {
    if StillReads(s, t, l) then Checking(todo - {l}) else Invalid
  }

  /** One location of the read set. */
  ghost predicate ReadCheckStep(b: Block, s: State, w: nat, s': State)
    requires Shape(b, s) && w < |s.pcs| && s.pcs[w].Validating? && s.pcs[w].tx < b.n && s.pcs[w].check.Checking?
  {
    var t, i, todo := s.pcs[w].tx, s.pcs[w].incarnation, s.pcs[w].check.todo;
    if todo == {} then s' == Go(s, w, Validating(t, i, Valid))
    else exists l :: l in todo && s' == Go(s, w, Validating(t, i, CheckOne(s, t, todo, l)))
  }

  /** An invalid verdict takes back whatever incarnation is finished by now. */
  ghost predicate RevokeStep(b: Block, s: State, w: nat, s': State)
    requires Shape(b, s) && w < |s.pcs| && s.pcs[w].Validating? && s.pcs[w].tx < b.n
  {
    var t := s.pcs[w].tx;
    && LockFree(s, t)
    && s' == if IsFinished(s.sched.status[t].status)
             then Own(Go(s.(sched := Revoke(s.sched, t)), w, Pc.Aborting(t, Converting(s.lastWrite[t]))), t, Worker(w))
             else Go(s, w, Validating(t, s.pcs[w].incarnation, Valid))
  }

  ghost predicate ConfirmStep(b: Block, s: State, w: nat, s': State)
    requires Shape(b, s) && w < |s.pcs| && s.pcs[w].Validating? && s.pcs[w].tx < b.n
  {
    var t := s.pcs[w].tx;
    && LockFree(s, t)
    && s' == Go(s.(sched := Confirm(s.sched, t)), w, TOP)
  }

  ghost predicate CheckStep(b: Block, s: State, w: nat, s': State)
    requires Shape(b, s) && w < |s.pcs| && s.pcs[w].Validating? && s.pcs[w].tx < b.n
  {
    var t := s.pcs[w].tx;
    match s.pcs[w].check
    case Begin => s' == Go(s, w, Validating(t, s.pcs[w].incarnation, Checking(s.lastRead[t].Keys)))
    case Checking(_) => ReadCheckStep(b, s, w, s')
    case Invalid => RevokeStep(b, s, w, s')
    case Valid => ConfirmStep(b, s, w, s')
  }

  /** Only locations the store knows get an estimate. */
  function ConvertOne(store: Store, l: Loc, t: nat): Store {
    if l in store then SetEntry(store, l, t, Estimate) else store
  }

  ghost predicate ConvertStep(b: Block, s: State, w: nat, s': State)
    requires Shape(b, s) && w < |s.pcs| && s.pcs[w].Aborting? && s.pcs[w].tx < b.n && s.pcs[w].abort.Converting?
  {
    var t, todo := s.pcs[w].tx, s.pcs[w].abort.todo;
    if todo == {} then s' == Go(s, w, Pc.Aborting(t, Reset))
    else exists l :: l in todo && s' == Go(s.(store := ConvertOne(s.store, l, t)), w, Pc.Aborting(t, Converting(todo - {l})))
  }

  ghost predicate ResetStep(b: Block, s: State, w: nat, s': State)
    requires Shape(b, s) && w < |s.pcs| && s.pcs[w].Aborting? && s.pcs[w].tx < b.n
  {
    var t := s.pcs[w].tx;
    && LockFree(s, t)
    && s' == Own(Go(s.(sched := SetReady(s.sched, t)), w, Rescheduling(t, LowerAfterAbort)), t, Nobody)
  }

  ghost predicate AbortStep(b: Block, s: State, w: nat, s': State)
    requires Shape(b, s) && w < |s.pcs| && s.pcs[w].Aborting? && s.pcs[w].tx < b.n
  {
    match s.pcs[w].abort
    case Converting(_) => ConvertStep(b, s, w, s')
    case Reset => ResetStep(b, s, w, s')
  }

  ghost predicate RescheduleStep(b: Block, s: State, w: nat, s': State)
    requires Shape(b, s) && w < |s.pcs| && s.pcs[w].Rescheduling? && s.pcs[w].tx < b.n
  {
    var t := s.pcs[w].tx;
    match s.pcs[w].reschedule
    case LowerAfterAbort =>
      s' == Go(s.(sched := LowerValidation(s.sched, t + 1)), w, Rescheduling(t, LookExecution))
    case LookExecution =>
      s' == Go(s, w, if s.sched.executionIdx > t then Rescheduling(t, Retake) else TOP)
    case Retake =>
      && LockFree(s, t)
      && s' == if s.sched.status[t].status == ReadyToExecute then Take(s, w, t) else Go(s, w, TOP)
  }

  // ---------- Runs ----------

  /** One action of worker w. */
  ghost predicate WorkerStep(b: Block, s: State, w: nat, s': State) {
    && Shape(b, s) && w < |s.pcs|
    && match s.pcs[w]
       case Idle(_) => IdleStep(b, s, w, s')
       case Exited => false
       case Claimed(t, _) => t < b.n && ClaimStep(b, s, w, s')
       case Working(t, _, _) => t < b.n && WorkStep(b, s, w, s')
       case Validating(t, _, _) => t < b.n && CheckStep(b, s, w, s')
       case Aborting(t, _) => t < b.n && AbortStep(b, s, w, s')
       case Rescheduling(t, _) => t < b.n && RescheduleStep(b, s, w, s')
  }

  ghost predicate Step(b: Block, s: State, s': State) {
    exists w :: WorkerStep(b, s, w, s')
  }

  /** A run: any interleaving of the workers' actions from an initial state. */
  ghost predicate IsRun(b: Block, run: seq<State>) {
    && run != []
    && Init(b, run[0])
    && forall k: nat :: StepsAt(b, run, k)
  }

  ghost predicate StepsAt(b: Block, run: seq<State>, k: nat) {
    k < |run| - 1 ==> Step(b, run[k], run[k + 1])
  }

  ghost predicate Reachable(b: Block, s: State) {
    exists run :: IsRun(b, run) && run[|run| - 1] == s
  }
}
