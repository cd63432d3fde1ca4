/**
 * Cancellation of one HTTP request, as an interleaved step system: `execute` (called once), any number of calls of
 * `cancel` from any threads, also from inside the callback, and the completion handlers on any number of workers.
 */
module HttpCancel {
  import opened Asio

  /** The stages of the chain: `execute`, and the handler of each operation. Each starts the operation of the next. */
  datatype Stage = Execute | Resolve | Connect | Write | ReadStatus | ReadHeaders | ReadBody

  /** How an operation ended; `parsed` is whether the handler's parsing of what it received succeeds. */
  datatype Completion = Completion(stage: Stage, ec: ErrorCode, parsed: bool)

  datatype Pc =
    | Entered(ec: ErrorCode, parsed: bool)
    | AtMux
    | Checking
    | Unlocking
    | Releasing
    | Finishing(ec: ErrorCode)
    | InCallback

  datatype Activity = Outside | Inside(stage: Stage, pc: Pc)

  datatype CancelPc = NotCancelling | Approaching | Marking | Leaving

  datatype Thread = Thread(worker: bool, act: Activity, cancel: CancelPc)

  /** What moves the request on. History: no step depends on it. */
  datatype Driver = Unstarted | Operation(op: Stage) | Runner(t: nat, stage: Stage) | Over

  datatype State = State(
    threads: seq<Thread>,
    mux: Option<nat>,                 // m_cancel_mux
    cancelled: bool,                  // m_was_cancelled
    outstanding: multiset<Stage>,     // operations the io_service will complete
    executed: bool,
    // history
    driver: Driver,
    started: seq<Stage>,
    completions: seq<Completion>,
    delivered: seq<ErrorCode>)        // calls of on_finish

  datatype Action =
    | BeginExecute(t: nat)
    | BeginCancel(t: nat)
    | Dispatch(t: nat, op: Stage, ec: ErrorCode, parsed: bool)
    | Advance(t: nat)
    | Return(t: nat)

  function NextStage(stage: Stage): Stage {
    match stage
    case Execute => Resolve
    case Resolve => Connect
    case Connect => Write
    case Write => ReadStatus
    case ReadStatus => ReadHeaders
    case ReadHeaders => ReadBody
    case ReadBody => ReadBody
  }

  predicate WantsMux(th: Thread) {
    th.cancel.Approaching? || (th.cancel.NotCancelling? && th.act.Inside? && th.act.pc.AtMux?)
  }

  predicate HoldsMux(th: Thread) {
    || th.cancel.Marking? || th.cancel.Leaving?
    || (th.act.Inside? && (th.act.pc.Checking? || th.act.pc.Unlocking? || th.act.pc.Releasing?))
  }

  /** The thread runs the client's own code, as opposed to user code, the callback, or the io_service. */
  predicate InClient(th: Thread) {
    !th.cancel.NotCancelling? || (th.act.Inside? && !th.act.pc.InCallback?)
  }

  predicate CanCall(v: State, t: nat) {
    && t < |v.threads| && v.threads[t].cancel.NotCancelling?
    && (if v.threads[t].act.Outside? then !v.threads[t].worker else v.threads[t].act.pc.InCallback?)
  }

  predicate CanAdvance(v: State, t: nat) {
    t < |v.threads| && InClient(v.threads[t]) && (WantsMux(v.threads[t]) ==> v.mux == None)
  }

  predicate Enabled(v: State, a: Action) {
    match a
    case BeginExecute(t) => CanCall(v, t) && v.threads[t].act.Outside? && !v.executed
    case BeginCancel(t) => CanCall(v, t)
    case Dispatch(t, op, _, _) => t < |v.threads| && v.threads[t] == Thread(true, Outside, NotCancelling)
        && op in v.outstanding
    case Advance(t) => CanAdvance(v, t)
    case Return(t) => CanCall(v, t) && v.threads[t].act.Inside?
  }

  /** The error code a handler passes to `on_finish` before it looks at the cancel flag, if it does. */
  function EarlyFinish(stage: Stage, ec: ErrorCode, parsed: bool): Option<ErrorCode> {
    if stage == ReadBody then Some(if ec == Eof then Success else ec)
    else if ec != Success then Some(ec)
    else if stage == ReadStatus && !parsed then Some(InvalidResponse)
    else None
  }

  /** What a step does: where its thread stands afterwards, and what happens to the state the threads share. */
  datatype Effect = Effect(th: Thread, mux: Option<nat>, cancelled: bool, starts: Option<Stage>,
      finishes: Option<ErrorCode>)

  /** `cancel` on thread `t`. */
  function CancelEffect(v: State, t: nat, th: Thread): Effect {
    match th.cancel
    case Approaching => Effect(th.(cancel := Marking), Some(t), v.cancelled, None, None)
    case Marking => Effect(th.(cancel := Leaving), v.mux, true, None, None)
    case Leaving => Effect(th.(cancel := NotCancelling), None, v.cancelled, None, None)
    case NotCancelling => Effect(th, v.mux, v.cancelled, None, None)
  }

  /** `execute` and the `on_*` handlers, on thread `t`. */
  function StageEffect(v: State, t: nat, th: Thread): Effect
    requires th.act.Inside?
  {
    var stage := th.act.stage;
    match th.act.pc
    case Entered(ec, parsed) =>
      (match EarlyFinish(stage, ec, parsed)
       case Some(code) => Effect(th.(act := Inside(stage, Finishing(code))), v.mux, v.cancelled, None, None)
       case None => Effect(th.(act := Inside(stage, AtMux)), v.mux, v.cancelled, None, None))
    case AtMux => Effect(th.(act := Inside(stage, Checking)), Some(t), v.cancelled, None, None)
    case Checking =>
      if v.cancelled then Effect(th.(act := Inside(stage, Unlocking)), v.mux, v.cancelled, None, None)
      else Effect(th.(act := Inside(stage, Releasing)), v.mux, v.cancelled, Some(NextStage(stage)), None)
    case Unlocking => Effect(th.(act := Inside(stage, Finishing(OperationAborted))), None, v.cancelled, None, None)
    case Releasing => Effect(th.(act := Outside), None, v.cancelled, None, None)
    case Finishing(ec) => Effect(th.(act := Inside(stage, InCallback)), v.mux, v.cancelled, None, Some(ec))
    case InCallback => Effect(th, v.mux, v.cancelled, None, None)
  }

  function ThreadEffect(v: State, t: nat, th: Thread): Effect
    requires InClient(th)
  {
    if th.cancel.NotCancelling? then StageEffect(v, t, th) else CancelEffect(v, t, th)
  }

  function Apply(v: State, t: nat, e: Effect): State
    requires t < |v.threads|
  {
    v.(threads := v.threads[t := e.th],
       mux := e.mux,
       cancelled := e.cancelled,
       outstanding := if e.starts.Some? then v.outstanding + multiset{e.starts.value} else v.outstanding,
       started := if e.starts.Some? then v.started + [e.starts.value] else v.started,
       driver := if e.starts.Some? then Operation(e.starts.value) else v.driver,
       delivered := if e.finishes.Some? then v.delivered + [e.finishes.value] else v.delivered)
  }

  function Next(v: State, a: Action): State
    requires Enabled(v, a)
  {
    var th := v.threads[a.t];
    match a
    case BeginExecute(t) =>
      v.(threads := v.threads[t := th.(act := Inside(Execute, AtMux))], executed := true, driver := Runner(t, Execute))
    case BeginCancel(t) => v.(threads := v.threads[t := th.(cancel := Approaching)])
    case Dispatch(t, op, ec, parsed) =>
      v.(threads := v.threads[t := th.(act := Inside(op, Entered(ec, parsed)))],
         outstanding := v.outstanding - multiset{op}, driver := Runner(t, op),
         completions := v.completions + [Completion(op, ec, parsed)])
    case Advance(t) => Apply(v, t, ThreadEffect(v, t, th))
    case Return(t) => v.(threads := v.threads[t := th.(act := Outside)], driver := Over)
  }

  predicate Init(v: State) {
    && (forall t | 0 <= t < |v.threads| :: v.threads[t].act == Outside && v.threads[t].cancel == NotCancelling)
    && (exists t :: 0 <= t < |v.threads| && v.threads[t].worker)
    && v == State(v.threads, None, false, multiset{}, false, Unstarted, [], [], [])
  }

  ghost predicate IsStep(v: State, w: State) {
    exists a :: Enabled(v, a) && w == Next(v, a)
  }

  ghost predicate IsRun(run: seq<State>) {
    |run| > 0 && forall i :: 0 <= i < |run| - 1 ==> IsStep(run[i], run[i + 1])
  }

  // ----- the invariant

  function Index(stage: Stage): nat {
    match stage
    case Execute => 0
    case Resolve => 1
    case Connect => 2
    case Write => 3
    case ReadStatus => 4
    case ReadHeaders => 5
    case ReadBody => 6
  }

  function StartedUpTo(stage: Stage): seq<Stage> {
    [Resolve, Connect, Write, ReadStatus, ReadHeaders, ReadBody][..Index(stage)]
  }

  /** The operations up to `op` have completed in order, the ones before `op` well. */
  predicate CompletedUpTo(op: Stage, history: seq<Completion>) {
    && |history| == Index(op)
    && (forall i | 0 <= i < |history| :: Index(history[i].stage) == i + 1)
    && (forall i | 0 <= i < |history| - 1 :: EarlyFinish(history[i].stage, history[i].ec, history[i].parsed) == None)
  }

  predicate AllWell(history: seq<Completion>) {
    forall i | 0 <= i < |history| :: EarlyFinish(history[i].stage, history[i].ec, history[i].parsed) == None
  }

  /** The code with which the chain may end, given how its operations completed. */
  predicate MayFinishWith(v: State, ec: ErrorCode) {
    if AllWell(v.completions) then ec == OperationAborted && v.cancelled
    else
      var last := v.completions[|v.completions| - 1];
      EarlyFinish(last.stage, last.ec, last.parsed) == Some(ec)
  }

  predicate RunnerOk(v: State, stage: Stage, pc: Pc) {
    && !pc.Releasing? && v.executed
    && v.started == StartedUpTo(stage) && CompletedUpTo(stage, v.completions)
    && (pc.Entered? ==> stage != Execute && v.completions[|v.completions| - 1] == Completion(stage, pc.ec, pc.parsed))
    && (pc.AtMux? || pc.Checking? || pc.Unlocking? ==> AllWell(v.completions) && stage != ReadBody)
    && (pc.Unlocking? ==> v.cancelled)
    && (pc.Finishing? ==> MayFinishWith(v, pc.ec))
    && (if pc.InCallback? then |v.delivered| == 1 && MayFinishWith(v, v.delivered[0]) else v.delivered == [])
  }

  ghost predicate DriverOk(v: State) {
    match v.driver
    case Unstarted => !v.executed && v.outstanding == multiset{} && v.started == [] && v.completions == []
        && v.delivered == []
    case Operation(op) =>
      && op != Execute && v.executed && v.outstanding == multiset{op} && v.started == StartedUpTo(op)
      && |v.completions| == Index(op) - 1 && AllWell(v.completions)
      && (forall i | 0 <= i < |v.completions| :: Index(v.completions[i].stage) == i + 1)
      && v.delivered == []
    case Runner(t, stage) =>
      && t < |v.threads| && v.outstanding == multiset{}
      && v.threads[t].act.Inside? && v.threads[t].act.stage == stage
      && RunnerOk(v, stage, v.threads[t].act.pc)
    case Over =>
      && v.executed && v.outstanding == multiset{} && |v.delivered| == 1 && MayFinishWith(v, v.delivered[0])
      && (exists stage :: v.started == StartedUpTo(stage) && CompletedUpTo(stage, v.completions))
  }

  predicate ThreadOk(v: State, t: nat)
    requires t < |v.threads|
  {
    var th := v.threads[t];
    && (HoldsMux(th) <==> v.mux == Some(t))
    && (!th.cancel.NotCancelling? ==> (th.act.Outside? && !th.worker) || (th.act.Inside? && th.act.pc.InCallback?))
    && (th.act.Inside? && !th.act.pc.Releasing? ==> v.driver == Runner(t, th.act.stage))
  }

  ghost predicate Inv(v: State) {
    && (forall t | 0 <= t < |v.threads| :: ThreadOk(v, t))
    && (v.mux.Some? ==> v.mux.value < |v.threads|)
    && HasWorker(v)
    && DriverOk(v)
  }

  ghost predicate HasWorker(v: State) {
    exists t :: 0 <= t < |v.threads| && v.threads[t].worker
  }

  lemma InitInv(v: State)
    requires Init(v)
    ensures Inv(v)
  {
  }

  lemma WorkerStays(v: State, w: State, t: nat)
    requires HasWorker(v) && t < |v.threads| == |w.threads| && w.threads == v.threads[t := w.threads[t]]
    requires w.threads[t].worker == v.threads[t].worker
    ensures HasWorker(w)
  {
    var u :| 0 <= u < |v.threads| && v.threads[u].worker;
    assert w.threads[u].worker;
  }

  lemma StageKeepsMux(v: State, t: nat)
    requires Inv(v) && CanAdvance(v, t) && v.threads[t].cancel.NotCancelling?
    ensures
      var e := StageEffect(v, t, v.threads[t]);
      (HoldsMux(e.th) <==> e.mux == Some(t)) && e.th.cancel.NotCancelling? && e.th.worker == v.threads[t].worker
  {
    assert ThreadOk(v, t);
  }

  lemma StageKeepsOwn(v: State, t: nat)
    requires Inv(v) && CanAdvance(v, t) && v.threads[t].cancel.NotCancelling?
    ensures ThreadOk(Next(v, Advance(t)), t)
  {
    assert ThreadOk(v, t);
    StageKeepsMux(v, t);
  }

  lemma StageKeepsOther(v: State, t: nat, u: nat)
    requires Inv(v) && CanAdvance(v, t) && v.threads[t].cancel.NotCancelling? && u < |v.threads| && u != t
    ensures ThreadOk(Next(v, Advance(t)), u)
  {
    assert ThreadOk(v, t) && ThreadOk(v, u);
    EffectShape(v, t);
  }

  lemma StageKeepsThreads(v: State, t: nat, u: nat)
    requires Inv(v) && CanAdvance(v, t) && v.threads[t].cancel.NotCancelling? && u < |v.threads|
    ensures ThreadOk(Next(v, Advance(t)), u)
  {
    if u == t { StageKeepsOwn(v, t); } else { StageKeepsOther(v, t, u); }
  }

  lemma CancelKeepsThreads(v: State, t: nat, u: nat)
    requires Inv(v) && CanAdvance(v, t) && !v.threads[t].cancel.NotCancelling? && u < |v.threads|
    ensures ThreadOk(Next(v, Advance(t)), u)
  {
    assert ThreadOk(v, t) && ThreadOk(v, u);
    EffectShape(v, t);
  }

  lemma StartedNext(stage: Stage)
    requires stage != ReadBody
    ensures StartedUpTo(NextStage(stage)) == StartedUpTo(stage) + [NextStage(stage)]
  {
  }

  lemma EntryKeepsDriver(v: State, t: nat)
    requires Inv(v) && CanAdvance(v, t) && v.threads[t].cancel.NotCancelling? && v.threads[t].act.pc.Entered?
    ensures DriverOk(Next(v, Advance(t)))
  {
    assert ThreadOk(v, t);
  }

  lemma CheckKeepsDriver(v: State, t: nat)
    requires Inv(v) && CanAdvance(v, t) && v.threads[t].cancel.NotCancelling? && v.threads[t].act.pc.Checking?
    ensures DriverOk(Next(v, Advance(t)))
  {
    assert ThreadOk(v, t);
    if v.threads[t].act.stage != ReadBody { StartedNext(v.threads[t].act.stage); }
  }

  lemma FinishingKeepsDriver(v: State, t: nat)
    requires Inv(v) && CanAdvance(v, t) && v.threads[t].cancel.NotCancelling? && v.threads[t].act.pc.Finishing?
    ensures DriverOk(Next(v, Advance(t)))
  {
    assert ThreadOk(v, t);
  }

  lemma MuxKeepsDriver(v: State, t: nat)
    requires Inv(v) && CanAdvance(v, t) && v.threads[t].cancel.NotCancelling?
    requires v.threads[t].act.pc.AtMux? || v.threads[t].act.pc.Unlocking?
    ensures DriverOk(Next(v, Advance(t)))
  {
    assert ThreadOk(v, t);
  }

  /** A handler that only has the mutex to release is not what drives the request any more. */
  lemma ReleaseKeepsDriver(v: State, t: nat)
    requires Inv(v) && CanAdvance(v, t) && v.threads[t].cancel.NotCancelling? && v.threads[t].act.pc.Releasing?
    ensures DriverOk(Next(v, Advance(t)))
  {
    assert ThreadOk(v, t);
    assert v.driver.Runner? ==> v.driver.t != t;
  }

  lemma CancelKeepsDriver(v: State, t: nat)
    requires Inv(v) && CanAdvance(v, t) && !v.threads[t].cancel.NotCancelling?
    ensures DriverOk(Next(v, Advance(t)))
  {
    assert ThreadOk(v, t);
  }

  lemma OtherKeepsThreads(v: State, a: Action, u: nat)
    requires Inv(v) && Enabled(v, a) && !a.Advance? && u < |v.threads|
    ensures ThreadOk(Next(v, a), u)
  {
    assert ThreadOk(v, a.t) && ThreadOk(v, u);
  }

  lemma OtherKeepsDriver(v: State, a: Action)
    requires Inv(v) && Enabled(v, a) && !a.Advance?
    ensures DriverOk(Next(v, a))
  {
    assert ThreadOk(v, a.t);
  }

  lemma AdvanceKeeps(v: State, t: nat)
    requires Inv(v) && CanAdvance(v, t)
    ensures DriverOk(Next(v, Advance(t)))
    ensures forall u | 0 <= u < |v.threads| :: u < |Next(v, Advance(t)).threads| && ThreadOk(Next(v, Advance(t)), u)
  {
    var th := v.threads[t];
    if !th.cancel.NotCancelling? {
      CancelKeepsDriver(v, t);
      forall u | 0 <= u < |v.threads| ensures ThreadOk(Next(v, Advance(t)), u) { CancelKeepsThreads(v, t, u); }
    } else {
      if th.act.pc.Entered? { EntryKeepsDriver(v, t); }
      else if th.act.pc.Checking? { CheckKeepsDriver(v, t); }
      else if th.act.pc.Finishing? { FinishingKeepsDriver(v, t); }
      else if th.act.pc.Releasing? { ReleaseKeepsDriver(v, t); }
      else { MuxKeepsDriver(v, t); }
      forall u | 0 <= u < |v.threads| ensures ThreadOk(Next(v, Advance(t)), u) { StageKeepsThreads(v, t, u); }
    }
  }

  lemma {:induction false} ShapeKeeps(v: State, a: Action)
    requires Inv(v) && Enabled(v, a)
    ensures HasWorker(Next(v, a)) && |Next(v, a).threads| == |v.threads|
    ensures Next(v, a).mux.Some? ==> Next(v, a).mux.value < |v.threads|
  {
    if a.Advance? { EffectShape(v, a.t); }
    WorkerStays(v, Next(v, a), a.t);
  }

  lemma EffectShape(v: State, t: nat)
    requires CanAdvance(v, t)
    ensures
      var e := ThreadEffect(v, t, v.threads[t]);
      e.th.worker == v.threads[t].worker && (e.mux == v.mux || e.mux == None || e.mux == Some(t))
  {
  }

  lemma NextKeeps(v: State, a: Action)
    requires Inv(v) && Enabled(v, a)
    ensures Inv(Next(v, a))
  {
    ShapeKeeps(v, a);
    if a.Advance? {
      AdvanceKeeps(v, a.t);
    } else {
      OtherKeepsDriver(v, a);
      forall u | 0 <= u < |v.threads| ensures ThreadOk(Next(v, a), u) { OtherKeepsThreads(v, a, u); }
    }
  }

  lemma StepKeeps(v: State, w: State)
    requires Inv(v) && IsStep(v, w)
    ensures Inv(w)
  {
    var a :| Enabled(v, a) && w == Next(v, a);
    NextKeeps(v, a);
  }

  lemma {:induction false} RunInv(run: seq<State>, i: nat)
    requires IsRun(run) && (Init(run[0]) || Inv(run[0])) && i < |run|
    ensures Inv(run[i])
  {
    if i == 0 {
      if Init(run[0]) { InitInv(run[0]); }
    } else {
      var k := i - 1;
      RunInv(run, k);
      assert IsStep(run[k], run[k + 1]);
      StepKeeps(run[k], run[i]);
    }
  }
}
