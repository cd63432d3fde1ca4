/**
 * The multi-threaded asynchronous TCP client as an interleaved step system.
 *
 * Any number of threads run at once: workers inside `io_service::run`, and user threads that call
 * `emulateLongComputationOp`, `cancelRequest` and `close`. A callback runs on a worker and may call the
 * first two as well. One step is one mutex operation or one access to shared state, so every
 * interleaving the mutexes allow is a run of this system.
 */
module TcpClient {
  import opened Asio

  datatype Operation = Connect | Write | Read

  /** What moves a session on: its submitter, the operation it waits for, or the handler of that operation. */
  datatype Stage =
    | Fresh(submitter: nat)
    | Pending(op: Operation)
    | Running(op: Operation, runner: nat)
    | Done

  datatype Completion = Completion(op: Operation, ec: ErrorCode, line: string)

  /** One invocation of the user's callback. */
  datatype Delivery = Delivery(id: int, response: string, ec: ErrorCode)

  /** `Session`, followed by a history of what happened to it. Steps never branch on the history. */
  datatype Session = Session(
    id: int,
    ec: ErrorCode,
    response: string,
    cancelled: bool,
    guard: Option<nat>,
    stage: Stage,
    inserted: bool,              // the submitter has stored it in the table
    erased: bool,                // its own completion has passed the erase step
    late: bool,                  // its connect was started after the io_service had stopped
    found: nat,                  // lookups by cancelRequest that returned it
    marks: nat,                  // times its cancel flag was set
    started: seq<Operation>,
    completions: seq<Completion>,
    finished: nat,               // completion handlers that have returned
    delivered: seq<Delivery>)

  /** Where a completion handler stands. `locked` says that it runs under its own session guard. */
  datatype HandlerPc =
    | Entered(ec: ErrorCode, line: string)
    | AtGuard
    | Checking
    | Releasing
    | AtTable(locked: bool)
    | Erasing(locked: bool)
    | Erased(locked: bool)
    | Deciding(locked: bool)
    | Calling(locked: bool, ec: ErrorCode)
    | InCallback(locked: bool)

  datatype SubmitPc = Asking | Locked | Inserted | Unlocked

  datatype CancelPc =
    | Approaching
    | Searching
    | Contending(s: nat)
    | Guarding(s: nat)
    | Marked(s: nat)
    | Leaving

  datatype Base =
    | UserCode
    | Idle
    | Exited
    | Handler(s: nat, op: Operation, pc: HandlerPc)

  datatype Call =
    | NoCall
    | Submit(s: nat, spc: SubmitPc)
    | Cancel(id: int, cpc: CancelPc)
    | Closing

  /** A thread: the code it started in, and the client method that code is currently inside, if any. */
  datatype Thread = Thread(base: Base, call: Call)

  datatype State = State(
    threads: seq<Thread>,
    sessions: seq<Session>,
    table: map<int, nat>,        // m_active_sessions
    tableOwner: Option<nat>,     // m_active_sessions_guard
    work: bool,                  // m_work keeps the io_service alive
    stopped: bool,               // the io_service ran out of work
    closed: bool)                // some call of close() has returned

  datatype Action =
    | BeginSubmit(t: nat, id: int)
    | BeginCancel(t: nat, id: int)
    | BeginClose(t: nat)
    | FinishClose(t: nat)
    | Dispatch(t: nat, s: nat, ec: ErrorCode, line: string)
    | Advance(t: nat)
    | Return(t: nat)
    | StopService
    | ExitWorker(t: nat)

  // ----- mutexes

  datatype Lock = Table | Guard(s: nat)

  /** The mutex a thread is about to lock. */
  function Wants(th: Thread): Option<Lock> {
    match th.call
    case Submit(_, Asking) => Some(Table)
    case Cancel(_, Approaching) => Some(Table)
    case Cancel(_, Contending(s)) => Some(Guard(s))
    case NoCall =>
      (match th.base
       case Handler(s, _, AtGuard) => Some(Guard(s))
       case Handler(_, _, AtTable(_)) => Some(Table)
       case _ => None)
    case _ => None
  }

  predicate HoldsTable(th: Thread) {
    || (th.call.Submit? && (th.call.spc.Locked? || th.call.spc.Inserted?))
    || (th.call.Cancel? && !th.call.cpc.Approaching?)
    || (th.base.Handler? && (th.base.pc.Erasing? || th.base.pc.Erased?))
  }

  /** The program points of a handler that lie inside the scope of its `cancel_lock`. */
  predicate UnderGuard(pc: HandlerPc) {
    match pc
    case Entered(_, _) => false
    case AtGuard => false
    case Checking => true
    case Releasing => true
    case AtTable(locked) => locked
    case Erasing(locked) => locked
    case Erased(locked) => locked
    case Deciding(locked) => locked
    case Calling(locked, _) => locked
    case InCallback(locked) => locked
  }

  predicate HoldsGuard(th: Thread, s: nat) {
    || (th.call.Cancel? && (th.call.cpc == Guarding(s) || th.call.cpc == Marked(s)))
    || (th.base.Handler? && th.base.s == s && UnderGuard(th.base.pc))
  }

  predicate Holds(th: Thread, lock: Lock) {
    match lock
    case Table => HoldsTable(th)
    case Guard(s) => HoldsGuard(th, s)
  }

  function Owner(v: State, lock: Lock): Option<nat> {
    match lock
    case Table => v.tableOwner
    case Guard(s) => if s < |v.sessions| then v.sessions[s].guard else None
  }

  /** Thread `t` is blocked on a mutex that thread `u` owns. */
  predicate WaitsFor(v: State, t: nat, u: nat) {
    && t < |v.threads|
    && Wants(v.threads[t]).Some?
    && Owner(v, Wants(v.threads[t]).value) == Some(u)
  }

  /** The thread is inside the client's own code, as opposed to user code, a callback, or the io_service. */
  predicate InClient(th: Thread) {
    || th.call.Submit?
    || th.call.Cancel?
    || (th.call.NoCall? && th.base.Handler? && !th.base.pc.InCallback?)
  }

  predicate CanAdvance(v: State, t: nat) {
    && t < |v.threads|
    && InClient(v.threads[t])
    && (Wants(v.threads[t]).None? || Owner(v, Wants(v.threads[t]).value).None?)
  }

  /** The thread may call into the client: it runs user code, or a callback. */
  predicate CanCall(v: State, t: nat) {
    && t < |v.threads|
    && v.threads[t].call.NoCall?
    && (v.threads[t].base.UserCode? || (v.threads[t].base.Handler? && v.threads[t].base.pc.InCallback?))
  }

  // ----- steps

  function NewSession(t: nat, id: int): Session {
    Session(id, Success, "", false, None, Fresh(t), false, false, false, 0, 0, [], [], 0, [])
  }

  /** The error code `onRequestComplete` hands to the callback. */
  function Verdict(ss: Session): ErrorCode {
    if ss.ec == Success && ss.cancelled then OperationAborted else ss.ec
  }

  function NextOp(op: Operation): Operation {
    match op
    case Connect => Write
    case Write => Read
    case Read => Read
  }

  /** What one step of a thread does: to the thread, to the session it works on, to the table and its mutex. */
  datatype Effect = Effect(th: Thread, ss: Session, owner: Option<nat>, table: map<int, nat>)

  /** `emulateLongComputationOp` on thread `t`, after the session object `s` exists. */
  function SubmitEffect(v: State, t: nat, th: Thread, ss: Session): Effect
    requires th.call.Submit?
  {
    var s := th.call.s;
    match th.call.spc
    case Asking => Effect(th.(call := Submit(s, Locked)), ss, Some(t), v.table)
    case Locked => Effect(th.(call := Submit(s, Inserted)), ss.(inserted := true), v.tableOwner, v.table[ss.id := s])
    case Inserted => Effect(th.(call := Submit(s, Unlocked)), ss, None, v.table)
    case Unlocked =>
      Effect(th.(call := NoCall), ss.(stage := Pending(Connect), started := ss.started + [Connect], late := v.stopped),
             v.tableOwner, v.table)
  }

  /** `cancelRequest` on thread `t`; `ss` is the session the lookup returns, or returned. */
  function CancelEffect(v: State, t: nat, th: Thread, ss: Session): Effect
    requires th.call.Cancel?
  {
    var id := th.call.id;
    match th.call.cpc
    case Approaching => Effect(th.(call := Cancel(id, Searching)), ss, Some(t), v.table)
    case Searching =>
      if id in v.table then
        Effect(th.(call := Cancel(id, Contending(v.table[id]))), ss.(found := ss.found + 1), v.tableOwner, v.table)
      else
        Effect(th.(call := Cancel(id, Leaving)), ss, v.tableOwner, v.table)
    case Contending(s) => Effect(th.(call := Cancel(id, Guarding(s))), ss.(guard := Some(t)), v.tableOwner, v.table)
    case Guarding(s) =>
      Effect(th.(call := Cancel(id, Marked(s))), ss.(cancelled := true, marks := ss.marks + 1), v.tableOwner, v.table)
    case Marked(s) => Effect(th.(call := Cancel(id, Leaving)), ss.(guard := None), v.tableOwner, v.table)
    case Leaving => Effect(th.(call := NoCall), ss, None, v.table)
  }

  /** The completion handlers of connect, write and read, and `onRequestComplete`, on thread `t`. */
  function HandlerEffect(v: State, t: nat, th: Thread, ss: Session): Effect
    requires th.base.Handler?
  {
    var op, b := th.base.op, th.base;
    match th.base.pc
    case Entered(ec, line) =>
      if ec != Success then Effect(th.(base := b.(pc := AtTable(false))), ss.(ec := ec), v.tableOwner, v.table)
      else if op == Read then
        Effect(th.(base := b.(pc := AtTable(false))), ss.(response := line), v.tableOwner, v.table)
      else Effect(th.(base := b.(pc := AtGuard)), ss, v.tableOwner, v.table)
    case AtGuard => Effect(th.(base := b.(pc := Checking)), ss.(guard := Some(t)), v.tableOwner, v.table)
    case Checking =>
      if ss.cancelled then
        Effect(th.(base := b.(pc := AtTable(true))), ss, v.tableOwner, v.table)
      else
        Effect(th.(base := b.(pc := Releasing)),
               ss.(stage := Pending(NextOp(op)), started := ss.started + [NextOp(op)]),
               v.tableOwner, v.table)
    case Releasing => Effect(th.(base := Idle), ss.(guard := None, finished := ss.finished + 1), v.tableOwner, v.table)
    case AtTable(locked) => Effect(th.(base := b.(pc := Erasing(locked))), ss, Some(t), v.table)
    case Erasing(locked) =>
      Effect(th.(base := b.(pc := Erased(locked))), ss.(erased := true), v.tableOwner, v.table - {ss.id})
    case Erased(locked) => Effect(th.(base := b.(pc := Deciding(locked))), ss, None, v.table)
    case Deciding(locked) => Effect(th.(base := b.(pc := Calling(locked, Verdict(ss)))), ss, v.tableOwner, v.table)
    case Calling(locked, ec) =>
      Effect(th.(base := b.(pc := InCallback(locked))),
             ss.(delivered := ss.delivered + [Delivery(ss.id, ss.response, ec)]),
             v.tableOwner, v.table)
    case InCallback(locked) =>
      // the callback returns, and with it the handler: the guard, if held, is released
      Effect(th.(base := Idle),
             ss.(stage := Done, finished := ss.finished + 1, guard := if locked then None else ss.guard),
             v.tableOwner, v.table)
  }

  /** The session a thread's next step works on, or the number of sessions if there is none. */
  function Focus(v: State, th: Thread): nat {
    match th.call
    case Submit(s, _) => s
    case Cancel(id, Searching) => if id in v.table then v.table[id] else |v.sessions|
    case Cancel(_, Contending(s)) => s
    case Cancel(_, Guarding(s)) => s
    case Cancel(_, Marked(s)) => s
    case Cancel(_, _) => |v.sessions|
    case _ => if th.base.Handler? then th.base.s else |v.sessions|
  }

  function SessionAt(v: State, s: nat): Session {
    if s < |v.sessions| then v.sessions[s] else NewSession(0, 0)
  }

  function ThreadEffect(v: State, t: nat): Effect
    requires t < |v.threads| && (v.threads[t].call.NoCall? || v.threads[t].call.Closing? ==> v.threads[t].base.Handler?)
  {
    var th := v.threads[t];
    var ss := SessionAt(v, Focus(v, th));
    if th.call.Submit? then SubmitEffect(v, t, th, ss)
    else if th.call.Cancel? then CancelEffect(v, t, th, ss)
    else HandlerEffect(v, t, th, ss)
  }

  function Apply(v: State, t: nat, s: nat, e: Effect): State
    requires t < |v.threads|
  {
    v.(threads := v.threads[t := e.th],
       sessions := if s < |v.sessions| then v.sessions[s := e.ss] else v.sessions,
       tableOwner := e.owner,
       table := e.table)
  }

  /** No completion is outstanding and no handler is on any stack. */
  ghost predicate OutOfWork(v: State) {
    && (forall s | 0 <= s < |v.sessions| :: !v.sessions[s].stage.Pending? && !v.sessions[s].stage.Running?)
    && (forall t | 0 <= t < |v.threads| :: !v.threads[t].base.Handler?)
  }

  ghost predicate Enabled(v: State, a: Action) {
    match a
    case BeginSubmit(t, _) => CanCall(v, t)
    case BeginCancel(t, _) => CanCall(v, t)
    case BeginClose(t) => CanCall(v, t) && v.threads[t].base.UserCode?
    case FinishClose(t) =>
      && t < |v.threads| && v.threads[t].call.Closing?
      && forall u | 0 <= u < |v.threads| :: v.threads[u].base.UserCode? || v.threads[u].base.Exited?
    case Dispatch(t, s, _, _) =>
      && t < |v.threads| && v.threads[t] == Thread(Idle, NoCall)
      && s < |v.sessions| && v.sessions[s].stage.Pending? && !v.stopped
    case Advance(t) => CanAdvance(v, t)
    case Return(t) => CanCall(v, t) && v.threads[t].base.Handler?
    case StopService => !v.work && !v.stopped && OutOfWork(v)
    case ExitWorker(t) => t < |v.threads| && v.threads[t] == Thread(Idle, NoCall) && v.stopped
  }

  ghost function Next(v: State, a: Action): State
    requires Enabled(v, a)
  {
    match a
    case BeginSubmit(t, id) =>
      v.(threads := v.threads[t := v.threads[t].(call := Submit(|v.sessions|, Asking))],
         sessions := v.sessions + [NewSession(t, id)])
    case BeginCancel(t, id) => v.(threads := v.threads[t := v.threads[t].(call := Cancel(id, Approaching))])
    case BeginClose(t) => v.(threads := v.threads[t := v.threads[t].(call := Closing)], work := false)
    case FinishClose(t) => v.(threads := v.threads[t := v.threads[t].(call := NoCall)], closed := true)
    case Dispatch(t, s, ec, line) =>
      var ss := v.sessions[s];
      var op := ss.stage.op;
      v.(threads := v.threads[t := Thread(Handler(s, op, Entered(ec, line)), NoCall)],
         sessions := v.sessions[s := ss.(stage := Running(op, t),
             completions := ss.completions + [Completion(op, ec, line)])])
    case Advance(t) => Apply(v, t, Focus(v, v.threads[t]), ThreadEffect(v, t))
    case Return(t) => Apply(v, t, Focus(v, v.threads[t]), ThreadEffect(v, t))
    case StopService => v.(stopped := true)
    case ExitWorker(t) => v.(threads := v.threads[t := Thread(Exited, NoCall)])
  }

  /** Some workers wait in the io_service, the other threads run user code, nothing has been submitted. */
  ghost predicate Init(v: State) {
    && (forall t | 0 <= t < |v.threads| ::
          v.threads[t] == Thread(Idle, NoCall) || v.threads[t] == Thread(UserCode, NoCall))
    && (exists t :: 0 <= t < |v.threads| && v.threads[t].base == Idle)
    && v == State(v.threads, [], map[], None, true, false, false)
  }

  ghost predicate IsStep(v: State, w: State) {
    exists a :: Enabled(v, a) && w == Next(v, a)
  }

  /** A run: the states of an execution, one step apart, starting anywhere. */
  ghost predicate IsRun(run: seq<State>) {
    && |run| > 0
    && forall i :: 0 <= i < |run| - 1 ==> IsStep(run[i], run[i + 1])
  }
}
