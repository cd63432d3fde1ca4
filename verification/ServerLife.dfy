/**
 * The acceptor and the self-deleting services of the asynchronous servers, as one interleaved step system. The plain
 * TCP server reads one request and writes one response; the HTTP server may read twice. Any number of workers run the
 * handlers, and `Stop` may be called at any time, any number of times.
 */
module ServerLife {

  datatype Kind = TcpServer | HttpServer

  datatype Operation = ReadFirst | ReadSecond | WriteResponse

  /** What a service's handler does last: start another operation on the service, or `delete this`. */
  datatype Verdict = ReadMore | Respond | Quit

  datatype AcceptPc =
    | Entered(ok: bool)
    | Starting(s: nat)                // the service exists, its first read is not started
    | Loading                         // about to load m_isStopped
    | Rearming                        // loaded false: about to start the next accept
    | Closing                         // loaded true: about to close the acceptor

  datatype Thread =
    | UserCode
    | Idle
    | Accepting(pc: AcceptPc)
    | Serving(s: nat, op: Operation, verdict: Verdict)

  datatype Service = Service(
    outstanding: multiset<Operation>,
    deletions: nat,                   // times `delete this` was executed
    responses: nat,                   // writes of a response started
    keeper: Keeper)                   // history: what will move the service on

  datatype Keeper = Starter(t: nat) | Io(op: Operation) | Handler(t: nat) | Gone

  datatype State = State(
    threads: seq<Thread>,
    services: seq<Service>,
    stopped: bool,                    // m_isStopped
    closed: bool,                     // m_acceptor.close() was executed
    accepts: nat,                     // outstanding async_accept operations
    // history
    acceptor: AcceptToken,
    accepted: nat,                    // successful accepts whose handler has created a service
    succeeded: nat,                   // accept completions without an error
    createdAfterStop: nat,
    armedAfterClose: nat)

  /** What holds the acceptor's turn: an outstanding accept, the handler of one, or nothing after it is closed. */
  datatype AcceptToken = Armed | Handled(t: nat) | Shut

  datatype Action =
    | Accept(t: nat, ok: bool)
    | Complete(t: nat, s: nat, op: Operation, verdict: Verdict)
    | Advance(t: nat)
    | Stop(t: nat)

  /** The verdicts the handlers of the two servers can reach. */
  predicate Possible(kind: Kind, op: Operation, verdict: Verdict) {
    match op
    case ReadFirst => verdict == ReadMore ==> kind == HttpServer
    case ReadSecond => verdict != ReadMore
    case WriteResponse => verdict == Quit
  }

  predicate Enabled(kind: Kind, v: State, a: Action) {
    a.t < |v.threads| &&
    match a
    case Accept(t, _) => v.threads[t] == Idle && v.accepts > 0
    case Complete(t, s, op, verdict) =>
      v.threads[t] == Idle && s < |v.services| && op in v.services[s].outstanding && Possible(kind, op, verdict)
    case Advance(t) =>
      || v.threads[t].Accepting?
      || v.threads[t].Serving?
    case Stop(t) => v.threads[t] == UserCode
  }

  /** A service when an operation has completed and thread `t` runs its handler. */
  function Taken(x: Service, t: nat, op: Operation): Service {
    x.(outstanding := x.outstanding - multiset{op}, keeper := Handler(t))
  }

  /** A service after one of its operations has been started. */
  function Started(x: Service, op: Operation): Service {
    x.(outstanding := x.outstanding + multiset{op}, keeper := Io(op),
       responses := x.responses + (if op == WriteResponse then 1 else 0))
  }

  /** A service after its handler has done what it does last. */
  function AfterVerdict(x: Service, verdict: Verdict): Service {
    match verdict
    case ReadMore => Started(x, ReadSecond)
    case Respond => Started(x, WriteResponse)
    case Quit => x.(deletions := x.deletions + 1, keeper := Gone)
  }

  /** `onAccept` on thread `t`. */
  function AdvanceAccept(v: State, t: nat, pc: AcceptPc): State
    requires t < |v.threads|
  {
    match pc
    case Entered(ok) =>
      if ok then
        v.(threads := v.threads[t := Accepting(Starting(|v.services|))],
           services := v.services + [Service(multiset{}, 0, 0, Starter(t))],
           accepted := v.accepted + 1,
           createdAfterStop := v.createdAfterStop + (if v.stopped then 1 else 0))
      else
        v.(threads := v.threads[t := Accepting(Loading)])
    case Starting(s) =>
      v.(threads := v.threads[t := Accepting(Loading)],
         services := if s < |v.services| then v.services[s := Started(v.services[s], ReadFirst)] else v.services)
    case Loading => v.(threads := v.threads[t := Accepting(if v.stopped then Closing else Rearming)])
    case Rearming =>
      v.(threads := v.threads[t := Idle], accepts := v.accepts + 1, acceptor := Armed,
         armedAfterClose := v.armedAfterClose + (if v.closed then 1 else 0))
    case Closing => v.(threads := v.threads[t := Idle], closed := true, acceptor := Shut)
  }

  /** The last access of a service's handler to its service. */
  function AdvanceService(v: State, t: nat, s: nat, verdict: Verdict): State
    requires t < |v.threads|
  {
    var w := v.(threads := v.threads[t := Idle]);
    if s < |v.services| then w.(services := w.services[s := AfterVerdict(w.services[s], verdict)]) else w
  }

  function Next(kind: Kind, v: State, a: Action): State
    requires Enabled(kind, v, a)
  {
    match a
    case Accept(t, ok) =>
      v.(threads := v.threads[t := Accepting(Entered(ok))], accepts := v.accepts - 1, acceptor := Handled(t),
         succeeded := v.succeeded + (if ok then 1 else 0))
    case Complete(t, s, op, verdict) =>
      v.(threads := v.threads[t := Serving(s, op, verdict)],
         services := v.services[s := Taken(v.services[s], t, op)])
    case Advance(t) =>
      if v.threads[t].Accepting? then AdvanceAccept(v, t, v.threads[t].pc)
      else AdvanceService(v, t, v.threads[t].s, v.threads[t].verdict)
    case Stop(t) => v.(stopped := true)
  }

  /** The acceptor has been started: one accept is outstanding and nothing else has happened. */
  predicate Init(v: State) {
    && (forall t | 0 <= t < |v.threads| :: v.threads[t] == Idle || v.threads[t] == UserCode)
    && v == State(v.threads, [], false, false, 1, Armed, 0, 0, 0, 0)
  }

  ghost predicate IsStep(kind: Kind, v: State, w: State) {
    exists a :: Enabled(kind, v, a) && w == Next(kind, v, a)
  }

  ghost predicate IsRun(kind: Kind, run: seq<State>) {
    |run| > 0 && forall i :: 0 <= i < |run| - 1 ==> IsStep(kind, run[i], run[i + 1])
  }

  // ----- the invariant

  predicate ThreadOk(v: State, t: nat)
    requires t < |v.threads|
  {
    match v.threads[t]
    case Accepting(pc) => v.acceptor == Handled(t)
        && (pc.Starting? ==> pc.s < |v.services| && v.services[pc.s].keeper == Starter(t))
    case Serving(s, _, _) => s < |v.services| && v.services[s].keeper == Handler(t)
    case _ => true
  }

  predicate ServiceOk(kind: Kind, v: State, s: nat)
    requires s < |v.services|
  {
    var x := v.services[s];
    match x.keeper
    case Starter(t) => t < |v.threads| && v.threads[t] == Accepting(Starting(s))
        && x == Service(multiset{}, 0, 0, Starter(t))
    case Io(op) => x == Service(multiset{op}, 0, if op == WriteResponse then 1 else 0, Io(op))
    case Handler(t) =>
      && t < |v.threads| && v.threads[t].Serving? && v.threads[t].s == s
      && Possible(kind, v.threads[t].op, v.threads[t].verdict)
      && x == Service(multiset{}, 0, if v.threads[t].op == WriteResponse then 1 else 0, Handler(t))
    case Gone => x.outstanding == multiset{} && x.deletions == 1 && x.responses <= 1
  }

  /** Services that the acceptor can still create although `Stop` has stored its flag. */
  function StillToCome(v: State): nat {
    match v.acceptor
    case Armed => 1
    case Handled(t) =>
      if t < |v.threads| && v.threads[t].Accepting?
          && (v.threads[t].pc == Entered(true) || v.threads[t].pc == Rearming) then 1 else 0
    case Shut => 0
  }

  predicate AcceptorOk(v: State) {
    && (match v.acceptor
        case Armed => v.accepts == 1 && !v.closed
        case Handled(t) => v.accepts == 0 && !v.closed && t < |v.threads| && v.threads[t].Accepting?
            && (v.threads[t].pc.Closing? ==> v.stopped)
        case Shut => v.accepts == 0 && v.closed && v.stopped)
    && v.armedAfterClose == 0
    && v.accepted == |v.services|
    && v.succeeded == v.accepted + (if v.acceptor.Handled? && v.threads[v.acceptor.t].pc == Entered(true) then 1 else 0)
    && (if v.stopped then v.createdAfterStop + StillToCome(v) <= 1 else v.createdAfterStop == 0)
  }

  ghost predicate Inv(kind: Kind, v: State) {
    && (forall t | 0 <= t < |v.threads| :: ThreadOk(v, t))
    && (forall s | 0 <= s < |v.services| :: ServiceOk(kind, v, s))
    && AcceptorOk(v)
  }

  lemma InitInv(kind: Kind, v: State)
    requires Init(v)
    ensures Inv(kind, v)
  {
  }

  lemma OwnThreadKeeps(kind: Kind, v: State, a: Action)
    requires Inv(kind, v) && Enabled(kind, v, a)
    ensures |Next(kind, v, a).threads| == |v.threads| && ThreadOk(Next(kind, v, a), a.t)
  {
    assert ThreadOk(v, a.t);
  }

  /** While one thread handles an accept, no other one does, and the services that others work on stay. */
  lemma AcceptKeepsOthers(kind: Kind, v: State, t: nat, u: nat)
    requires Inv(kind, v) && Enabled(kind, v, Advance(t)) && v.threads[t].Accepting? && u < |v.threads| && u != t
    ensures |Next(kind, v, Advance(t)).threads| == |v.threads| && ThreadOk(Next(kind, v, Advance(t)), u)
  {
    assert ThreadOk(v, t) && ThreadOk(v, u);
  }

  lemma ServiceKeepsOthers(kind: Kind, v: State, t: nat, u: nat)
    requires Inv(kind, v) && Enabled(kind, v, Advance(t)) && v.threads[t].Serving? && u < |v.threads| && u != t
    ensures |Next(kind, v, Advance(t)).threads| == |v.threads| && ThreadOk(Next(kind, v, Advance(t)), u)
  {
    assert ThreadOk(v, t) && ThreadOk(v, u);
  }

  lemma OtherThreadKeeps(kind: Kind, v: State, a: Action, u: nat)
    requires Inv(kind, v) && Enabled(kind, v, a) && u < |v.threads| && u != a.t
    ensures |Next(kind, v, a).threads| == |v.threads| && ThreadOk(Next(kind, v, a), u)
  {
    if a.Advance? {
      if v.threads[a.t].Accepting? { AcceptKeepsOthers(kind, v, a.t, u); } else { ServiceKeepsOthers(kind, v, a.t, u); }
    } else {
      assert ThreadOk(v, a.t) && ThreadOk(v, u);
      if a.Complete? { assert ServiceOk(kind, v, a.s); }
    }
  }

  /** A service that does not change stays in order as long as the thread that works on it stays where it is. */
  lemma ServiceStays(kind: Kind, v: State, w: State, s: nat)
    requires s < |v.services| && s < |w.services| && w.services[s] == v.services[s] && |w.threads| == |v.threads|
    requires ServiceOk(kind, v, s)
    requires
      var keeper := v.services[s].keeper;
      (keeper.Starter? || keeper.Handler? ==> w.threads[keeper.t] == v.threads[keeper.t])
    ensures ServiceOk(kind, w, s)
  {
  }

  lemma CompleteKeepsOwn(kind: Kind, v: State, t: nat, s: nat, op: Operation, verdict: Verdict)
    requires Inv(kind, v) && Enabled(kind, v, Complete(t, s, op, verdict))
    ensures ServiceOk(kind, Next(kind, v, Complete(t, s, op, verdict)), s)
  {
    assert ServiceOk(kind, v, s);
  }

  lemma DispatchKeepsService(kind: Kind, v: State, a: Action, s: nat)
    requires Inv(kind, v) && Enabled(kind, v, a) && !a.Advance? && s < |v.services|
    ensures ServiceOk(kind, Next(kind, v, a), s)
  {
    assert ThreadOk(v, a.t) && ServiceOk(kind, v, s);
    if a.Complete? && a.s == s {
      CompleteKeepsOwn(kind, v, a.t, s, a.op, a.verdict);
    } else {
      ServiceStays(kind, v, Next(kind, v, a), s);
    }
  }

  lemma StartKeepsService(kind: Kind, v: State, t: nat)
    requires Inv(kind, v) && Enabled(kind, v, Advance(t)) && v.threads[t].Accepting? && v.threads[t].pc.Starting?
    ensures
      var s := v.threads[t].pc.s;
      s < |v.services| == |Next(kind, v, Advance(t)).services| && ServiceOk(kind, Next(kind, v, Advance(t)), s)
  {
    assert ThreadOk(v, t) && ServiceOk(kind, v, v.threads[t].pc.s);
  }

  lemma AcceptKeepsService(kind: Kind, v: State, t: nat, s: nat)
    requires Inv(kind, v) && Enabled(kind, v, Advance(t)) && v.threads[t].Accepting? && s < |v.services|
    ensures s < |Next(kind, v, Advance(t)).services| && ServiceOk(kind, Next(kind, v, Advance(t)), s)
  {
    assert ThreadOk(v, t) && ServiceOk(kind, v, s);
    if v.threads[t].pc == Starting(s) {
      StartKeepsService(kind, v, t);
    } else {
      ServiceStays(kind, v, Next(kind, v, Advance(t)), s);
    }
  }

  lemma HandlerKeepsOwn(kind: Kind, v: State, t: nat)
    requires Inv(kind, v) && Enabled(kind, v, Advance(t)) && v.threads[t].Serving?
    ensures v.threads[t].s < |Next(kind, v, Advance(t)).services|
        && ServiceOk(kind, Next(kind, v, Advance(t)), v.threads[t].s)
  {
    assert ThreadOk(v, t) && ServiceOk(kind, v, v.threads[t].s);
  }

  lemma HandlerKeepsOther(kind: Kind, v: State, t: nat, s: nat)
    requires Inv(kind, v) && Enabled(kind, v, Advance(t)) && v.threads[t].Serving? && s < |v.services|
        && s != v.threads[t].s
    ensures s < |Next(kind, v, Advance(t)).services| && ServiceOk(kind, Next(kind, v, Advance(t)), s)
  {
    assert ThreadOk(v, t) && ServiceOk(kind, v, s);
    ServiceStays(kind, v, Next(kind, v, Advance(t)), s);
  }

  lemma ServiceKeeps(kind: Kind, v: State, a: Action, s: nat)
    requires Inv(kind, v) && Enabled(kind, v, a) && s < |Next(kind, v, a).services|
    ensures ServiceOk(kind, Next(kind, v, a), s)
  {
    if !a.Advance? { DispatchKeepsService(kind, v, a, s); }
    else if v.threads[a.t].Accepting? { if s < |v.services| { AcceptKeepsService(kind, v, a.t, s); } }
    else if s == v.threads[a.t].s { HandlerKeepsOwn(kind, v, a.t); }
    else { HandlerKeepsOther(kind, v, a.t, s); }
  }

  lemma AcceptorKeeps(kind: Kind, v: State, a: Action)
    requires Inv(kind, v) && Enabled(kind, v, a)
    ensures AcceptorOk(Next(kind, v, a))
  {
    assert ThreadOk(v, a.t);
  }

  lemma NextKeeps(kind: Kind, v: State, a: Action)
    requires Inv(kind, v) && Enabled(kind, v, a)
    ensures Inv(kind, Next(kind, v, a))
  {
    var w := Next(kind, v, a);
    AcceptorKeeps(kind, v, a);
    forall u | 0 <= u < |w.threads| ensures ThreadOk(w, u) {
      if u == a.t { OwnThreadKeeps(kind, v, a); } else { OtherThreadKeeps(kind, v, a, u); }
    }
    forall s | 0 <= s < |w.services| ensures ServiceOk(kind, w, s) { ServiceKeeps(kind, v, a, s); }
  }

  lemma StepKeeps(kind: Kind, v: State, w: State)
    requires Inv(kind, v) && IsStep(kind, v, w)
    ensures Inv(kind, w)
  {
    var a :| Enabled(kind, v, a) && w == Next(kind, v, a);
    NextKeeps(kind, v, a);
  }

  lemma {:induction false} RunInv(kind: Kind, run: seq<State>, i: nat)
    requires IsRun(kind, run) && Init(run[0]) && i < |run|
    ensures Inv(kind, run[i])
  {
    if i == 0 {
      InitInv(kind, run[0]);
    } else {
      var k := i - 1;
      RunInv(kind, run, k);
      assert IsStep(kind, run[k], run[k + 1]);
      StepKeeps(kind, run[k], run[i]);
    }
  }
}
