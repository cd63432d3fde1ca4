/**
 * The asynchronous TCP client as the objects of its source, one method for each of its functions and handlers. Run
 * without interference, each method does exactly what the step system does from the entry of that function to its
 * return; and the step system can do it without interference.
 */
module TcpClientCode {
  import opened Asio
  import opened TcpClient
  import opened TcpClientDrain
  import Runs

  /** `w` can be reached from `v`. */
  ghost predicate Leads(v: State, w: State) {
    Runs.Leads(IsStep, v, w)
  }

  lemma Advanced(v: State, w: State, a: Action) returns (z: State)
    requires Leads(v, w) && Enabled(w, a)
    ensures Leads(v, z) && z == Next(w, a)
  {
    z := Next(w, a);
    assert IsStep(w, z);
    Runs.StepLeads(IsStep, v, w, z);
  }

  // ----- a whole call, or a whole handler, in the step system

  predicate InCode(th: Thread) {
    th.call.Submit? || th.call.Cancel? || (th.call.NoCall? && th.base.Handler?)
  }

  /** The call or the handler that `before` is inside has returned. */
  predicate Returned(before: Thread, after: Thread) {
    after.call.NoCall? && (before.call.NoCall? ==> !after.base.Handler?)
  }

  function CodeEffect(v: State, t: nat, th: Thread, ss: Session): (e: Effect)
    requires InCode(th)
    ensures ThreadRank(e.th) < ThreadRank(th)
    ensures Returned(th, e.th) || InCode(e.th)
  {
    if th.call.Submit? then SubmitEffect(v, t, th, ss)
    else if th.call.Cancel? then CancelEffect(v, t, th, ss)
    else HandlerEffect(v, t, th, ss)
  }

  /** The effect of thread `t` on session `ss` from `th` up to where its call or handler returns. */
  function RunCode(v: State, t: nat, th: Thread, ss: Session): Effect
    requires InCode(th)
    decreases ThreadRank(th)
  {
    var e := CodeEffect(v, t, th, ss);
    if Returned(th, e.th) then e else RunCode(v.(tableOwner := e.owner, table := e.table), t, e.th, e.ss)
  }

  function At(s: nat, op: Operation, pc: HandlerPc): Thread {
    Thread(Handler(s, op, pc), NoCall)
  }

  lemma ReturnRuns(v: State, t: nat, s: nat, op: Operation, locked: bool, ss: Session)
    ensures
      RunCode(v, t, At(s, op, InCallback(locked)), ss)
      == Effect(Thread(Idle, NoCall),
                ss.(stage := Done, finished := ss.finished + 1, guard := if locked then None else ss.guard),
                v.tableOwner, v.table)
  {
  }

  lemma CallingRuns(v: State, t: nat, s: nat, op: Operation, locked: bool, ec: ErrorCode, ss: Session)
    ensures
      RunCode(v, t, At(s, op, Calling(locked, ec)), ss)
      == Effect(Thread(Idle, NoCall),
                ss.(delivered := ss.delivered + [Delivery(ss.id, ss.response, ec)], stage := Done,
                    finished := ss.finished + 1, guard := if locked then None else ss.guard),
                v.tableOwner, v.table)
  {
    ReturnRuns(v, t, s, op, locked, ss.(delivered := ss.delivered + [Delivery(ss.id, ss.response, ec)]));
  }

  /** The rest of a handler from where `onRequestComplete` has left the table, with a callback that makes no calls. */
  lemma CallbackRuns(v: State, t: nat, s: nat, op: Operation, locked: bool, ss: Session)
    ensures
      RunCode(v, t, At(s, op, Deciding(locked)), ss)
      == Effect(Thread(Idle, NoCall),
                ss.(delivered := ss.delivered + [Delivery(ss.id, ss.response, Verdict(ss))], stage := Done,
                    finished := ss.finished + 1, guard := if locked then None else ss.guard),
                v.tableOwner, v.table)
  {
    CallingRuns(v, t, s, op, locked, Verdict(ss), ss);
  }

  /** `onRequestComplete`. */
  lemma CompletionRuns(v: State, t: nat, s: nat, op: Operation, locked: bool, ss: Session)
    ensures
      RunCode(v, t, At(s, op, AtTable(locked)), ss)
      == Effect(Thread(Idle, NoCall),
                ss.(erased := true, delivered := ss.delivered + [Delivery(ss.id, ss.response, Verdict(ss))],
                    stage := Done, finished := ss.finished + 1, guard := if locked then None else ss.guard),
                None, v.table - {ss.id})
  {
    var taken := v.(tableOwner := Some(t));
    var erased, ss1 := taken.(table := v.table - {ss.id}), ss.(erased := true);
    CallbackRuns(erased.(tableOwner := None), t, s, op, locked, ss1);
    assert RunCode(erased, t, At(s, op, Erased(locked)), ss1)
        == RunCode(erased.(tableOwner := None), t, At(s, op, Deciding(locked)), ss1);
    assert RunCode(taken, t, At(s, op, Erasing(locked)), ss) == RunCode(erased, t, At(s, op, Erased(locked)), ss1);
  }

  /** The completion handlers up to `onRequestComplete`, if they get there. */
  lemma HandlerRuns(v: State, t: nat, s: nat, op: Operation, ec: ErrorCode, line: string, ss: Session)
    ensures
      RunCode(v, t, At(s, op, Entered(ec, line)), ss)
      == if ec != Success then RunCode(v, t, At(s, op, AtTable(false)), ss.(ec := ec))
         else if op == Read then RunCode(v, t, At(s, op, AtTable(false)), ss.(response := line))
         else if ss.cancelled then RunCode(v, t, At(s, op, AtTable(true)), ss.(guard := Some(t)))
         else Effect(Thread(Idle, NoCall),
                     ss.(stage := Pending(NextOp(op)), started := ss.started + [NextOp(op)], guard := None,
                         finished := ss.finished + 1),
                     v.tableOwner, v.table)
  {
    if ec == Success && op != Read {
      GuardedRuns(v, t, s, op, ss.(guard := Some(t)));
      assert RunCode(v, t, At(s, op, AtGuard), ss) == RunCode(v, t, At(s, op, Checking), ss.(guard := Some(t)));
    }
  }

  lemma GuardedRuns(v: State, t: nat, s: nat, op: Operation, ss: Session)
    ensures
      RunCode(v, t, At(s, op, Checking), ss)
      == if ss.cancelled then RunCode(v, t, At(s, op, AtTable(true)), ss)
         else Effect(Thread(Idle, NoCall),
                     ss.(stage := Pending(NextOp(op)), started := ss.started + [NextOp(op)], guard := None,
                         finished := ss.finished + 1),
                     v.tableOwner, v.table)
  {
  }

  /** `emulateLongComputationOp`. */
  lemma SubmitRuns(v: State, t: nat, base: Base, s: nat, ss: Session)
    ensures
      RunCode(v, t, Thread(base, Submit(s, Asking)), ss)
      == Effect(Thread(base, NoCall),
                ss.(inserted := true, stage := Pending(Connect), started := ss.started + [Connect], late := v.stopped),
                None, v.table[ss.id := s])
  {
    var stored, ss1 := v.(tableOwner := Some(t), table := v.table[ss.id := s]), ss.(inserted := true);
    assert RunCode(stored, t, Thread(base, Submit(s, Inserted)), ss1)
        == RunCode(stored.(tableOwner := None), t, Thread(base, Submit(s, Unlocked)), ss1);
    assert RunCode(v.(tableOwner := Some(t)), t, Thread(base, Submit(s, Locked)), ss)
        == RunCode(stored, t, Thread(base, Submit(s, Inserted)), ss1);
  }

  /** `cancelRequest`; `ss` is the session under the id, if there is one. */
  lemma CancelRuns(v: State, t: nat, base: Base, id: int, ss: Session)
    ensures
      RunCode(v, t, Thread(base, Cancel(id, Approaching)), ss)
      == Effect(Thread(base, NoCall),
                if id in v.table then
                  ss.(found := ss.found + 1, guard := None, cancelled := true, marks := ss.marks + 1)
                else ss,
                None, v.table)
  {
    var taken := v.(tableOwner := Some(t));
    if id in v.table {
      MarkRuns(taken, t, base, id, v.table[id], ss.(found := ss.found + 1));
      assert RunCode(taken, t, Thread(base, Cancel(id, Searching)), ss)
          == RunCode(taken, t, Thread(base, Cancel(id, Contending(v.table[id]))), ss.(found := ss.found + 1));
    } else {
      assert RunCode(taken, t, Thread(base, Cancel(id, Searching)), ss)
          == RunCode(taken, t, Thread(base, Cancel(id, Leaving)), ss);
    }
  }

  lemma MarkRuns(v: State, t: nat, base: Base, id: int, s: nat, ss: Session)
    ensures
      RunCode(v, t, Thread(base, Cancel(id, Contending(s))), ss)
      == Effect(Thread(base, NoCall), ss.(guard := None, cancelled := true, marks := ss.marks + 1), None, v.table)
  {
    var marked := ss.(guard := Some(t), cancelled := true, marks := ss.marks + 1);
    ReleaseRuns(v, t, base, id, s, marked);
    assert RunCode(v, t, Thread(base, Cancel(id, Guarding(s))), ss.(guard := Some(t)))
        == RunCode(v, t, Thread(base, Cancel(id, Marked(s))), marked);
  }

  lemma ReleaseRuns(v: State, t: nat, base: Base, id: int, s: nat, ss: Session)
    ensures RunCode(v, t, Thread(base, Cancel(id, Marked(s))), ss)
        == Effect(Thread(base, NoCall), ss.(guard := None), None, v.table)
  {
  }

  /** `s` is the session that the code thread `t` is in works on, other than as that session's own callback. */
  predicate WorksOn(v: State, t: nat, s: nat) {
    && t < |v.threads| && s < |v.sessions| && InCode(v.threads[t])
    && var th := v.threads[t];
       match th.call
       case Submit(r, _) => r == s && InUserCode(th.base)
       case Cancel(id, pc) =>
         && id in v.table && v.table[id] == s && (pc.Contending? || pc.Guarding? || pc.Marked? ==> pc.s == s)
         && InUserCode(th.base) && (th.base.Handler? ==> th.base.s != s)
       case _ => th.base.s == s
  }

  predicate InUserCode(base: Base) {
    base.UserCode? || (base.Handler? && base.pc.InCallback?)
  }

  /** The two mutexes that the code may want are free, unless the thread owns them itself. */
  predicate Uncontended(v: State, t: nat, s: nat)
    requires t < |v.threads| && s < |v.sessions|
  {
    && (v.tableOwner == None || HoldsTable(v.threads[t]))
    && (v.sessions[s].guard == None || HoldsGuard(v.threads[t], s))
  }

  /** Of the state, the code only reads the table, its mutex, and whether the io_service has stopped. */
  lemma {:induction false} RunCodeReads(v: State, w: State, t: nat, th: Thread, ss: Session)
    requires InCode(th) && w.tableOwner == v.tableOwner && w.table == v.table && w.stopped == v.stopped
    ensures RunCode(w, t, th, ss) == RunCode(v, t, th, ss)
    decreases ThreadRank(th)
  {
    var e := CodeEffect(v, t, th, ss);
    assert CodeEffect(w, t, th, ss) == e;
    if !Returned(th, e.th) {
      var v', w' := v.(tableOwner := e.owner, table := e.table), w.(tableOwner := e.owner, table := e.table);
      RunCodeReads(v', w', t, e.th, e.ss);
    }
  }

  lemma OneStep(v: State, t: nat, s: nat) returns (a: Action)
    requires WorksOn(v, t, s) && Uncontended(v, t, s)
    ensures Enabled(v, a) && Next(v, a) == Apply(v, t, s, CodeEffect(v, t, v.threads[t], v.sessions[s]))
  {
    var th := v.threads[t];
    a := if th.call.NoCall? && th.base.pc.InCallback? then Return(t) else Advance(t);
    if Focus(v, th) != s {
      var e := CancelEffect(v, t, th, v.sessions[s]);
      assert v.sessions[s := e.ss] == v.sessions;
    }
  }

  lemma HandlerStaysUncontended(v: State, t: nat, s: nat)
    requires WorksOn(v, t, s) && Uncontended(v, t, s) && v.threads[t].call.NoCall?
    ensures
      var e := HandlerEffect(v, t, v.threads[t], v.sessions[s]);
      var w := Apply(v, t, s, e);
      Returned(v.threads[t], e.th) || (WorksOn(w, t, s) && Uncontended(w, t, s))
  {
  }

  lemma CallStaysUncontended(v: State, t: nat, s: nat)
    requires WorksOn(v, t, s) && Uncontended(v, t, s) && !v.threads[t].call.NoCall?
    ensures
      var e := CodeEffect(v, t, v.threads[t], v.sessions[s]);
      var w := Apply(v, t, s, e);
      Returned(v.threads[t], e.th) || (WorksOn(w, t, s) && Uncontended(w, t, s))
  {
  }

  /** Where its mutexes are free, the code can run to its end, and that is what happens to the state. */
  lemma {:induction false} RunsAlone(u: State, v: State, t: nat, s: nat)
    requires Leads(u, v) && WorksOn(v, t, s) && Uncontended(v, t, s)
    ensures Leads(u, Apply(v, t, s, RunCode(v, t, v.threads[t], v.sessions[s])))
    decreases ThreadRank(v.threads[t])
  {
    var e := CodeEffect(v, t, v.threads[t], v.sessions[s]);
    var a := OneStep(v, t, s);
    var next := Advanced(u, v, a);
    if !Returned(v.threads[t], e.th) {
      var w := Apply(v, t, s, e);
      if v.threads[t].call.NoCall? { HandlerStaysUncontended(v, t, s); } else { CallStaysUncontended(v, t, s); }
      RunsAlone(u, w, t, s);
      RunCodeReads(v.(tableOwner := e.owner, table := e.table), w, t, e.th, e.ss);
      ApplyTwice(v, t, s, e, RunCode(w, t, e.th, e.ss));
    }
  }

  lemma ApplyTwice(v: State, t: nat, s: nat, first: Effect, last: Effect)
    requires t < |v.threads|
    ensures Apply(Apply(v, t, s, first), t, s, last) == Apply(v, t, s, last)
  {
    var w := Apply(v, t, s, first);
    assert Apply(w, t, s, last).threads == Apply(v, t, s, last).threads;
    assert Apply(w, t, s, last).sessions == Apply(v, t, s, last).sessions;
  }

  // ----- the objects

  class ClientSession {
    const id: int
    var ec: ErrorCode
    var response: string
    var wasCancelled: bool
    ghost const index: nat           // the session of the step system that this object is

    constructor (id: int, ghost index: nat)
      ensures this.id == id && this.index == index && ec == Success && response == "" && !wasCancelled
    {
      this.id, this.index, ec, response, wasCancelled := id, index, Success, "", false;
    }

    /** The object holds what `ss` says. */
    ghost predicate Shows(ss: Session)
      reads this
    {
      ss.id == id && ss.ec == ec && ss.response == response && ss.cancelled == wasCancelled
    }
  }

  class AsyncTCPClient {
    var activeSessions: map<int, ClientSession>

    constructor ()
      ensures activeSessions == map[]
    {
      activeSessions := map[];
    }

    /** Under each id the object is stored whose session the table of the step system has. */
    ghost predicate ShowsTable(table: map<int, nat>)
      reads this
    {
      table.Keys == activeSessions.Keys && forall id | id in activeSessions :: activeSessions[id].index == table[id]
    }

    /** Up to the start of the connect, which is what the source's last statement does. */
    method EmulateLongComputationOp(id: int, ghost v: State, ghost t: nat, ghost base: Base, ghost s: nat)
      returns (session: ClientSession)
      requires ShowsTable(v.table)
      modifies this`activeSessions
      ensures fresh(session) && activeSessions == old(activeSessions)[id := session]
      ensures
        var e := RunCode(v, t, Thread(base, Submit(s, Asking)), NewSession(t, id));
        && session.Shows(e.ss) && session.index == s && e.table == v.table[id := s] && ShowsTable(e.table)
        && e.ss.started == [Connect]
    {
      SubmitRuns(v, t, base, s, NewSession(t, id));
      session := new ClientSession(id, s);
      activeSessions := activeSessions[id := session];
    }

    method CancelRequest(id: int, ghost v: State, ghost t: nat, ghost base: Base, ghost ss: Session)
      requires ShowsTable(v.table) && (id in activeSessions ==> activeSessions[id].Shows(ss))
      modifies if id in activeSessions then {activeSessions[id]} else {}
      ensures
        var e := RunCode(v, t, Thread(base, Cancel(id, Approaching)), ss);
        && e.table == v.table && ShowsTable(e.table)
        && (if id in activeSessions then activeSessions[id].Shows(e.ss) else e.ss == ss)
    {
      CancelRuns(v, t, base, id, ss);
      if id in activeSessions {
        activeSessions[id].wasCancelled := true;
      }
    }

    /** `onRequestComplete`, up to the call of the callback with the result. */
    method OnRequestComplete(session: ClientSession) returns (d: Delivery)
      modifies this`activeSessions
      ensures activeSessions == old(activeSessions) - {session.id}
      ensures d.id == session.id && d.response == session.response
      ensures d.ec == if session.ec == Success && session.wasCancelled then OperationAborted else session.ec
    {
      if session.id in activeSessions {
        activeSessions := activeSessions - {session.id};
      }
      var ec;
      if session.ec == Success && session.wasCancelled {
        ec := OperationAborted;
      } else {
        ec := session.ec;
      }
      d := Delivery(session.id, session.response, ec);
    }

    /** What a completion handler has done: started the next operation, or called the callback. */
    ghost predicate Did(e: Effect, ss: Session, starts: Option<Operation>, calls: Option<Delivery>)
      reads this
    {
      && e.th == Thread(Idle, NoCall) && ShowsTable(e.table)
      && e.ss.started == (if starts.Some? then ss.started + [starts.value] else ss.started)
      && e.ss.delivered == (if calls.Some? then ss.delivered + [calls.value] else ss.delivered)
    }

    /** The handlers of the connect and of the write. */
    method OnConnectedOrSent(op: Operation, session: ClientSession, ec: ErrorCode,
        ghost v: State, ghost t: nat, ghost s: nat, ghost ss: Session)
      returns (starts: Option<Operation>, calls: Option<Delivery>)
      requires op != Read && session.Shows(ss) && ShowsTable(v.table)
      modifies this`activeSessions, session`ec
      ensures
        var e := RunCode(v, t, At(s, op, Entered(ec, "")), ss);
        session.Shows(e.ss) && Did(e, ss, starts, calls)
      ensures forall id | id in activeSessions ::
                id in old(activeSessions) && activeSessions[id] == old(activeSessions)[id]
    {
      HandlerRuns(v, t, s, op, ec, "", ss);
      if ec != Success {
        CompletionRuns(v, t, s, op, false, ss.(ec := ec));
        session.ec := ec;
        var d := OnRequestComplete(session);
        return None, Some(d);
      }
      if session.wasCancelled {
        CompletionRuns(v, t, s, op, true, ss.(guard := Some(t)));
        var d := OnRequestComplete(session);
        return None, Some(d);
      }
      return Some(if op == Connect then Write else Read), None;
    }

    /** The handler of the read. */
    method OnResponse(session: ClientSession, ec: ErrorCode, line: string,
        ghost v: State, ghost t: nat, ghost s: nat, ghost ss: Session)
      returns (calls: Option<Delivery>)
      requires session.Shows(ss) && ShowsTable(v.table)
      modifies this`activeSessions, session`ec, session`response
      ensures
        var e := RunCode(v, t, At(s, Read, Entered(ec, line)), ss);
        session.Shows(e.ss) && Did(e, ss, None, calls)
      ensures forall id | id in activeSessions ::
                id in old(activeSessions) && activeSessions[id] == old(activeSessions)[id]
    {
      HandlerRuns(v, t, s, Read, ec, line, ss);
      CompletionRuns(v, t, s, Read, false, if ec != Success then ss.(ec := ec) else ss.(response := line));
      if ec != Success {
        session.ec := ec;
      } else {
        session.response := line;
      }
      var d := OnRequestComplete(session);
      calls := Some(d);
    }
  }
}
