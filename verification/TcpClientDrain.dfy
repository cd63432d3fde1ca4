/** How runs of the asynchronous TCP client end: drained, or in a deadly embrace. */
module TcpClientDrain {
  import opened Asio
  import opened TcpClient
  import opened TcpClientInvariant
  import opened TcpClientDeadlock
  import opened Sums

  /** Steps of the client and the io_service themselves, as opposed to new calls by user code and shutting down. */
  ghost predicate IsInternal(a: Action) {
    a.Dispatch? || a.Advance? || a.Return?
  }

  /** Steps that are not new calls: the internal ones, and those by which the io_service and `close` shut down. */
  ghost predicate MakesNoCall(a: Action) {
    !a.BeginSubmit? && !a.BeginCancel? && !a.BeginClose?
  }

  /** The session's callback ran exactly once, and its handler returned. */
  ghost predicate Completed(v: State, s: nat) {
    s < |v.sessions| && v.sessions[s].stage.Done? && v.sessions[s].erased && |v.sessions[s].delivered| == 1
  }

  // ----- every run without new calls ends

  function StageRank(stage: Stage): nat {
    match stage
    case Fresh(_) => 140
    case Pending(Connect) => 120
    case Running(Connect, _) => 100
    case Pending(Write) => 80
    case Running(Write, _) => 60
    case Pending(Read) => 40
    case Running(Read, _) => 20
    case Done => 0
  }

  function BaseRank(base: Base): nat {
    match base
    case Handler(_, _, Entered(_, _)) => 12
    case Handler(_, _, AtGuard) => 11
    case Handler(_, _, Checking) => 10
    case Handler(_, _, AtTable(_)) => 9
    case Handler(_, _, Erasing(_)) => 8
    case Handler(_, _, Erased(_)) => 7
    case Handler(_, _, Deciding(_)) => 6
    case Handler(_, _, Calling(_, _)) => 5
    case Handler(_, _, InCallback(_)) => 3
    case Handler(_, _, Releasing) => 2
    case Idle => 1
    case _ => 0
  }

  function CallRank(call: Call): nat {
    match call
    case Submit(_, Asking) => 4
    case Submit(_, Locked) => 3
    case Submit(_, Inserted) => 2
    case Submit(_, Unlocked) => 1
    case Cancel(_, Approaching) => 6
    case Cancel(_, Searching) => 5
    case Cancel(_, Contending(_)) => 4
    case Cancel(_, Guarding(_)) => 3
    case Cancel(_, Marked(_)) => 2
    case Cancel(_, Leaving) => 1
    case Closing => 1
    case NoCall => 0
  }

  function ThreadRank(th: Thread): nat {
    BaseRank(th.base) + CallRank(th.call)
  }

  /** A bound on the steps that can still be taken without a new call. */
  function Budget(v: State): nat {
    Sum(seq(|v.threads|, t requires 0 <= t < |v.threads| => ThreadRank(v.threads[t])))
    + Sum(seq(|v.sessions|, s requires 0 <= s < |v.sessions| => StageRank(v.sessions[s].stage)))
    + (if v.stopped then 0 else 1)
  }

  lemma ThreadBudget(v: State, t: nat, th: Thread)
    requires t < |v.threads|
    ensures Budget(v.(threads := v.threads[t := th])) == Budget(v) - ThreadRank(v.threads[t]) + ThreadRank(th)
  {
    var xs := seq(|v.threads|, u requires 0 <= u < |v.threads| => ThreadRank(v.threads[u]));
    var w := v.(threads := v.threads[t := th]);
    assert seq(|w.threads|, u requires 0 <= u < |w.threads| => ThreadRank(w.threads[u])) == xs[t := ThreadRank(th)];
    SumUpdate(xs, t, ThreadRank(th));
  }

  lemma SessionBudget(v: State, s: nat, ss: Session)
    requires s < |v.sessions|
    ensures Budget(v.(sessions := v.sessions[s := ss]))
        == Budget(v) - StageRank(v.sessions[s].stage) + StageRank(ss.stage)
  {
    var xs := seq(|v.sessions|, r requires 0 <= r < |v.sessions| => StageRank(v.sessions[r].stage));
    var w := v.(sessions := v.sessions[s := ss]);
    assert seq(|w.sessions|, r requires 0 <= r < |w.sessions| => StageRank(w.sessions[r].stage))
        == xs[s := StageRank(ss.stage)];
    SumUpdate(xs, s, StageRank(ss.stage));
  }

  lemma StageSpends(v: State, t: nat, th: Thread, ss: Session)
    requires th.call.NoCall? && th.base.Handler? && !Completing(th.base.pc) && !th.base.pc.Checking?
    ensures
      var e := HandlerEffect(v, t, th, ss);
      ThreadRank(e.th) + StageRank(e.ss.stage) < ThreadRank(th) + StageRank(ss.stage)
  {
  }

  lemma CheckSpends(v: State, t: nat, th: Thread, ss: Session)
    requires th.call.NoCall? && th.base.Handler? && th.base.pc.Checking? && th.base.op != Read
    requires ss.stage.Running? && ss.stage.op == th.base.op
    ensures
      var e := HandlerEffect(v, t, th, ss);
      ThreadRank(e.th) + StageRank(e.ss.stage) < ThreadRank(th) + StageRank(ss.stage)
  {
  }

  lemma CompletionSpends(v: State, t: nat, th: Thread, ss: Session)
    requires th.call.NoCall? && th.base.Handler? && Completing(th.base.pc) && ss.stage.Running?
    ensures
      var e := HandlerEffect(v, t, th, ss);
      ThreadRank(e.th) + StageRank(e.ss.stage) < ThreadRank(th) + StageRank(ss.stage)
  {
  }

  lemma HandlerSpends(v: State, t: nat)
    requires Inv(v) && t < |v.threads| && v.threads[t].call.NoCall? && v.threads[t].base.Handler?
    ensures
      var th, e := v.threads[t], ThreadEffect(v, t);
      && th.base.s < |v.sessions|
      && ThreadRank(e.th) + StageRank(e.ss.stage) < ThreadRank(th) + StageRank(v.sessions[th.base.s].stage)
  {
    var th := v.threads[t];
    assert ThreadOk(v, t) && SessionsOk(v, th.base.s);
    if Completing(th.base.pc) {
      CompletionSpends(v, t, th, v.sessions[th.base.s]);
    } else if th.base.pc.Checking? {
      CheckSpends(v, t, th, v.sessions[th.base.s]);
    } else {
      StageSpends(v, t, th, v.sessions[th.base.s]);
    }
  }

  lemma CallSpends(v: State, t: nat)
    requires Inv(v) && t < |v.threads| && (v.threads[t].call.Submit? || v.threads[t].call.Cancel?)
    ensures
      var s, e := Focus(v, v.threads[t]), ThreadEffect(v, t);
      ThreadRank(e.th) + StageRank(e.ss.stage) < ThreadRank(v.threads[t]) + StageRank(SessionAt(v, s).stage)
  {
    assert ThreadOk(v, t);
  }

  lemma DispatchSpends(v: State, t: nat, s: nat, ec: ErrorCode, line: string)
    requires Inv(v) && Enabled(v, Dispatch(t, s, ec, line))
    ensures Budget(Next(v, Dispatch(t, s, ec, line))) < Budget(v)
  {
    var w := Next(v, Dispatch(t, s, ec, line));
    ThreadBudget(v, t, w.threads[t]);
    SessionBudget(v.(threads := w.threads), s, w.sessions[s]);
  }

  lemma ShutdownSpends(v: State, a: Action)
    requires Enabled(v, a) && (a.StopService? || a.ExitWorker? || a.FinishClose?)
    ensures Budget(Next(v, a)) < Budget(v)
  {
    if !a.StopService? { ThreadBudget(v, a.t, Next(v, a).threads[a.t]); }
  }

  lemma StepSpends(v: State, a: Action)
    requires Inv(v) && Enabled(v, a) && MakesNoCall(a)
    ensures Budget(Next(v, a)) < Budget(v)
  {
    if a.Dispatch? {
      DispatchSpends(v, a.t, a.s, a.ec, a.line);
    } else if IsInternal(a) {
      if v.threads[a.t].call.NoCall? { HandlerSpends(v, a.t); } else { CallSpends(v, a.t); }
      EffectBudget(v, a.t, Focus(v, v.threads[a.t]), ThreadEffect(v, a.t));
    } else {
      ShutdownSpends(v, a);
    }
  }

  lemma EffectBudget(v: State, t: nat, s: nat, e: Effect)
    requires t < |v.threads|
    ensures
      var change := ThreadRank(e.th) - ThreadRank(v.threads[t])
                    + (if s < |v.sessions| then StageRank(e.ss.stage) - StageRank(v.sessions[s].stage) else 0);
      Budget(Apply(v, t, s, e)) == Budget(v) + change
  {
    var u := v.(threads := v.threads[t := e.th]);
    ThreadBudget(v, t, e.th);
    if s < |v.sessions| { SessionBudget(u, s, e.ss); }
  }

  ghost predicate IsRunWithoutCalls(run: seq<State>) {
    && |run| > 0
    && forall i :: 0 <= i < |run| - 1 ==> IsStepWithoutCalls(run[i], run[i + 1])
  }

  ghost predicate IsStepWithoutCalls(v: State, w: State) {
    exists a :: MakesNoCall(a) && Enabled(v, a) && w == Next(v, a)
  }

  /** With no new calls, only boundedly many more steps are possible, whatever the scheduler and the network do. */
  lemma {:induction false} RunsWithoutCallsEnd(run: seq<State>, i: nat)
    requires IsRunWithoutCalls(run) && Inv(run[0]) && i < |run|
    ensures Inv(run[i]) && i + Budget(run[i]) <= Budget(run[0])
  {
    if i > 0 {
      var k := i - 1;
      RunsWithoutCallsEnd(run, k);
      assert IsStepWithoutCalls(run[k], run[k + 1]);
      StepWithoutCallsSpends(run[k], run[i]);
    }
  }

  lemma StepWithoutCallsSpends(v: State, w: State)
    requires Inv(v) && IsStepWithoutCalls(v, w)
    ensures Inv(w) && Budget(w) < Budget(v)
  {
    var a :| MakesNoCall(a) && Enabled(v, a) && w == Next(v, a);
    StepSpends(v, a);
    NextKeeps(v, a);
  }

  // ----- where they end

  lemma NobodyLeftInside(v: State, t: nat)
    requires Inv(v) && !v.stopped && t < |v.threads|
    requires forall a :: IsInternal(a) ==> !Enabled(v, a)
    requires forall c, h, s :: !DeadlyEmbrace(v, c, h, s)
    ensures !v.threads[t].base.Handler? && !v.threads[t].call.Submit? && !v.threads[t].call.Cancel?
    ensures v.threads[t].base.UserCode? || v.threads[t] == Thread(Idle, NoCall)
  {
    assert ThreadOk(v, t);
    if InClient(v.threads[t]) {
      var u := SomeoneAdvances(v, t);
      assert Enabled(v, Advance(u));
    }
    assert !Enabled(v, Return(t));
  }

  /** An entry refers to a session that has not passed its erase step, so the table is empty once all have. */
  lemma ErasedAreUntabled(v: State)
    requires Inv(v) && forall s: nat :: s < |v.sessions| ==> v.sessions[s].erased
    ensures v.table == map[]
  {
    var empty: map<int, nat> := map[];
    assert forall id :: id in v.table <==> id in empty;
    assert v.table == empty;
  }

  lemma CompletedAreUntabled(v: State)
    requires Inv(v) && forall s: nat :: s < |v.sessions| ==> Completed(v, s)
    ensures v.table == map[]
  {
    forall s: nat | s < |v.sessions| ensures v.sessions[s].erased { assert Completed(v, s); }
    ErasedAreUntabled(v);
  }

  /** Where a run of internal steps cannot go on, nothing can stand between a session and its completion. */
  lemma StuckSession(v: State, w: nat, s: nat)
    requires Inv(v) && !v.stopped && s < |v.sessions| && w < |v.threads| && v.threads[w] == Thread(Idle, NoCall)
    requires forall a :: IsInternal(a) ==> !Enabled(v, a)
    requires forall c, h, r :: !DeadlyEmbrace(v, c, h, r)
    ensures Completed(v, s)
  {
    assert SessionsOk(v, s) && !Enabled(v, Dispatch(w, s, Success, ""));
    match v.sessions[s].stage
    case Fresh(t) => NobodyLeftInside(v, t);
    case Running(_, t) => NobodyLeftInside(v, t);
    case _ =>
  }

  /**
   * Where a run of internal steps cannot go on, either two threads are in a deadly embrace, or every session's
   * callback has run exactly once and the table is empty, whichever ids were reused.
   */
  lemma StuckMeansDrained(v: State)
    requires Inv(v) && !v.stopped
    requires forall a :: IsInternal(a) ==> !Enabled(v, a)
    requires forall c, h, s :: !DeadlyEmbrace(v, c, h, s)
    ensures forall s: nat :: s < |v.sessions| ==> Completed(v, s)
    ensures v.table == map[] && v.tableOwner == None
  {
    var w :| 0 <= w < |v.threads| && !v.threads[w].base.UserCode?;
    NobodyLeftInside(v, w);
    forall s: nat | s < |v.sessions| ensures Completed(v, s) { StuckSession(v, w, s); }
    CompletedAreUntabled(v);
    if v.tableOwner.Some? { NobodyLeftInside(v, v.tableOwner.value); }
  }
}
