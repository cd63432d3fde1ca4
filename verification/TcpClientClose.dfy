/** What a return of `close` says about the sessions that were submitted, and what keeps it from returning. */
module TcpClientClose {
  import opened TcpClient
  import opened TcpClientInvariant
  import opened TcpClientHistory
  import opened TcpClientDeadlock
  import opened TcpClientDrain

  /**
   * After `close` has returned, a session whose connect was started has completed, exactly once, precisely if
   * that start came before the io_service stopped. If all did, the table is empty.
   */
  lemma CloseDrains(run: seq<State>, i: nat)
    requires IsRun(run) && Init(run[0]) && i < |run| && run[i].closed
    ensures forall s: nat :: s < |run[i].sessions| && !run[i].sessions[s].stage.Fresh? ==>
              (Completed(run[i], s) <==> !run[i].sessions[s].late)
    ensures (forall s: nat :: s < |run[i].sessions| ==>
               !run[i].sessions[s].late && !run[i].sessions[s].stage.Fresh?) ==> run[i].table == map[]
  {
    var v := run[i];
    RunInv(run, i);
    forall s: nat | s < |v.sessions| && !v.sessions[s].stage.Fresh? ensures Completed(v, s) <==> !v.sessions[s].late {
      assert SessionsOk(v, s);
    }
    if forall s: nat :: s < |v.sessions| ==> !v.sessions[s].late && !v.sessions[s].stage.Fresh? {
      CompletedAreUntabled(v);
    }
  }

  // ----- submissions too late

  lemma EffectOnLate(v: State, t: nat)
    requires Inv(v) && t < |v.threads| && (CanAdvance(v, t) || (CanCall(v, t) && v.threads[t].base.Handler?))
    requires Focus(v, v.threads[t]) < |v.sessions| && v.sessions[Focus(v, v.threads[t])].late
    ensures ThreadEffect(v, t).ss.late
  {
    assert ThreadOk(v, t) && SessionsOk(v, Focus(v, v.threads[t]));
  }

  lemma StepKeepsLate(v: State, w: State, s: nat)
    requires Inv(v) && IsStep(v, w) && s < |v.sessions| && v.sessions[s].late
    ensures s < |w.sessions| && w.sessions[s].late
  {
    var a :| Enabled(v, a) && w == Next(v, a);
    assert SessionsOk(v, s);
    if (a.Advance? || a.Return?) && Focus(v, v.threads[a.t]) == s { EffectOnLate(v, a.t); }
  }

  /** A session whose connect was started after the io_service had stopped is never called back, in no later state. */
  lemma {:induction false} LateIsNeverCalledBack(run: seq<State>, i: nat, j: nat, s: nat)
    requires IsRun(run) && Init(run[0]) && i <= j < |run| && s < |run[i].sessions| && run[i].sessions[s].late
    ensures s < |run[j].sessions| && run[j].sessions[s].late
    ensures run[j].sessions[s].delivered == [] && !Completed(run[j], s)
  {
    if i < j {
      var k := j - 1;
      LateIsNeverCalledBack(run, i, k, s);
      RunInv(run, k);
      assert IsStep(run[k], run[k + 1]);
      StepKeepsLate(run[k], run[j], s);
    }
    RunInv(run, j);
    assert SessionsOk(run[j], s);
  }

  // ----- submissions in time

  /** The connect of the session was started before the io_service ran out of work. */
  predicate Settled(v: State, s: nat) {
    s < |v.sessions| && !v.sessions[s].stage.Fresh? && !v.sessions[s].late
  }

  /** The session is being submitted from inside a callback. */
  predicate Coming(v: State, s: nat) {
    && s < |v.sessions| && v.sessions[s].stage.Fresh?
    && var t := v.sessions[s].stage.submitter;
       t < |v.threads| && v.threads[t].base.Handler?
  }

  /** As long as a callback is running, the io_service has work. */
  lemma CallbackIsWork(v: State, t: nat)
    requires Inv(v) && t < |v.threads| && v.threads[t].base.Handler? && v.threads[t].call.Submit?
    ensures !v.stopped
  {
    assert ThreadOk(v, t) && SessionsOk(v, v.threads[t].base.s);
  }

  lemma HandlerStaysSettled(v: State, t: nat, th: Thread, ss: Session)
    requires th.base.Handler? && !ss.stage.Fresh? && !ss.late
    ensures
      var e := HandlerEffect(v, t, th, ss);
      !e.ss.stage.Fresh? && !e.ss.late
  {
  }

  lemma EffectStaysSettled(v: State, t: nat)
    requires Inv(v) && t < |v.threads| && (CanAdvance(v, t) || (CanCall(v, t) && v.threads[t].base.Handler?))
    requires Settled(v, Focus(v, v.threads[t]))
    ensures
      var ss := ThreadEffect(v, t).ss;
      !ss.stage.Fresh? && !ss.late
  {
    assert ThreadOk(v, t);
    if v.threads[t].call.NoCall? { HandlerStaysSettled(v, t, v.threads[t], v.sessions[Focus(v, v.threads[t])]); }
  }

  lemma StepKeepsSettled(v: State, w: State, s: nat)
    requires Inv(v) && IsStep(v, w) && Settled(v, s)
    ensures Settled(w, s)
  {
    var a :| Enabled(v, a) && w == Next(v, a);
    if (a.Advance? || a.Return?) && Focus(v, v.threads[a.t]) == s { EffectStaysSettled(v, a.t); }
  }

  lemma SubmitterAdvances(v: State, t: nat)
    requires Inv(v) && CanAdvance(v, t) && v.threads[t].call.Submit? && v.threads[t].base.Handler?
    ensures
      var e := ThreadEffect(v, t);
      && e.th.base == v.threads[t].base
      && (e.ss.stage == Fresh(t) || (!e.ss.stage.Fresh? && !e.ss.late))
  {
    CallbackIsWork(v, t);
    assert ThreadOk(v, t);
    assert SessionsOk(v, v.threads[t].call.s);
  }

  lemma StepOfComing(v: State, w: State, s: nat)
    requires Inv(v) && IsStep(v, w) && Coming(v, s)
    ensures Coming(w, s) || Settled(w, s)
  {
    var a :| Enabled(v, a) && w == Next(v, a);
    var t := v.sessions[s].stage.submitter;
    assert SessionsOk(v, s);
    if a == Advance(t) {
      SubmitterAdvances(v, t);
    } else {
      OthersLeaveFresh(v, a, s);
    }
  }

  /** Only its submitter moves a fresh session on, and what other threads do leaves the submitter where it is. */
  lemma OthersLeaveFresh(v: State, a: Action, s: nat)
    requires Inv(v) && Enabled(v, a) && Coming(v, s) && a != Advance(v.sessions[s].stage.submitter)
    ensures
      var t := v.sessions[s].stage.submitter;
      && s < |Next(v, a).sessions| && Next(v, a).sessions[s].stage == v.sessions[s].stage
      && t < |Next(v, a).threads| && Next(v, a).threads[t].base == v.threads[t].base
  {
    assert SessionsOk(v, s);
    if (a.Advance? || a.Return?) && Focus(v, v.threads[a.t]) == s { OtherLeavesFresh(v, a.t); }
  }

  lemma OtherLeavesFresh(v: State, t: nat)
    requires Inv(v) && t < |v.threads| && (CanAdvance(v, t) || (CanCall(v, t) && v.threads[t].base.Handler?))
    requires
      var s := Focus(v, v.threads[t]);
      s < |v.sessions| && v.sessions[s].stage.Fresh? && v.sessions[s].stage.submitter != t
    ensures ThreadEffect(v, t).ss.stage == v.sessions[Focus(v, v.threads[t])].stage
  {
    assert ThreadOk(v, t) && SessionsOk(v, Focus(v, v.threads[t]));
  }

  lemma {:induction false} RunStaysInTime(run: seq<State>, i: nat, j: nat, s: nat)
    requires IsRun(run) && Init(run[0]) && i <= j < |run| && (Settled(run[i], s) || Coming(run[i], s))
    ensures Settled(run[j], s) || Coming(run[j], s)
    ensures Settled(run[i], s) ==> Settled(run[j], s)
  {
    if i < j {
      var k := j - 1;
      RunStaysInTime(run, i, k, s);
      RunInv(run, k);
      assert IsStep(run[k], run[k + 1]);
      if Settled(run[k], s) { StepKeepsSettled(run[k], run[j], s); } else { StepOfComing(run[k], run[j], s); }
    }
  }

  lemma InTimeCompletes(v: State, s: nat)
    requires Inv(v) && v.closed && (Settled(v, s) || Coming(v, s))
    ensures Completed(v, s)
  {
    assert SessionsOk(v, s);
    if Coming(v, s) { CallbackIsWork(v, v.sessions[s].stage.submitter); }
  }

  /** A session whose submission had returned before any `close` began has completed, once, when a `close` returns. */
  lemma SubmittedBeforeClose(run: seq<State>, i: nat, j: nat, s: nat)
    requires IsRun(run) && Init(run[0]) && i <= j < |run| && run[i].work && run[j].closed
    requires s < |run[i].sessions| && !run[i].sessions[s].stage.Fresh?
    ensures Completed(run[j], s)
  {
    RunInv(run, i);
    assert SessionsOk(run[i], s);
    RunStaysInTime(run, i, j, s);
    RunInv(run, j);
    InTimeCompletes(run[j], s);
  }

  /** So has a session that was submitted from inside a callback, whenever that was. */
  lemma SubmittedByCallback(run: seq<State>, i: nat, j: nat, s: nat)
    requires IsRun(run) && Init(run[0]) && i <= j < |run| && Coming(run[i], s) && run[j].closed
    ensures Completed(run[j], s)
  {
    RunStaysInTime(run, i, j, s);
    RunInv(run, j);
    InTimeCompletes(run[j], s);
  }

  // ----- no submissions by user threads from some time before close

  predicate UserSubmits(v: State, t: nat) {
    t < |v.threads| && v.threads[t].base.UserCode? && v.threads[t].call.Submit?
  }

  ghost predicate NoUserSubmits(v: State) {
    forall t: nat :: !UserSubmits(v, t)
  }

  ghost predicate AllInTime(v: State) {
    forall s: nat :: s < |v.sessions| ==> Settled(v, s) || Coming(v, s)
  }

  lemma OpenIsInTime(v: State)
    requires Inv(v) && v.work && NoUserSubmits(v)
    ensures AllInTime(v)
  {
    forall s: nat | s < |v.sessions| ensures Settled(v, s) || Coming(v, s) {
      assert SessionsOk(v, s);
      if v.sessions[s].stage.Fresh? {
        var t := v.sessions[s].stage.submitter;
        assert ThreadOk(v, t) && !UserSubmits(v, t);
      }
    }
  }

  lemma StepStaysInTime(v: State, w: State)
    requires Inv(v) && IsStep(v, w) && AllInTime(v) && NoUserSubmits(w)
    ensures AllInTime(w)
  {
    forall s: nat | s < |w.sessions| ensures Settled(w, s) || Coming(w, s) {
      if s >= |v.sessions| {
        NewSessionIsComing(v, w, s);
      } else if Settled(v, s) {
        StepKeepsSettled(v, w, s);
      } else {
        StepOfComing(v, w, s);
      }
    }
  }

  lemma NewSessionIsComing(v: State, w: State, s: nat)
    requires IsStep(v, w) && NoUserSubmits(w) && |v.sessions| <= s < |w.sessions|
    ensures Coming(w, s)
  {
    var a :| Enabled(v, a) && w == Next(v, a);
    assert a.BeginSubmit? && !UserSubmits(w, a.t);
  }

  lemma {:induction false} RunIsInTime(run: seq<State>, i: nat, j: nat)
    requires IsRun(run) && Init(run[0]) && i <= j < |run| && run[i].work
    requires forall k :: i <= k <= j ==> NoUserSubmits(run[k])
    ensures AllInTime(run[j])
  {
    if i == j {
      RunInv(run, i);
      OpenIsInTime(run[i]);
    } else {
      var k := j - 1;
      RunIsInTime(run, i, k);
      RunInv(run, k);
      assert IsStep(run[k], run[k + 1]);
      StepStaysInTime(run[k], run[j]);
    }
  }

  /**
   * If from some time before `close` on no user thread is inside `emulateLongComputationOp`, then when `close` returns
   * every session ever submitted, also those that callbacks submitted meanwhile, has completed exactly once, and the
   * table is empty, whichever ids were reused.
   */
  lemma CloseAfterAllSubmissions(run: seq<State>, i: nat, j: nat)
    requires IsRun(run) && Init(run[0]) && i <= j < |run| && run[i].work && run[j].closed
    requires forall k :: i <= k <= j ==> NoUserSubmits(run[k])
    ensures forall s: nat :: s < |run[j].sessions| ==> Completed(run[j], s)
    ensures run[j].table == map[]
  {
    RunIsInTime(run, i, j);
    RunInv(run, j);
    forall s: nat | s < |run[j].sessions| ensures Completed(run[j], s) { InTimeCompletes(run[j], s); }
    CompletedAreUntabled(run[j]);
  }

  // ----- what keeps it from returning

  /**
   * From a deadly embrace on, for ever, `close` does not return, the session's callback does not run, and the table
   * stays locked, so that no other call gets past it either.
   */
  lemma {:induction false} EmbraceBlocksAll(run: seq<State>, i: nat, j: nat, c: nat, h: nat, s: nat)
    requires IsRun(run) && Init(run[0]) && i <= j < |run| && DeadlyEmbrace(run[i], c, h, s)
    ensures DeadlyEmbrace(run[j], c, h, s)
    ensures run[j].closed == run[i].closed && run[j].table == run[i].table && run[j].sessions[s].delivered == []
  {
    RunInv(run, j);
    if i < j {
      var k := j - 1;
      EmbraceBlocksAll(run, i, k, c, h, s);
      RunInv(run, k);
      assert IsStep(run[k], run[k + 1]);
      EmbraceIsForever(run[k], run[j], c, h, s);
      EmbraceBlocksStep(run[k], run[j], c, h, s);
    }
    assert SessionsOk(run[j], s) && ThreadOk(run[j], h);
  }

  lemma EmbraceBlocksStep(v: State, w: State, c: nat, h: nat, s: nat)
    requires Inv(v) && DeadlyEmbrace(v, c, h, s) && IsStep(v, w)
    ensures w.closed == v.closed && w.table == v.table
  {
    var a :| Enabled(v, a) && w == Next(v, a);
    assert v.threads[h].base.Handler?;
    if a.Advance? || a.Return? {
      assert ThreadOk(v, a.t) && ThreadOk(v, c);
      OnlyOwnersTouchTable(v, a.t, v.threads[a.t], SessionAt(v, Focus(v, v.threads[a.t])));
    }
  }

  /** A thread changes the table only at program points inside the scope of the table's mutex. */
  lemma OnlyOwnersTouchTable(v: State, t: nat, th: Thread, ss: Session)
    requires th.call.Submit? || th.call.Cancel? || th.base.Handler?
    ensures
      var e := if th.call.Submit? then SubmitEffect(v, t, th, ss)
               else if th.call.Cancel? then CancelEffect(v, t, th, ss) else HandlerEffect(v, t, th, ss);
      e.table != v.table ==> HoldsTable(th)
  {
  }

  // ----- and that nothing else does

  /** No step is possible but new calls. */
  ghost predicate Stuck(v: State) {
    forall a :: MakesNoCall(a) ==> !Enabled(v, a)
  }

  ghost predicate Embraced(v: State) {
    exists c, h, s :: DeadlyEmbrace(v, c, h, s)
  }

  lemma OpenIsNotStuck(v: State)
    requires Inv(v) && !v.work && !v.stopped && !Embraced(v)
    ensures !Stuck(v)
  {
    if Stuck(v) {
      assert forall c, h, s :: !DeadlyEmbrace(v, c, h, s);
      var w :| 0 <= w < |v.threads| && !v.threads[w].base.UserCode?;
      NobodyLeftInside(v, w);
      forall s | 0 <= s < |v.sessions| ensures v.sessions[s].stage.Done? {
        StuckSession(v, w, s);
        assert Completed(v, s);
      }
      forall t | 0 <= t < |v.threads| ensures !v.threads[t].base.Handler? { NobodyLeftInside(v, t); }
      assert Enabled(v, StopService);
    }
  }

  /** After the io_service has stopped, a stuck state has only user threads and workers that have left. */
  lemma StoppedAndStuck(v: State, t: nat)
    requires Inv(v) && v.stopped && Stuck(v) && t < |v.threads|
    ensures v.threads[t].base.UserCode? || v.threads[t].base.Exited?
  {
    assert ThreadOk(v, t) && !Enabled(v, ExitWorker(t)) && !Enabled(v, Advance(t));
    if v.threads[t].base.Handler? { assert SessionsOk(v, v.threads[t].base.s); }
  }

  /** Once the work object is gone, a state without an embrace is stuck only if every `close` has returned. */
  lemma StuckWithoutEmbrace(v: State, t: nat)
    requires Inv(v) && !v.work && Stuck(v) && !Embraced(v) && t < |v.threads|
    ensures v.stopped && !v.threads[t].call.Closing?
  {
    if !v.stopped { OpenIsNotStuck(v); }
    forall u | 0 <= u < |v.threads| ensures v.threads[u].base.UserCode? || v.threads[u].base.Exited? {
      StoppedAndStuck(v, u);
    }
    assert !Enabled(v, FinishClose(t));
  }

  // ----- a call of close from its beginning

  ghost predicate ClosesDown(v: State) {
    forall t: nat :: t < |v.threads| && v.threads[t].call.Closing? ==> !v.work
  }

  lemma EffectNeverCloses(v: State, t: nat)
    requires t < |v.threads| && (InClient(v.threads[t]) || (v.threads[t].call.NoCall? && v.threads[t].base.Handler?))
    ensures !ThreadEffect(v, t).th.call.Closing?
  {
  }

  lemma ClosingComesFrom(v: State, a: Action, t: nat)
    requires Enabled(v, a) && t < |v.threads|
    ensures t < |Next(v, a).threads|
    ensures Next(v, a).threads[t].call.Closing? ==> v.threads[t].call.Closing? || a == BeginClose(t)
    ensures v.threads[t].call.Closing? ==> Next(v, a).threads[t].call.Closing? || Next(v, a).closed
    ensures (Next(v, a).work ==> v.work) && (v.closed ==> Next(v, a).closed)
  {
    NextMoves(v, a, if a.StopService? then |v.threads| else a.t);
    if a.Advance? || a.Return? { EffectNeverCloses(v, a.t); }
  }

  lemma {:induction false} RunClosesDown(run: seq<State>, i: nat, j: nat, t: nat)
    requires IsRun(run) && i <= j < |run| && t < |run[i].threads|
    ensures t < |run[j].threads|
    ensures run[i].threads[t].call.Closing? ==> run[j].threads[t].call.Closing? || run[j].closed
    ensures !run[i].work ==> !run[j].work
    ensures run[i].closed ==> run[j].closed
  {
    if i < j {
      var k := j - 1;
      RunClosesDown(run, i, k, t);
      assert IsStep(run[k], run[k + 1]);
      var a :| Enabled(run[k], a) && run[j] == Next(run[k], a);
      ClosingComesFrom(run[k], a, t);
    }
  }

  lemma {:induction false} RunHasNoWork(run: seq<State>, i: nat)
    requires IsRun(run) && Init(run[0]) && i < |run|
    ensures ClosesDown(run[i])
  {
    if i > 0 {
      var k := i - 1;
      RunHasNoWork(run, k);
      assert IsStep(run[k], run[k + 1]);
      var a :| Enabled(run[k], a) && run[i] == Next(run[k], a);
      NextMoves(run[k], a, if a.StopService? then |run[k].threads| else a.t);
      forall t: nat | t < |run[i].threads| && run[i].threads[t].call.Closing? ensures !run[i].work {
        ClosingComesFrom(run[k], a, t);
      }
    }
  }

  lemma EmbraceIsOpen(v: State)
    requires Inv(v) && Embraced(v)
    ensures !v.closed
  {
    var c, h, s :| DeadlyEmbrace(v, c, h, s);
    assert ThreadOk(v, h) && SessionsOk(v, s);
  }

  /**
   * Once a call of `close` has begun, however the run goes on, it goes on for boundedly many steps without new calls
   * (`RunsWithoutCallsEnd`), and where it cannot go on the call is still blocked exactly if there is an embrace.
   */
  lemma {:induction false} CloseBlockedExactly(run: seq<State>, i: nat, j: nat, t: nat)
    requires IsRun(run) && Init(run[0]) && i <= j < |run| && Stuck(run[j])
    requires t < |run[i].threads| && run[i].threads[t].call.Closing?
    ensures t < |run[j].threads| && (run[j].threads[t].call.Closing? <==> Embraced(run[j]))
    ensures !Embraced(run[j]) ==> run[j].closed && run[j].stopped
  {
    RunHasNoWork(run, i);
    RunClosesDown(run, i, j, t);
    RunInv(run, j);
    if Embraced(run[j]) { EmbraceIsOpen(run[j]); } else { StuckWithoutEmbrace(run[j], t); }
  }
}
