/** Exactly when a cancelled HTTP request can still be reported as a success. */
module HttpLateCancel {
  import opened Asio
  import opened HttpCancel
  import opened HttpCancelProperties
  import Runs

  // ----- reachability

  /** `w` can be reached from `v`. */
  ghost predicate Leads(v: State, w: State) {
    Runs.Leads(IsStep, v, w)
  }

  lemma Advanced(v: State, w: State, a: Action) returns (z: State)
    requires Leads(v, w) && Enabled(w, a)
    ensures Leads(v, z) && z == Next(w, a)
  {
    z := Next(w, a);
    assert IsStep(w, z);
    Runs.StepLeads(IsStep, v, w, z);
  }

  // ----- the exact condition

  /** The read of the body has been started, and it has not completed with an error. */
  predicate BodyMaySucceed(v: State) {
    && ReadBody in v.started
    && forall i | 0 <= i < |v.completions| :: v.completions[i].stage == ReadBody ==>
         v.completions[i].ec == Eof || v.completions[i].ec == Success
  }

  lemma OnlyBodyStartsBody(stage: Stage)
    requires ReadBody in StartedUpTo(stage)
    ensures stage == ReadBody
  {
  }

  /** Where the read of the body has been started, it is outstanding, or its handler runs, or the callback has run. */
  lemma WhereTheBodyIs(v: State)
    requires Inv(v) && ReadBody in v.started && v.delivered == []
    ensures v.driver == Operation(ReadBody) || (v.driver.Runner? && v.driver.stage == ReadBody)
  {
    match v.driver
    case Operation(op) => OnlyBodyStartsBody(op);
    case Runner(_, stage) => OnlyBodyStartsBody(stage);
    case _ =>
  }

  /** A worker is free, or is about to release the mutex and then free. */
  lemma FreeWorker(u: State, v: State) returns (w: State, t: nat)
    requires Inv(v) && v.driver == Operation(ReadBody) && Leads(u, v)
    ensures Leads(u, w) && t < |w.threads| && w.threads[t] == Thread(true, Outside, NotCancelling)
    ensures w.driver == v.driver && w.outstanding == v.outstanding && w.delivered == v.delivered
  {
    t :| 0 <= t < |v.threads| && v.threads[t].worker;
    assert ThreadOk(v, t);
    w := v;
    if v.threads[t].act.Inside? {
      w := Advanced(u, v, Advance(t));
    }
  }

  lemma ReadCompletes(u: State, v: State, t: nat) returns (w: State)
    requires Leads(u, v) && t < |v.threads| && v.threads[t] == Thread(true, Outside, NotCancelling)
    requires ReadBody in v.outstanding && v.delivered == []
    ensures Leads(u, w) && w.delivered == [Success] && w.cancelled == v.cancelled
  {
    w := Advanced(u, v, Dispatch(t, ReadBody, Eof, true));
    w := EnteredReports(u, w, t);
  }

  lemma EnteredReports(u: State, v: State, t: nat) returns (w: State)
    requires Leads(u, v) && t < |v.threads| && v.threads[t].cancel.NotCancelling? && v.delivered == []
    requires
      var act := v.threads[t].act;
      act.Inside? && act.stage == ReadBody && act.pc.Entered? && (act.pc.ec == Eof || act.pc.ec == Success)
    ensures Leads(u, w) && w.delivered == [Success] && w.cancelled == v.cancelled
  {
    w := Advanced(u, v, Advance(t));
    w := FinishingReports(u, w, t);
  }

  lemma FinishingReports(u: State, v: State, t: nat) returns (w: State)
    requires Leads(u, v) && t < |v.threads| && v.threads[t].cancel.NotCancelling? && v.delivered == []
    requires v.threads[t].act == Inside(ReadBody, Finishing(Success))
    ensures Leads(u, w) && w.delivered == [Success] && w.cancelled == v.cancelled
  {
    w := Advanced(u, v, Advance(t));
  }

  /** Where the handler of the body read stands before the callback. */
  lemma BodyHandler(v: State)
    requires Inv(v) && v.driver.Runner? && v.driver.stage == ReadBody && v.delivered == [] && BodyMaySucceed(v)
    ensures v.driver.t < |v.threads| && v.threads[v.driver.t].cancel.NotCancelling?
    ensures
      var act := v.threads[v.driver.t].act;
      && act.Inside? && act.stage == ReadBody
      && ((act.pc.Entered? && (act.pc.ec == Eof || act.pc.ec == Success)) || act.pc == Finishing(Success))
  {
    assert ThreadOk(v, v.driver.t);
    assert v.completions[5].stage == ReadBody;
  }

  lemma HandlerReports(u: State, v: State) returns (w: State)
    requires Inv(v) && v.driver.Runner? && v.driver.stage == ReadBody && Leads(u, v)
    requires v.delivered == [] && BodyMaySucceed(v)
    ensures Leads(u, w) && w.delivered == [Success]
  {
    BodyHandler(v);
    if v.threads[v.driver.t].act.pc.Entered? {
      w := EnteredReports(u, v, v.driver.t);
    } else {
      w := FinishingReports(u, v, v.driver.t);
    }
  }

  lemma SuccessIsReachable(v: State) returns (w: State)
    requires Inv(v) && v.delivered == [] && BodyMaySucceed(v)
    ensures Leads(v, w) && w.delivered == [Success]
  {
    Runs.StaysLeads(IsStep, v);
    WhereTheBodyIs(v);
    if v.driver.Runner? {
      w := HandlerReports(v, v);
    } else {
      var t;
      w, t := FreeWorker(v, v);
      w := ReadCompletes(v, w, t);
    }
  }

  lemma {:induction false} CompletionsGrow(run: seq<State>, i: nat, j: nat)
    requires IsRun(run) && i <= j < |run|
    ensures run[i].completions <= run[j].completions
  {
    if i < j {
      var k := j - 1;
      CompletionsGrow(run, i, k);
      assert IsStep(run[k], run[k + 1]);
      StepCompletes(run[k], run[j]);
    }
  }

  lemma StepCompletes(v: State, w: State)
    requires IsStep(v, w)
    ensures v.completions <= w.completions
  {
  }

  lemma CompletionsInOrder(v: State, i: nat)
    requires Inv(v) && i < |v.completions|
    ensures Index(v.completions[i].stage) == i + 1
  {
  }

  /** A cancelled run that ends in success had its read of the body started before the cancel, and it went well. */
  lemma SuccessNeedsBody(v: State, w: State)
    requires Inv(v) && v.cancelled && Leads(v, w) && w.delivered == [Success]
    ensures BodyMaySucceed(v)
  {
    var run :| Runs.IsRun(IsStep, run) && run[0] == v && run[|run| - 1] == w;
    assert IsRun(run);
    var last := |run| - 1;
    RunInv(run, last);
    NothingStartsAfterCancel(run, 0, last);
    CompletionsGrow(run, 0, last);
    SuccessMeansBodyStarted(w);
    HowItFinished(w);
    forall i | 0 <= i < |v.completions| && v.completions[i].stage == ReadBody
      ensures v.completions[i].ec == Eof || v.completions[i].ec == Success
    {
      CompletionsInOrder(v, i);
    }
  }

  /**
   * In a reachable state that is cancelled and has not called back yet, the callback can still report success exactly
   * if the read of the body has been started and has not failed.
   */
  lemma {:induction false} LateCancelExactly(run: seq<State>, i: nat)
    requires IsRun(run) && Init(run[0]) && i < |run| && run[i].cancelled && run[i].delivered == []
    ensures (exists w :: Leads(run[i], w) && w.delivered == [Success]) <==> BodyMaySucceed(run[i])
  {
    RunInv(run, i);
    if BodyMaySucceed(run[i]) { var w := SuccessIsReachable(run[i]); }
    if exists w :: Leads(run[i], w) && w.delivered == [Success] {
      var w :| Leads(run[i], w) && w.delivered == [Success];
      SuccessNeedsBody(run[i], w);
    }
  }

  // ----- there are such states

  /** One worker (0) and one user thread (1). */
  function Start(): State {
    State([Thread(true, Outside, NotCancelling), Thread(false, Outside, NotCancelling)],
          None, false, multiset{}, false, Unstarted, [], [], [])
  }

  /** A thread that stands before the mutex starts its stage's next operation and leaves. */
  lemma StartLeads(v: State, w: State, t: nat, stage: Stage) returns (z: State)
    requires Leads(v, w) && t < |w.threads| && w.mux == None && !w.cancelled && w.outstanding == multiset{}
    requires w.threads[t].act == Inside(stage, AtMux) && w.threads[t].cancel == NotCancelling
    ensures
      var op := NextStage(stage);
      && Leads(v, z)
      && z == w.(threads := w.threads[t := w.threads[t].(act := Outside)], outstanding := multiset{op},
                 started := w.started + [op], driver := Operation(op))
  {
    z := Advanced(v, w, Advance(t));
    z := Advanced(v, z, Advance(t));
    z := Advanced(v, z, Advance(t));
  }

  /** The operation before `op` completes well, and its handler starts `op`. */
  lemma StageLeads(v: State, w: State, before: Stage, ec: ErrorCode) returns (z: State)
    requires Leads(v, w) && w.threads == Start().threads && w.mux == None && !w.cancelled
    requires w.outstanding == multiset{before} && before != ReadBody && EarlyFinish(before, ec, true) == None
    ensures
      var op := NextStage(before);
      && Leads(v, z)
      && z == w.(outstanding := multiset{op}, started := w.started + [op], driver := Operation(op),
                 completions := w.completions + [Completion(before, ec, true)])
  {
    z := Advanced(v, w, Dispatch(0, before, ec, true));
    z := Advanced(v, z, Advance(0));
    assert z.outstanding == multiset{};
    z := StartLeads(v, z, 0, before);
    assert z.threads == w.threads;
  }

  lemma ExecuteLeads() returns (z: State)
    ensures Init(Start()) && Leads(Start(), z)
    ensures z == Start().(executed := true, outstanding := multiset{Resolve}, started := [Resolve],
        driver := Operation(Resolve))
  {
    Runs.StaysLeads(IsStep, Start());
    assert Start().threads[0].worker;
    z := Advanced(Start(), Start(), BeginExecute(1));
    z := StartLeads(Start(), z, 1, Execute);
    assert z.threads == Start().threads && z.started == [Resolve];
  }

  lemma CancelLeads(v: State, w: State) returns (z: State)
    requires Leads(v, w) && w.threads == Start().threads && w.mux == None
    ensures Leads(v, z) && z == w.(cancelled := true)
  {
    z := Advanced(v, w, BeginCancel(1));
    z := Advanced(v, z, Advance(1));
    z := Advanced(v, z, Advance(1));
    z := Advanced(v, z, Advance(1));
    assert z.threads == w.threads;
  }

  lemma BodyLeads() returns (z: State)
    ensures Init(Start()) && Leads(Start(), z) && z.threads == Start().threads && z.mux == None
    ensures !z.cancelled && z.delivered == [] && z.outstanding == multiset{ReadBody}
  {
    z := ExecuteLeads();
    z := StageLeads(Start(), z, Resolve, Success);
    z := StageLeads(Start(), z, Connect, Success);
    z := StageLeads(Start(), z, Write, Success);
    z := StageLeads(Start(), z, ReadStatus, Success);
    z := StageLeads(Start(), z, ReadHeaders, Success);
  }

  /** A cancel that comes while the body is being read can be lost: the callback may still report success. */
  lemma LateCancelMayBeLost() returns (z: State)
    ensures Init(Start()) && Leads(Start(), z)
    ensures z.cancelled && z.delivered == [Success]
  {
    z := BodyLeads();
    z := CancelLeads(Start(), z);
    z := ReadCompletes(Start(), z, 0);
  }
}
