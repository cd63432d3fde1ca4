/** What callers of the HTTP client's `execute` and `cancel` can rely on, in every run. */
module HttpCancelProperties {
  import opened Asio
  import opened HttpCancel
  import opened Sums

  // ----- one operation, one callback, never under the mutex

  /** At most one operation is outstanding, and none while a handler (or `execute`) still moves the request on. */
  lemma OneOperationAtATime(run: seq<State>, i: nat)
    requires IsRun(run) && Init(run[0]) && i < |run|
    ensures |run[i].outstanding| <= 1
    ensures forall t | 0 <= t < |run[i].threads| ::
              run[i].threads[t].act.Inside? && !run[i].threads[t].act.pc.Releasing? ==> run[i].outstanding == multiset{}
  {
    RunInv(run, i);
    forall t | 0 <= t < |run[i].threads| && run[i].threads[t].act.Inside? && !run[i].threads[t].act.pc.Releasing?
      ensures run[i].outstanding == multiset{}
    {
      assert ThreadOk(run[i], t);
    }
  }

  /** The operations are started in this order, each once, and complete in it, each before the next one is started. */
  lemma OperationsInOrder(run: seq<State>, i: nat)
    requires IsRun(run) && Init(run[0]) && i < |run|
    ensures run[i].started <= [Resolve, Connect, Write, ReadStatus, ReadHeaders, ReadBody]
    ensures |run[i].completions| <= |run[i].started| <= |run[i].completions| + 1
    ensures forall k | 0 <= k < |run[i].completions| :: run[i].completions[k].stage == run[i].started[k]
  {
    RunInv(run, i);
    var v := run[i];
    match v.driver
    case Unstarted =>
    case Operation(op) => InOrder(v, op);
    case Runner(t, stage) => InOrder(v, stage);
    case Over =>
      var stage :| v.started == StartedUpTo(stage) && CompletedUpTo(stage, v.completions);
      InOrder(v, stage);
  }

  lemma InOrder(v: State, stage: Stage)
    requires v.started == StartedUpTo(stage) && Index(stage) - 1 <= |v.completions| <= Index(stage)
    requires forall k | 0 <= k < |v.completions| :: Index(v.completions[k].stage) == k + 1
    ensures v.started <= [Resolve, Connect, Write, ReadStatus, ReadHeaders, ReadBody]
    ensures |v.completions| <= |v.started| <= |v.completions| + 1
    ensures forall k | 0 <= k < |v.completions| :: v.completions[k].stage == v.started[k]
  {
    forall k | 0 <= k < |v.completions| ensures v.completions[k].stage == v.started[k] {
      assert Index(v.started[k]) == k + 1;
      SameIndex(v.completions[k].stage, v.started[k]);
    }
  }

  lemma SameIndex(a: Stage, b: Stage)
    requires Index(a) == Index(b)
    ensures a == b
  {
  }

  /**
   * `on_finish` runs at most once, and its code follows from how the operations completed: a failed operation is
   * reported as its own error, except that the end of the connection ends the body; a status line that does not parse
   * as an invalid response; and only a chain that stopped for neither reason as an abort, and then it was cancelled.
   */
  lemma {:induction false} FinishedOnce(run: seq<State>, i: nat)
    requires IsRun(run) && Init(run[0]) && i < |run|
    ensures |run[i].delivered| <= 1
    ensures run[i].delivered != [] ==>
              var cs, code := run[i].completions, run[i].delivered[0];
              if cs != [] && cs[|cs| - 1].stage == ReadBody then
                code == if cs[|cs| - 1].ec == Eof then Success else cs[|cs| - 1].ec
              else if cs != [] && cs[|cs| - 1].ec != Success then
                code == cs[|cs| - 1].ec
              else if cs != [] && cs[|cs| - 1].stage == ReadStatus && !cs[|cs| - 1].parsed then
                code == InvalidResponse
              else
                code == OperationAborted && run[i].cancelled
  {
    RunInv(run, i);
    if run[i].delivered != [] { HowItFinished(run[i]); }
  }

  lemma HowItFinished(v: State)
    requires Inv(v) && v.delivered != []
    ensures |v.delivered| == 1 && MayFinishWith(v, v.delivered[0])
    ensures forall k | 0 <= k < |v.completions| - 1 ::
              EarlyFinish(v.completions[k].stage, v.completions[k].ec, v.completions[k].parsed) == None
  {
    if v.driver.Runner? { assert ThreadOk(v, v.driver.t); }
  }

  /** It is a success exactly if all six operations completed, and the last one, the read of the body, as it should. */
  lemma {:induction false} SuccessExactly(run: seq<State>, i: nat)
    requires IsRun(run) && Init(run[0]) && i < |run| && run[i].delivered != []
    ensures run[i].delivered[0] == Success <==>
              && |run[i].completions| == 6 && run[i].completions[5].stage == ReadBody
              && (run[i].completions[5].ec == Eof || run[i].completions[5].ec == Success)
  {
    FinishedOnce(run, i);
    OperationsInOrder(run, i);
  }

  /** A thread that runs the callback does not hold the mutex, so a callback that cancels does not block itself. */
  lemma CallbackIsUnlocked(run: seq<State>, i: nat, t: nat)
    requires IsRun(run) && Init(run[0]) && i < |run| && t < |run[i].threads|
    requires run[i].threads[t].act.Inside?
        && (run[i].threads[t].act.pc.Finishing? || run[i].threads[t].act.pc.InCallback?)
    requires run[i].threads[t].cancel.NotCancelling? || run[i].threads[t].cancel.Approaching?
    ensures run[i].mux != Some(t)
  {
    RunInv(run, i);
    assert ThreadOk(run[i], t);
  }

  // ----- cancellation

  /** Once the flag is set, a step starts no operation, and the flag stays set. */
  lemma StepAfterCancel(v: State, w: State)
    requires Inv(v) && IsStep(v, w) && v.cancelled
    ensures w.cancelled && w.started == v.started && w.outstanding <= v.outstanding
  {
    var a :| Enabled(v, a) && w == Next(v, a);
    if a.Advance? { EffectAfterCancel(v, a.t); }
  }

  lemma EffectAfterCancel(v: State, t: nat)
    requires CanAdvance(v, t) && v.cancelled
    ensures
      var e := ThreadEffect(v, t, v.threads[t]);
      e.cancelled && e.starts == None
  {
  }

  lemma {:induction false} NothingStartsAfterCancel(run: seq<State>, i: nat, j: nat)
    requires IsRun(run) && (Init(run[0]) || Inv(run[0])) && i <= j < |run| && run[i].cancelled
    ensures run[j].cancelled && run[j].started == run[i].started && run[j].outstanding <= run[i].outstanding
  {
    if i < j {
      var k := j - 1;
      NothingStartsAfterCancel(run, i, k);
      RunInv(run, k);
      assert IsStep(run[k], run[k + 1]);
      StepAfterCancel(run[k], run[j]);
    }
  }

  /**
   * A cancel that sets the flag before the read of the body is started is never lost: whatever has arrived and
   * whatever arrives later, no callback reports success.
   */
  lemma CancelBeforeBodyIsNotLost(run: seq<State>, i: nat, j: nat)
    requires IsRun(run) && Init(run[0]) && i < |run| && j < |run| && run[i].cancelled && ReadBody !in run[i].started
    ensures run[j].delivered != [Success]
  {
    RunInv(run, j);
    FinishedOnce(run, j);
    if run[j].delivered == [Success] {
      SuccessMeansBodyStarted(run[j]);
      if i <= j { NothingStartsAfterCancel(run, i, j); } else { StartedGrows(run, j, i, ReadBody); }
    }
  }

  lemma SuccessMeansBodyStarted(v: State)
    requires Inv(v) && v.delivered == [Success]
    ensures ReadBody in v.started
  {
    match v.driver
    case Runner(t, stage) =>
      assert ThreadOk(v, t);
      assert stage == ReadBody;
      assert v.started[5] == ReadBody;
    case Over =>
      var stage :| v.started == StartedUpTo(stage) && CompletedUpTo(stage, v.completions);
      assert stage == ReadBody;
      assert v.started[5] == ReadBody;
    case _ =>
  }

  lemma {:induction false} StartedGrows(run: seq<State>, i: nat, j: nat, op: Stage)
    requires IsRun(run) && i <= j < |run| && op in run[i].started
    ensures op in run[j].started
  {
    if i < j {
      var k := j - 1;
      StartedGrows(run, i, k, op);
      assert IsStep(run[k], run[k + 1]);
      StepStarts(run[k], run[j], op);
    }
  }

  lemma StepStarts(v: State, w: State, op: Stage)
    requires IsStep(v, w) && op in v.started
    ensures op in w.started
  {
    var a :| Enabled(v, a) && w == Next(v, a);
  }

  // ----- every run ends, and then the callback has run exactly once

  /** The one mutex is always released: while a thread is inside the client's code, some thread can go on. */
  lemma SomeoneAdvances(v: State, t: nat) returns (u: nat)
    requires Inv(v) && t < |v.threads| && InClient(v.threads[t])
    ensures CanAdvance(v, u)
  {
    if CanAdvance(v, t) {
      u := t;
    } else {
      u := v.mux.value;
      assert ThreadOk(v, u);
    }
  }

  predicate IsInternal(a: Action) {
    a.Dispatch? || a.Advance? || a.Return?
  }

  /** Where nothing but a new call is possible, an executed request has been reported exactly once. */
  lemma StuckMeansFinished(v: State)
    requires Inv(v) && v.executed
    requires forall a :: IsInternal(a) ==> !Enabled(v, a)
    ensures |v.delivered| == 1 && v.outstanding == multiset{} && v.driver == Over
  {
    forall t | 0 <= t < |v.threads| ensures v.threads[t].act.Outside? && v.threads[t].cancel.NotCancelling? {
      if InClient(v.threads[t]) {
        var u := SomeoneAdvances(v, t);
        assert Enabled(v, Advance(u));
      }
      assert !Enabled(v, Return(t));
    }
    var w :| 0 <= w < |v.threads| && v.threads[w].worker;
    assert v.threads[w] == Thread(true, Outside, NotCancelling);
    match v.driver
    case Operation(op) => assert Enabled(v, Dispatch(w, op, Success, true));
    case _ =>
  }

  function PcRank(act: Activity): nat {
    match act
    case Outside => 0
    case Inside(_, Entered(_, _)) => 7
    case Inside(_, AtMux) => 6
    case Inside(_, Checking) => 5
    case Inside(_, Unlocking) => 4
    case Inside(_, Finishing(_)) => 3
    case Inside(_, InCallback) => 2
    case Inside(_, Releasing) => 1
  }

  function CancelRank(cancel: CancelPc): nat {
    match cancel
    case NotCancelling => 0
    case Approaching => 3
    case Marking => 2
    case Leaving => 1
  }

  function ThreadRank(th: Thread): nat {
    PcRank(th.act) + CancelRank(th.cancel)
  }

  function DriverRank(driver: Driver): nat {
    match driver
    case Unstarted => 0
    case Operation(op) => 140 - 20 * Index(op)
    case Runner(_, stage) => 130 - 20 * Index(stage)
    case Over => 0
  }

  /** A bound on the internal steps that can still be taken without a new call. */
  function Budget(v: State): nat {
    Sum(seq(|v.threads|, t requires 0 <= t < |v.threads| => ThreadRank(v.threads[t]))) + DriverRank(v.driver)
  }

  lemma ThreadBudget(v: State, w: State, t: nat)
    requires t < |v.threads| == |w.threads| && w.threads == v.threads[t := w.threads[t]]
    ensures Budget(w) == Budget(v) - ThreadRank(v.threads[t]) + ThreadRank(w.threads[t])
                         - DriverRank(v.driver) + DriverRank(w.driver)
  {
    var xs := seq(|v.threads|, u requires 0 <= u < |v.threads| => ThreadRank(v.threads[u]));
    assert seq(|w.threads|, u requires 0 <= u < |w.threads| => ThreadRank(w.threads[u]))
        == xs[t := ThreadRank(w.threads[t])];
    SumUpdate(xs, t, ThreadRank(w.threads[t]));
  }

  lemma CancelSpends(v: State, t: nat)
    requires CanAdvance(v, t) && !v.threads[t].cancel.NotCancelling?
    ensures
      var e := ThreadEffect(v, t, v.threads[t]);
      ThreadRank(e.th) < ThreadRank(v.threads[t]) && Apply(v, t, e).driver == v.driver
  {
  }

  lemma CheckSpends(v: State, t: nat)
    requires Inv(v) && CanAdvance(v, t) && v.threads[t].cancel.NotCancelling? && v.threads[t].act.pc.Checking?
    ensures
      var e := ThreadEffect(v, t, v.threads[t]);
      ThreadRank(e.th) + DriverRank(Apply(v, t, e).driver) < ThreadRank(v.threads[t]) + DriverRank(v.driver)
  {
    assert ThreadOk(v, t);
  }

  lemma OtherSpends(v: State, t: nat)
    requires CanAdvance(v, t) && v.threads[t].cancel.NotCancelling? && !v.threads[t].act.pc.Checking?
    ensures
      var e := ThreadEffect(v, t, v.threads[t]);
      ThreadRank(e.th) < ThreadRank(v.threads[t]) && Apply(v, t, e).driver == v.driver
  {
  }

  lemma StageSpends(v: State, t: nat)
    requires Inv(v) && CanAdvance(v, t) && v.threads[t].cancel.NotCancelling?
    ensures
      var e := ThreadEffect(v, t, v.threads[t]);
      ThreadRank(e.th) + DriverRank(Apply(v, t, e).driver) < ThreadRank(v.threads[t]) + DriverRank(v.driver)
  {
    if v.threads[t].act.pc.Checking? { CheckSpends(v, t); } else { OtherSpends(v, t); }
  }

  lemma StepSpends(v: State, a: Action)
    requires Inv(v) && Enabled(v, a) && IsInternal(a)
    ensures Budget(Next(v, a)) < Budget(v)
  {
    assert ThreadOk(v, a.t);
    ThreadBudget(v, Next(v, a), a.t);
    if a.Advance? { if v.threads[a.t].cancel.NotCancelling? { StageSpends(v, a.t); } else { CancelSpends(v, a.t); } }
  }

  ghost predicate IsInternalStep(v: State, w: State) {
    exists a :: IsInternal(a) && Enabled(v, a) && w == Next(v, a)
  }

  lemma InternalStepSpends(v: State, w: State)
    requires Inv(v) && IsInternalStep(v, w)
    ensures Inv(w) && Budget(w) < Budget(v)
  {
    var a :| IsInternal(a) && Enabled(v, a) && w == Next(v, a);
    StepSpends(v, a);
    NextKeeps(v, a);
  }

  /** With no new calls, only boundedly many more steps are possible, whatever the scheduler and the network do. */
  lemma {:induction false} InternalRunsEnd(run: seq<State>, i: nat)
    requires |run| > 0 && Inv(run[0]) && i < |run|
    requires forall k :: 0 <= k < |run| - 1 ==> IsInternalStep(run[k], run[k + 1])
    ensures Inv(run[i]) && i + Budget(run[i]) <= Budget(run[0])
  {
    if i > 0 {
      var k := i - 1;
      InternalRunsEnd(run, k);
      assert IsInternalStep(run[k], run[k + 1]);
      InternalStepSpends(run[k], run[i]);
    }
  }
}
