/** How the asynchronous servers come to rest: between new connections and calls of `Stop` only so much can happen. */
module ServerLifeDrain {
  import opened ServerLife
  import opened Sums

  /** Steps of the io_service and the handlers, as opposed to a new connection and a call of `Stop`. */
  predicate IsInternal(a: Action) {
    a.Complete? || a.Advance?
  }

  function OperationRank(op: Operation): nat {
    match op
    case ReadFirst => 6
    case ReadSecond => 4
    case WriteResponse => 2
  }

  function ThreadRank(th: Thread): nat {
    match th
    case Accepting(Entered(ok)) => if ok then 10 else 3
    case Accepting(Starting(_)) => 9
    case Accepting(Loading) => 2
    case Accepting(_) => 1
    case Serving(_, op, _) => OperationRank(op) - 1
    case _ => 0
  }

  function ServiceRank(x: Service): nat {
    match x.keeper
    case Io(op) => OperationRank(op)
    case _ => 0
  }

  function ThreadRanks(v: State): seq<nat> {
    seq(|v.threads|, t requires 0 <= t < |v.threads| => ThreadRank(v.threads[t]))
  }

  function ServiceRanks(v: State): seq<nat> {
    seq(|v.services|, s requires 0 <= s < |v.services| => ServiceRank(v.services[s]))
  }

  /** A bound on the internal steps that can still be taken. */
  function Budget(v: State): nat {
    Sum(ThreadRanks(v)) + Sum(ServiceRanks(v))
  }

  lemma ThreadMoves(v: State, w: State, t: nat, th: Thread)
    requires t < |v.threads| && w.threads == v.threads[t := th]
    ensures Sum(ThreadRanks(w)) == Sum(ThreadRanks(v)) - ThreadRank(v.threads[t]) + ThreadRank(th)
  {
    assert ThreadRanks(w) == ThreadRanks(v)[t := ThreadRank(th)];
    SumUpdate(ThreadRanks(v), t, ThreadRank(th));
  }

  lemma ServiceMoves(v: State, w: State, s: nat, x: Service)
    requires s < |v.services| && w.services == v.services[s := x]
    ensures Sum(ServiceRanks(w)) == Sum(ServiceRanks(v)) - ServiceRank(v.services[s]) + ServiceRank(x)
  {
    assert ServiceRanks(w) == ServiceRanks(v)[s := ServiceRank(x)];
    SumUpdate(ServiceRanks(v), s, ServiceRank(x));
  }

  lemma ServiceComes(v: State, w: State, x: Service)
    requires w.services == v.services + [x]
    ensures Sum(ServiceRanks(w)) == Sum(ServiceRanks(v)) + ServiceRank(x)
  {
    assert ServiceRanks(w) == ServiceRanks(v) + [ServiceRank(x)];
    SumAppend(ServiceRanks(v), ServiceRank(x));
  }

  lemma CompleteSpends(kind: Kind, v: State, t: nat, s: nat, op: Operation, verdict: Verdict)
    requires Inv(kind, v) && Enabled(kind, v, Complete(t, s, op, verdict))
    ensures Budget(Next(kind, v, Complete(t, s, op, verdict))) < Budget(v)
  {
    var w := Next(kind, v, Complete(t, s, op, verdict));
    assert ServiceOk(kind, v, s);
    ThreadMoves(v, w, t, Serving(s, op, verdict));
    ServiceMoves(v, w, s, Taken(v.services[s], t, op));
  }

  lemma HandlerSpends(kind: Kind, v: State, t: nat)
    requires Inv(kind, v) && t < |v.threads| && v.threads[t].Serving?
    ensures Budget(Next(kind, v, Advance(t))) < Budget(v)
  {
    var w, s := Next(kind, v, Advance(t)), v.threads[t].s;
    assert ThreadOk(v, t) && ServiceOk(kind, v, s);
    ThreadMoves(v, w, t, Idle);
    ServiceMoves(v, w, s, AfterVerdict(v.services[s], v.threads[t].verdict));
  }

  lemma AcceptSpends(kind: Kind, v: State, t: nat)
    requires Inv(kind, v) && t < |v.threads| && v.threads[t].Accepting?
    ensures Budget(Next(kind, v, Advance(t))) < Budget(v)
  {
    var w, pc := Next(kind, v, Advance(t)), v.threads[t].pc;
    assert ThreadOk(v, t);
    ThreadMoves(v, w, t, w.threads[t]);
    if pc == Entered(true) {
      ServiceComes(v, w, Service(multiset{}, 0, 0, Starter(t)));
    } else if pc.Starting? {
      ServiceMoves(v, w, pc.s, Started(v.services[pc.s], ReadFirst));
    } else {
      assert ServiceRanks(w) == ServiceRanks(v);
    }
  }

  ghost predicate IsInternalStep(kind: Kind, v: State, w: State) {
    exists a :: IsInternal(a) && Enabled(kind, v, a) && w == Next(kind, v, a)
  }

  lemma InternalStepSpends(kind: Kind, v: State, w: State)
    requires Inv(kind, v) && IsInternalStep(kind, v, w)
    ensures Inv(kind, w) && Budget(w) < Budget(v)
  {
    var a :| IsInternal(a) && Enabled(kind, v, a) && w == Next(kind, v, a);
    NextKeeps(kind, v, a);
    if a.Complete? {
      CompleteSpends(kind, v, a.t, a.s, a.op, a.verdict);
    } else if v.threads[a.t].Serving? {
      HandlerSpends(kind, v, a.t);
    } else {
      AcceptSpends(kind, v, a.t);
    }
  }

  /** Without new connections only boundedly many more steps are possible, whatever the scheduler and the network do. */
  lemma {:induction false} InternalRunsEnd(kind: Kind, run: seq<State>, i: nat)
    requires |run| > 0 && Inv(kind, run[0]) && i < |run|
    requires forall k :: 0 <= k < |run| - 1 ==> IsInternalStep(kind, run[k], run[k + 1])
    ensures Inv(kind, run[i]) && i + Budget(run[i]) <= Budget(run[0])
  {
    if i > 0 {
      var k := i - 1;
      InternalRunsEnd(kind, run, k);
      assert IsInternalStep(kind, run[k], run[k + 1]);
      InternalStepSpends(kind, run[k], run[i]);
    }
  }

  /** Where they end, and there is a worker `w`, every service has been deleted, exactly once. */
  lemma {:induction false} StuckMeansDeleted(kind: Kind, run: seq<State>, i: nat, s: nat, w: nat)
    requires IsRun(kind, run) && Init(run[0]) && i < |run| && s < |run[i].services|
    requires w < |run[i].threads| && run[i].threads[w] != UserCode
    requires forall a :: IsInternal(a) ==> !Enabled(kind, run[i], a)
    ensures run[i].services[s].deletions == 1 && run[i].services[s].outstanding == multiset{}
  {
    var v := run[i];
    RunInv(kind, run, i);
    assert ServiceOk(kind, v, s);
    NobodyServes(kind, v, w);
    match v.services[s].keeper
    case Starter(t) => NobodyServes(kind, v, t);
    case Handler(t) => NobodyServes(kind, v, t);
    case Io(op) => NothingToComplete(kind, v, w, s, op);
    case Gone =>
  }

  lemma NobodyServes(kind: Kind, v: State, t: nat)
    requires t < |v.threads| && forall a :: IsInternal(a) ==> !Enabled(kind, v, a)
    ensures !v.threads[t].Accepting? && !v.threads[t].Serving?
  {
    assert !Enabled(kind, v, Advance(t));
  }

  lemma NothingToComplete(kind: Kind, v: State, w: nat, s: nat, op: Operation)
    requires w < |v.threads| && v.threads[w] == Idle && s < |v.services|
    requires forall a :: IsInternal(a) ==> !Enabled(kind, v, a)
    ensures op !in v.services[s].outstanding
  {
    assert !Enabled(kind, v, Complete(w, s, op, Quit));
  }
}
