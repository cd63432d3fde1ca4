/** What holds of the acceptor and the services of the asynchronous servers, in every run. */
module ServerLifeProperties {
  import opened ServerLife
  import Runs

  // ----- the acceptor

  /**
   * At most one accept is outstanding, none is started after the acceptor was closed, it is closed only after `Stop`,
   * every successful accept whose handler has got past its first branch has become a service, and at most one service
   * is created after `Stop` has stored its flag.
   */
  lemma {:induction false} AcceptorProtocol(kind: Kind, run: seq<State>, i: nat)
    requires IsRun(kind, run) && Init(run[0]) && i < |run|
    ensures run[i].accepts <= 1 && (run[i].closed ==> run[i].accepts == 0 && run[i].stopped)
    ensures run[i].armedAfterClose == 0
    ensures run[i].createdAfterStop <= 1
    ensures |run[i].services| == run[i].accepted <= run[i].succeeded <= run[i].accepted + 1
    ensures (forall t :: 0 <= t < |run[i].threads| ==> run[i].threads[t] != Accepting(Entered(true))) ==>
              |run[i].services| == run[i].succeeded
  {
    RunInv(kind, run, i);
  }

  ghost function StepsOf(kind: Kind): (State, State) -> bool {
    (v, w) => IsStep(kind, v, w)
  }

  /** `w` can be reached from `v`. */
  ghost predicate Leads(kind: Kind, v: State, w: State) {
    Runs.Leads(StepsOf(kind), v, w)
  }

  lemma StaysLeads(kind: Kind, v: State)
    ensures Leads(kind, v, v)
  {
    Runs.StaysLeads(StepsOf(kind), v);
  }

  lemma Advanced(kind: Kind, v: State, w: State, a: Action) returns (z: State)
    requires Leads(kind, v, w) && Enabled(kind, w, a)
    ensures Leads(kind, v, z) && z == Next(kind, w, a)
  {
    z := Next(kind, w, a);
    assert IsStep(kind, w, z);
    Runs.StepLeads(StepsOf(kind), v, w, z);
  }

  /** One worker (0) and one user thread (1). */
  function Start(): State {
    State([Idle, UserCode], [], false, false, 1, Armed, 0, 0, 0, 0)
  }

  /** The bound on services created after `Stop` is reached: the flag is stored while an accept is being handled. */
  lemma {:induction false} OneServiceAfterStop(kind: Kind) returns (z: State)
    ensures Init(Start()) && Leads(kind, Start(), z) && z.createdAfterStop == 1
  {
    StaysLeads(kind, Start());
    z := Advanced(kind, Start(), Start(), Accept(0, true));
    z := Advanced(kind, Start(), z, Stop(1));
    z := Advanced(kind, Start(), z, Advance(0));
  }

  // ----- the services

  /**
   * A service is deleted at most once. While it is alive it has exactly one outstanding operation, or exactly one
   * thread works on it; once it is deleted it has neither. It starts at most one response.
   */
  lemma {:induction false} ServiceOwnership(kind: Kind, run: seq<State>, i: nat, s: nat)
    requires IsRun(kind, run) && Init(run[0]) && i < |run| && s < |run[i].services|
    ensures
      var v, x := run[i], run[i].services[s];
      && x.deletions <= 1 && x.responses <= 1 && |x.outstanding| <= 1
      && (forall t :: 0 <= t < |v.threads| && WorksOn(v.threads[t], s) ==> x.deletions == 0 && |x.outstanding| == 0)
      && (forall t, u | 0 <= t < |v.threads| && 0 <= u < |v.threads| ::
            WorksOn(v.threads[t], s) && WorksOn(v.threads[u], s) ==> t == u)
      && (x.deletions == 0 && |x.outstanding| == 0 ==> exists t :: 0 <= t < |v.threads| && WorksOn(v.threads[t], s))
      && (x.deletions == 1 ==> |x.outstanding| == 0)
  {
    var v := run[i];
    RunInv(kind, run, i);
    assert ServiceOk(kind, v, s);
    forall t | 0 <= t < |v.threads| && WorksOn(v.threads[t], s)
      ensures v.services[s].keeper == Starter(t) || v.services[s].keeper == Handler(t)
    {
      assert ThreadOk(v, t);
    }
    match v.services[s].keeper
    case Starter(t) => assert WorksOn(v.threads[t], s);
    case Handler(t) => assert WorksOn(v.threads[t], s);
    case _ =>
  }

  predicate WorksOn(th: Thread, s: nat) {
    (th.Serving? && th.s == s) || th == Accepting(Starting(s))
  }

  /** A worker runs the whole handler of a completed operation: what that does to the service, and to nothing else. */
  lemma {:induction false} Served(kind: Kind, u: State, v: State, t: nat, s: nat, op: Operation, verdict: Verdict)
    returns (w: State)
    requires Leads(kind, u, v) && t < |v.threads| && v.threads[t] == Idle
    requires s < |v.services| && op in v.services[s].outstanding && Possible(kind, op, verdict)
    ensures Leads(kind, u, w)
    ensures w == v.(services := v.services[s := AfterVerdict(Taken(v.services[s], t, op), verdict)])
  {
    w := Advanced(kind, u, v, Complete(t, s, op, verdict));
    w := Advanced(kind, u, w, Advance(t));
    assert w.threads == v.threads;
  }

  /** Where no thread is inside a handler and no service has an outstanding operation, every service is deleted. */
  lemma {:induction false} DrainedMeansDeleted(kind: Kind, run: seq<State>, i: nat, s: nat)
    requires IsRun(kind, run) && Init(run[0]) && i < |run| && s < |run[i].services|
    requires forall t :: 0 <= t < |run[i].threads| ==> run[i].threads[t] == Idle || run[i].threads[t] == UserCode
    requires forall r :: 0 <= r < |run[i].services| ==> run[i].services[r].outstanding == multiset{}
    ensures run[i].services[s].deletions == 1
  {
    RunInv(kind, run, i);
    assert ServiceOk(kind, run[i], s);
  }
}
