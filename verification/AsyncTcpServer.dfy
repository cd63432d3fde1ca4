/**
 * The acceptor and the service of the plain asynchronous TCP server as objects. Each method does what the step system
 * of the servers' life does from the entry of that handler to its return, when no other thread takes a step between.
 */
module AsyncTcpServer {
  import opened Asio
  import Life = ServerLife

  // ----- a whole handler in the step system

  function Left(pc: Life.AcceptPc): nat {
    match pc
    case Entered(_) => 3
    case Starting(_) => 2
    case Loading => 1
    case _ => 0
  }

  function RunAccept(v: Life.State, t: nat, pc: Life.AcceptPc): Life.State
    requires t < |v.threads|
    decreases Left(pc)
  {
    var w := Life.AdvanceAccept(v, t, pc);
    if pc.Rearming? || pc.Closing? then w else RunAccept(w, t, w.threads[t].pc)
  }

  /** Where an accept handler leaves the servers' state. */
  lemma AcceptRuns(v: Life.State, t: nat, ok: bool)
    requires t < |v.threads| && v.accepts == 0
    ensures
      var w := RunAccept(v, t, Life.Entered(ok));
      && w.stopped == v.stopped && w.closed == (v.closed || v.stopped) && w.accepts == (if v.stopped then 0 else 1)
      && w.services
          == v.services + (if ok then [Life.Service(multiset{Life.ReadFirst}, 0, 0, Life.Io(Life.ReadFirst))] else [])
      && w.threads == v.threads[t := Life.Idle]
  {
    if ok {
      StartingRuns(Life.AdvanceAccept(v, t, Life.Entered(true)), t, |v.services|);
    } else {
      LoadingRuns(Life.AdvanceAccept(v, t, Life.Entered(false)), t);
    }
  }

  lemma StartingRuns(v: Life.State, t: nat, s: nat)
    requires t < |v.threads| && s < |v.services| && v.accepts == 0
        && v.services[s] == Life.Service(multiset{}, 0, 0, Life.Starter(t))
    ensures
      var w := RunAccept(v, t, Life.Starting(s));
      && w.stopped == v.stopped && w.closed == (v.closed || v.stopped) && w.accepts == (if v.stopped then 0 else 1)
      && w.services == v.services[s := Life.Service(multiset{Life.ReadFirst}, 0, 0, Life.Io(Life.ReadFirst))]
      && w.threads == v.threads[t := Life.Idle]
  {
    var w := Life.AdvanceAccept(v, t, Life.Starting(s));
    assert multiset{} + multiset{Life.ReadFirst} == multiset{Life.ReadFirst};
    assert w.services[s] == Life.Service(multiset{Life.ReadFirst}, 0, 0, Life.Io(Life.ReadFirst));
    LoadingRuns(w, t);
  }

  lemma LoadingRuns(v: Life.State, t: nat)
    requires t < |v.threads| && v.accepts == 0
    ensures
      var w := RunAccept(v, t, Life.Loading);
      && w.stopped == v.stopped && w.closed == (v.closed || v.stopped) && w.accepts == (if v.stopped then 0 else 1)
      && w.services == v.services && w.threads == v.threads[t := Life.Idle]
  {
    var w := Life.AdvanceAccept(v, t, Life.Loading);
    assert RunAccept(v, t, Life.Loading) == Life.AdvanceAccept(w, t, w.threads[t].pc);
  }

  // ----- the objects

  class Service {
    var response: string
    ghost var outstanding: multiset<Life.Operation>
    ghost var responses: nat
    ghost var deletions: nat

    constructor ()
      ensures response == "" && outstanding == multiset{} && responses == 0 && deletions == 0
    {
      response := "";
      outstanding, responses, deletions := multiset{}, 0, 0;
    }

    ghost predicate Shows(x: Life.Service)
      reads this
    {
      x.outstanding == outstanding && x.responses == responses && x.deletions == deletions
    }

    method StartHandling()
      modifies this`outstanding
      ensures outstanding == old(outstanding) + multiset{Life.ReadFirst}
    {
      outstanding := outstanding + multiset{Life.ReadFirst};
    }

    method OnFinish()
      modifies this`deletions
      ensures deletions == old(deletions) + 1
    {
      deletions := deletions + 1;
    }

    method OnRequestReceived(ec: ErrorCode, ghost x: Life.Service) returns (ghost verdict: Life.Verdict)
      requires Shows(x)
      modifies this
      ensures Life.Possible(Life.TcpServer, Life.ReadFirst, verdict) && Shows(Life.AfterVerdict(x, verdict))
      ensures verdict == if ec == Success then Life.Respond else Life.Quit
      ensures ec == Success ==>
                && response == "Response\n" && responses == old(responses) + 1 && deletions == old(deletions)
                && outstanding == old(outstanding) + multiset{Life.WriteResponse}
      ensures ec != Success ==>
                && response == old(response) && responses == old(responses) && deletions == old(deletions) + 1
                && outstanding == old(outstanding)
    {
      if ec != Success {
        OnFinish();
        return Life.Quit;
      }
      response := "Response\n";
      responses := responses + 1;
      outstanding := outstanding + multiset{Life.WriteResponse};
      return Life.Respond;
    }

    method OnResponseSent(ec: ErrorCode, ghost x: Life.Service)
      requires Shows(x)
      modifies this
      ensures Life.Possible(Life.TcpServer, Life.WriteResponse, Life.Quit) && Shows(Life.AfterVerdict(x, Life.Quit))
      ensures deletions == old(deletions) + 1 && responses == old(responses) && outstanding == old(outstanding)
    {
      OnFinish();
    }
  }

  class Acceptor {
    var isStopped: bool
    var open: bool
    ghost var accepts: nat

    constructor ()
      ensures !isStopped && open && accepts == 1
    {
      isStopped, open, accepts := false, true, 0;
      new;
      InitAccept();
    }

    ghost predicate Shows(v: Life.State)
      reads this
    {
      v.stopped == isStopped && v.closed == !open && v.accepts == accepts
    }

    method Stop()
      modifies this`isStopped
      ensures isStopped
    {
      isStopped := true;
    }

    method InitAccept()
      modifies this`accepts
      ensures accepts == old(accepts) + 1
    {
      accepts := accepts + 1;
    }

    /** `onAccept`: what the acceptor and the new service, if there is one, look like afterwards. */
    method OnAccept(ec: ErrorCode, ghost v: Life.State, ghost t: nat) returns (service: Service?)
      requires t < |v.threads| && Shows(v) && accepts == 0
      modifies this
      ensures
        var w := RunAccept(v, t, Life.Entered(ec == Success));
        && Shows(w)
        && (service != null <==> ec == Success)
        && (service != null ==>
              fresh(service) && |w.services| == |v.services| + 1 && service.Shows(w.services[|v.services|]))
        && (service == null ==> w.services == v.services)
      ensures service != null ==>
                service.outstanding == multiset{Life.ReadFirst} && service.responses == 0 && service.deletions == 0
      ensures isStopped == old(isStopped) && open == (old(open) && !isStopped) && accepts == if isStopped then 0 else 1
    {
      AcceptRuns(v, t, ec == Success);
      service := null;
      if ec == Success {
        service := new Service();
        service.StartHandling();
      }
      if !isStopped {
        InitAccept();
      } else {
        open := false;
      }
    }
  }
}
