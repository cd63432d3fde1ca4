/** Programs that never cancel one id twice never deadlock, whatever they submit and whatever the scheduler does. */
module TcpClientOnce {
  import opened TcpClient
  import opened TcpClientInvariant
  import opened TcpClientHistory
  import opened TcpClientDeadlock

  /** A run together with the actions that make it. */
  ghost predicate IsTrace(run: seq<State>, actions: seq<Action>) {
    && |run| == |actions| + 1
    && forall i :: 0 <= i < |actions| ==> Enabled(run[i], actions[i]) && run[i + 1] == Next(run[i], actions[i])
  }

  predicate Cancels(a: Action, id: int) {
    a.BeginCancel? && a.id == id
  }

  /** No id is passed to `cancelRequest` twice. */
  predicate CancelledOnce(actions: seq<Action>) {
    forall i, j | 0 <= i < j < |actions| :: actions[i].BeginCancel? ==> !Cancels(actions[j], actions[i].id)
  }

  predicate Passed(actions: seq<Action>, id: int) {
    exists i | 0 <= i < |actions| :: Cancels(actions[i], id)
  }

  // ----- what one call of cancelRequest per id can find

  /** The thread is in a `cancelRequest` for the id that has not looked it up yet. */
  predicate BeforeLookup(th: Thread, id: int) {
    th.call.Cancel? && th.call.id == id && (th.call.cpc.Approaching? || th.call.cpc.Searching?)
  }

  ghost predicate ToCome(v: State, id: int) {
    exists t: nat :: t < |v.threads| && BeforeLookup(v.threads[t], id)
  }

  ghost predicate NoneFound(v: State, id: int) {
    forall s: nat :: s < |v.sessions| && v.sessions[s].id == id ==> v.sessions[s].found == 0
  }

  ghost predicate FoundAtMostOnce(v: State, id: int) {
    forall s: nat :: s < |v.sessions| && v.sessions[s].id == id ==> v.sessions[s].found <= 1
  }

  ghost predicate AtMostOneToCome(v: State, id: int) {
    forall t: nat, u: nat | t < |v.threads| && u < |v.threads| ::
      BeforeLookup(v.threads[t], id) && BeforeLookup(v.threads[u], id) ==> t == u
  }

  /** Per id: nothing found while its only lookup is to come, and at most one finding of each session after that. */
  ghost predicate IdOk(v: State, id: int, passed: bool) {
    && (!passed ==> !ToCome(v, id))
    && (!passed || ToCome(v, id) ==> NoneFound(v, id))
    && AtMostOneToCome(v, id)
    && FoundAtMostOnce(v, id)
  }

  /** The step is a lookup of the id that finds session `s`. */
  predicate Finds(v: State, a: Action, s: nat) {
    && a.Advance? && a.t < |v.threads| && v.threads[a.t].call.Cancel? && v.threads[a.t].call.cpc.Searching?
    && v.threads[a.t].call.id in v.table && v.table[v.threads[a.t].call.id] == s
  }

  lemma CancelFinds(v: State, t: nat, th: Thread, ss: Session)
    requires th.call.Cancel?
    ensures
      var e := CancelEffect(v, t, th, ss);
      e.ss.found == if th.call.cpc.Searching? && th.call.id in v.table then ss.found + 1 else ss.found
  {
  }

  lemma FoundChanges(v: State, a: Action, s: nat)
    requires Inv(v) && Enabled(v, a) && s < |v.sessions|
    ensures s < |Next(v, a).sessions| && Next(v, a).sessions[s].id == v.sessions[s].id
    ensures Next(v, a).sessions[s].found == if Finds(v, a, s) then v.sessions[s].found + 1 else v.sessions[s].found
  {
    NextMoves(v, a, if a.StopService? then 0 else a.t);
    if a.Advance? || a.Return? {
      var th := v.threads[a.t];
      assert ThreadOk(v, a.t);
      if Focus(v, th) == s {
        if th.call.Cancel? {
          CancelFinds(v, a.t, th, v.sessions[s]);
        } else {
          OnlyLookupsMark(v, a.t, th, v.sessions[s]);
        }
      }
    }
  }

  lemma NewSessionsUnfound(v: State, a: Action, s: nat)
    requires Enabled(v, a) && |v.sessions| <= s < |Next(v, a).sessions|
    ensures Next(v, a).sessions[s].found == 0
  {
  }

  /** A lookup comes nearer only by a call, and is over once it has been made. */
  lemma LookupsChange(v: State, a: Action, t: nat, id: int)
    requires Enabled(v, a) && t < |v.threads|
    ensures t < |Next(v, a).threads|
    ensures BeforeLookup(Next(v, a).threads[t], id) ==>
              || (Cancels(a, id) && a.t == t)
              || (BeforeLookup(v.threads[t], id) && !(a == Advance(t) && v.threads[t].call.cpc.Searching?))
  {
    NextMoves(v, a, if a.StopService? then |v.threads| else a.t);
    if (a.Advance? || a.Return?) && a.t == t {
      EffectOnLookup(v, t, v.threads[t], SessionAt(v, Focus(v, v.threads[t])), id);
    }
  }

  lemma EffectOnLookup(v: State, t: nat, th: Thread, ss: Session, id: int)
    requires th.call.Submit? || th.call.Cancel? || th.base.Handler?
    ensures
      var e := if th.call.Submit? then SubmitEffect(v, t, th, ss)
               else if th.call.Cancel? then CancelEffect(v, t, th, ss) else HandlerEffect(v, t, th, ss);
      BeforeLookup(e.th, id) ==> BeforeLookup(th, id) && (th.call.Cancel? ==> !th.call.cpc.Searching?)
  {
  }

  /** A lookup that finds a session of this id was to come. */
  lemma FinderWasToCome(v: State, a: Action, s: nat)
    requires Inv(v) && Finds(v, a, s)
    ensures s < |v.sessions| && v.sessions[s].id == v.threads[a.t].call.id
    ensures BeforeLookup(v.threads[a.t], v.sessions[s].id) && ToCome(v, v.sessions[s].id)
  {
  }

  lemma StaysAbsent(v: State, a: Action, id: int)
    requires Enabled(v, a) && !ToCome(v, id) && !Cancels(a, id)
    ensures !ToCome(Next(v, a), id)
  {
    var w := Next(v, a);
    NextMoves(v, a, if a.StopService? then 0 else a.t);
    forall t: nat | t < |w.threads| ensures !BeforeLookup(w.threads[t], id) { LookupsChange(v, a, t, id); }
  }

  lemma StaysAtMostOne(v: State, a: Action, id: int)
    requires Enabled(v, a) && AtMostOneToCome(v, id) && (Cancels(a, id) ==> !ToCome(v, id))
    ensures AtMostOneToCome(Next(v, a), id)
  {
    var w := Next(v, a);
    NextMoves(v, a, if a.StopService? then 0 else a.t);
    forall t: nat, u: nat | t < |w.threads| && u < |w.threads| && BeforeLookup(w.threads[t], id)
                            && BeforeLookup(w.threads[u], id)
      ensures t == u
    {
      LookupsChange(v, a, t, id);
      LookupsChange(v, a, u, id);
    }
  }

  lemma StaysFoundAtMostOnce(v: State, a: Action, id: int)
    requires Inv(v) && Enabled(v, a) && FoundAtMostOnce(v, id) && (ToCome(v, id) ==> NoneFound(v, id))
    ensures FoundAtMostOnce(Next(v, a), id)
  {
    var w := Next(v, a);
    forall s: nat | s < |w.sessions| && w.sessions[s].id == id ensures w.sessions[s].found <= 1 {
      if s < |v.sessions| {
        FoundChanges(v, a, s);
        if Finds(v, a, s) { FinderWasToCome(v, a, s); }
      } else {
        NewSessionsUnfound(v, a, s);
      }
    }
  }

  /** If a step finds a session of the id, no lookup of that id is to come any more. */
  lemma FindingIsTheLast(v: State, a: Action, s: nat)
    requires Inv(v) && Enabled(v, a) && Finds(v, a, s) && s < |v.sessions| && AtMostOneToCome(v, v.sessions[s].id)
    ensures !ToCome(Next(v, a), v.sessions[s].id)
  {
    var w, id := Next(v, a), v.sessions[s].id;
    FinderWasToCome(v, a, s);
    NextMoves(v, a, a.t);
    forall t: nat | t < |w.threads| ensures !BeforeLookup(w.threads[t], id) { LookupsChange(v, a, t, id); }
  }

  lemma StaysUnfound(v: State, a: Action, id: int)
    requires Inv(v) && Enabled(v, a) && NoneFound(v, id) && AtMostOneToCome(v, id)
    requires ToCome(Next(v, a), id) || !ToCome(v, id)
    ensures NoneFound(Next(v, a), id)
  {
    var w := Next(v, a);
    forall s: nat | s < |w.sessions| && w.sessions[s].id == id ensures w.sessions[s].found == 0 {
      if s < |v.sessions| {
        FoundChanges(v, a, s);
        if Finds(v, a, s) {
          FinderWasToCome(v, a, s);
          FindingIsTheLast(v, a, s);
        }
      } else {
        NewSessionsUnfound(v, a, s);
      }
    }
  }

  lemma NextKeepsIdOk(v: State, a: Action, id: int, passed: bool)
    requires Inv(v) && Enabled(v, a) && IdOk(v, id, passed) && (Cancels(a, id) ==> !passed)
    ensures IdOk(Next(v, a), id, passed || Cancels(a, id))
  {
    if !ToCome(v, id) && !Cancels(a, id) { StaysAbsent(v, a, id); }
    StaysAtMostOne(v, a, id);
    StaysFoundAtMostOnce(v, a, id);
    if NoneFound(v, id) && (ToCome(Next(v, a), id) || !ToCome(v, id)) { StaysUnfound(v, a, id); }
  }

  // ----- whole runs

  lemma TraceIsRun(run: seq<State>, actions: seq<Action>)
    requires IsTrace(run, actions)
    ensures IsRun(run)
  {
    forall i | 0 <= i < |run| - 1 ensures IsStep(run[i], run[i + 1]) { assert Enabled(run[i], actions[i]); }
  }

  lemma {:induction false} TraceIdOk(run: seq<State>, actions: seq<Action>, i: nat, id: int)
    requires IsTrace(run, actions) && Init(run[0]) && i < |run| && CancelledOnce(actions)
    ensures IdOk(run[i], id, Passed(actions[..i], id))
  {
    if i > 0 {
      var k := i - 1;
      TraceIdOk(run, actions, k, id);
      TraceIsRun(run, actions);
      RunInv(run, k);
      assert Enabled(run[k], actions[k]) && run[k + 1] == Next(run[k], actions[k]);
      PassedGrows(actions, k, id);
      NextKeepsIdOk(run[k], actions[k], id, Passed(actions[..k], id));
    }
  }

  lemma PassedGrows(actions: seq<Action>, k: nat, id: int)
    requires k < |actions| && CancelledOnce(actions)
    ensures Passed(actions[..k + 1], id) <==> Passed(actions[..k], id) || Cancels(actions[k], id)
    ensures Cancels(actions[k], id) ==> !Passed(actions[..k], id)
  {
    assert forall i | 0 <= i < k :: actions[..k][i] == actions[i] == actions[..k + 1][i];
    assert actions[..k + 1][k] == actions[k];
  }

  /**
   * A run in which no id is passed to `cancelRequest` twice never has a wait cycle, whatever ids are submitted, also
   * the same ones again.
   */
  lemma {:induction false} CancelledOnceNeverDeadlocks(run: seq<State>, actions: seq<Action>, i: nat, ts: seq<nat>)
    requires IsTrace(run, actions) && Init(run[0]) && i < |run| && CancelledOnce(actions)
    ensures !IsWaitCycle(run[i], ts)
  {
    TraceIsRun(run, actions);
    forall s | 0 <= s < |run[i].sessions| ensures run[i].sessions[s].found <= 1 {
      TraceIdOk(run, actions, i, run[i].sessions[s].id);
    }
    FoundOnceNeverDeadlocks(run, i, ts);
  }
}
