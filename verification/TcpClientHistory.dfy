/** What a step leaves alone and what it can only add to. */
module TcpClientHistory {
  import opened TcpClient
  import opened TcpClientInvariant

  /** What has happened to a session is not taken back. */
  predicate Grows(ss: Session, ss': Session) {
    && ss'.id == ss.id
    && ss.found <= ss'.found
    && (ss.cancelled ==> ss'.cancelled)
    && (ss.erased ==> ss'.erased)
  }

  /** Only thread `t` moves, and sessions only grow. */
  ghost predicate MovesOnly(v: State, w: State, t: nat) {
    && |v.threads| == |w.threads| && |v.sessions| <= |w.sessions|
    && (forall u | 0 <= u < |v.threads| && u != t :: w.threads[u] == v.threads[u])
    && (forall s | 0 <= s < |v.sessions| :: Grows(v.sessions[s], w.sessions[s]))
  }

  lemma GrowsTransitive(a: Session, b: Session, c: Session)
    requires Grows(a, b) && Grows(b, c)
    ensures Grows(a, c)
  {
  }

  lemma HandlerGrows(v: State, t: nat, th: Thread, ss: Session)
    requires th.base.Handler?
    ensures Grows(ss, HandlerEffect(v, t, th, ss).ss)
  {
  }

  lemma CallGrows(v: State, t: nat, th: Thread, ss: Session)
    requires th.call.Submit? || th.call.Cancel?
    ensures Grows(ss, if th.call.Submit? then SubmitEffect(v, t, th, ss).ss else CancelEffect(v, t, th, ss).ss)
  {
  }

  lemma {:induction false} NextMoves(v: State, a: Action, t: nat)
    requires Enabled(v, a) && (a.StopService? || a.t == t)
    ensures MovesOnly(v, Next(v, a), t)
  {
    if a.Advance? || a.Return? {
      var th, ss := v.threads[t], SessionAt(v, Focus(v, v.threads[t]));
      if th.call.NoCall? { HandlerGrows(v, t, th, ss); } else { CallGrows(v, t, th, ss); }
    }
  }

  lemma StepMoves(v: State, w: State) returns (t: nat)
    requires IsStep(v, w)
    ensures MovesOnly(v, w, t)
  {
    var a :| Enabled(v, a) && w == Next(v, a);
    t := if a.StopService? then 0 else a.t;
    NextMoves(v, a, t);
  }

  lemma {:induction false} StepGrows(v: State, w: State, s: nat)
    requires IsStep(v, w) && s < |v.sessions|
    ensures s < |w.sessions| && Grows(v.sessions[s], w.sessions[s])
  {
    var t := StepMoves(v, w);
  }

  /** Along a run, what is recorded of a session only grows. */
  lemma {:induction false} RunGrows(run: seq<State>, i: nat, j: nat, s: nat)
    requires IsRun(run) && i <= j < |run| && s < |run[i].sessions|
    ensures s < |run[j].sessions| && Grows(run[i].sessions[s], run[j].sessions[s])
  {
    if i < j {
      var k := j - 1;
      RunGrows(run, i, k, s);
      assert IsStep(run[k], run[k + 1]);
      StepGrows(run[k], run[j], s);
      GrowsTransitive(run[i].sessions[s], run[k].sessions[s], run[j].sessions[s]);
    }
  }

  /** Once a session has passed its erase step no lookup returns it, and its cancel flag stays what it is. */
  lemma ErasedIsFinal(v: State, w: State, s: nat)
    requires Inv(v) && IsStep(v, w) && s < |v.sessions| && v.sessions[s].erased
    ensures s < |w.sessions| && w.sessions[s].found == v.sessions[s].found
        && w.sessions[s].cancelled == v.sessions[s].cancelled
  {
    var a :| Enabled(v, a) && w == Next(v, a);
    if (a.Advance? || a.Return?) && Focus(v, v.threads[a.t]) == s { EffectOnErased(v, a.t); }
  }

  lemma EffectOnErased(v: State, t: nat)
    requires Inv(v) && t < |v.threads| && (CanAdvance(v, t) || (CanCall(v, t) && v.threads[t].base.Handler?))
    requires Focus(v, v.threads[t]) < |v.sessions| && v.sessions[Focus(v, v.threads[t])].erased
    ensures
      var ss, ss' := v.sessions[Focus(v, v.threads[t])], ThreadEffect(v, t).ss;
      ss'.found == ss.found && ss'.cancelled == ss.cancelled
  {
    assert ThreadOk(v, t);
    if !v.threads[t].call.Cancel? { OnlyLookupsMark(v, t, v.threads[t], v.sessions[Focus(v, v.threads[t])]); }
  }

  lemma {:induction false} RunErasedIsFinal(run: seq<State>, i: nat, j: nat, s: nat)
    requires IsRun(run) && Inv(run[0]) && i <= j < |run| && s < |run[i].sessions| && run[i].sessions[s].erased
    ensures s < |run[j].sessions| && run[j].sessions[s].erased
    ensures run[j].sessions[s].found == run[i].sessions[s].found
    ensures run[j].sessions[s].cancelled == run[i].sessions[s].cancelled
  {
    if i < j {
      var k := j - 1;
      RunErasedIsFinal(run, i, k, s);
      RunInv(run, k);
      assert IsStep(run[k], run[k + 1]);
      StepGrows(run[k], run[j], s);
      ErasedIsFinal(run[k], run[j], s);
    }
  }
}
