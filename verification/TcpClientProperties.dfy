/** What callers of the asynchronous TCP client can rely on, in every run. */
module TcpClientProperties {
  import opened Asio
  import opened TcpClient
  import opened TcpClientInvariant
  import opened TcpClientHistory

  // ----- the callback: once, with the right result, and never a success after a lookup

  /** Connect, write and read each completed once, in this order, without an error. */
  predicate AllSucceeded(history: seq<Completion>) {
    && |history| == 3
    && history[0].op == Connect && history[1].op == Write && history[2].op == Read
    && forall i | 0 <= i < 3 :: history[i].ec == Success
  }

  /**
   * The callback runs at most once. It reports success exactly when all three operations succeeded and no
   * `cancelRequest` ever found the session, and then its response is the line that was read. A failed operation
   * is reported as its own error, and a cancelled session whose operations all went well as an abort.
   */
  lemma Outcome(v: State, s: nat)
    requires Inv(v) && s < |v.sessions| && v.sessions[s].delivered != []
    ensures
      var ss := v.sessions[s];
      && |ss.delivered| == 1 && ss.delivered[0].id == ss.id && ss.completions != []
      && var d, last := ss.delivered[0], ss.completions[|ss.completions| - 1];
         && (d.ec == Success <==> ss.found == 0 && AllSucceeded(ss.completions))
         && (d.ec == Success ==> d.response == last.line)
         && (last.ec != Success ==> d.ec == last.ec)
         && (last.ec == Success && ss.found > 0 ==> d.ec == OperationAborted)
  {
    FoundMeansCancelled(v, s);
  }

  lemma FoundMeansCancelled(v: State, s: nat)
    requires Inv(v) && s < |v.sessions| && v.sessions[s].delivered != []
    ensures v.sessions[s].erased && (v.sessions[s].cancelled <==> v.sessions[s].found > 0)
    ensures SessionOk(v, s)
  {
    assert SessionsOk(v, s);
    if v.tableOwner.Some? { assert ThreadOk(v, v.tableOwner.value); }
  }

  /** If some lookup finds the session at any time in a run, no callback at any time in it reports success. */
  lemma CancelNeverLost(run: seq<State>, i: nat, j: nat, s: nat)
    requires IsRun(run) && Init(run[0]) && i < |run| && j < |run|
    requires s < |run[i].sessions| && run[i].sessions[s].found > 0
    requires s < |run[j].sessions| && run[j].sessions[s].delivered != []
    ensures |run[j].sessions[s].delivered| == 1 && run[j].sessions[s].delivered[0].ec != Success
  {
    RunInv(run, 0);
    RunInv(run, j);
    Outcome(run[j], s);
    FoundMeansCancelled(run[j], s);
    if i <= j { RunGrows(run, i, j, s); } else { RunErasedIsFinal(run, j, i, s); }
  }

  // ----- the table

  ghost predicate Active(v: State, s: nat) {
    s < |v.sessions| && v.sessions[s].inserted && !v.sessions[s].erased
  }

  /** Sessions that are stored and not erased at the same time have different ids. */
  ghost predicate DistinctIds(v: State) {
    forall s: nat, r: nat :: Active(v, s) && Active(v, r) && s != r ==> v.sessions[s].id != v.sessions[r].id
  }

  /** The table maps exactly the ids of active sessions, each to its session. */
  ghost predicate TableExact(v: State) {
    && (forall s: nat :: Active(v, s) ==> v.sessions[s].id in v.table && v.table[v.sessions[s].id] == s)
    && (forall id :: id in v.table ==> Active(v, v.table[id]) && v.sessions[v.table[id]].id == id)
  }

  /** Whatever ids are reused, an entry never outlives the erase step of the session it refers to. */
  lemma TableValid(run: seq<State>, i: nat, id: int)
    requires IsRun(run) && Init(run[0]) && i < |run| && id in run[i].table
    ensures Active(run[i], run[i].table[id]) && run[i].sessions[run[i].table[id]].id == id
  {
    RunInv(run, i);
  }

  /** An effect leaves the table and the activity of its session alone, or it inserts or erases its session. */
  predicate TableEffect(v: State, s: nat, ss: Session, e: Effect) {
    && e.ss.id == ss.id
    && (|| (e.table == v.table && e.ss.inserted == ss.inserted && e.ss.erased == ss.erased)
        || (e.table == v.table[ss.id := s] && e.ss.inserted && !e.ss.erased && s < |v.sessions|)
        || (e.table == v.table - {ss.id} && e.ss.erased && s < |v.sessions| && ss.inserted && !ss.erased))
  }

  lemma HandlerOnTable(v: State, t: nat)
    requires Inv(v) && t < |v.threads| && v.threads[t].call.NoCall? && v.threads[t].base.Handler?
    ensures TableEffect(v, Focus(v, v.threads[t]), SessionAt(v, Focus(v, v.threads[t])), ThreadEffect(v, t))
  {
    assert ThreadOk(v, t) && SessionsOk(v, v.threads[t].base.s);
  }

  lemma CallOnTable(v: State, t: nat)
    requires Inv(v) && t < |v.threads| && (v.threads[t].call.Submit? || v.threads[t].call.Cancel?)
    ensures TableEffect(v, Focus(v, v.threads[t]), SessionAt(v, Focus(v, v.threads[t])), ThreadEffect(v, t))
  {
    assert ThreadOk(v, t);
    if v.threads[t].call.Submit? { assert SessionsOk(v, v.threads[t].call.s); }
  }

  lemma TableStaysExact(v: State, a: Action)
    requires Inv(v) && Enabled(v, a) && DistinctIds(v) && DistinctIds(Next(v, a)) && TableExact(v)
    ensures TableExact(Next(v, a))
  {
    if a.Advance? || a.Return? {
      if v.threads[a.t].call.NoCall? { HandlerOnTable(v, a.t); } else { CallOnTable(v, a.t); }
      TableStaysExactAt(v, Next(v, a), Focus(v, v.threads[a.t]));
    } else {
      QuietSteps(v, a);
    }
  }

  /** The other steps leave the table and all active sessions alone. */
  lemma QuietSteps(v: State, a: Action)
    requires Enabled(v, a) && !a.Advance? && !a.Return?
    ensures
      var w := Next(v, a);
      && w.table == v.table
      && forall s: nat :: (Active(w, s) <==> Active(v, s)) && (Active(v, s) ==> w.sessions[s].id == v.sessions[s].id)
  {
  }

  lemma TableStaysExactAt(v: State, w: State, s: nat)
    requires DistinctIds(v) && DistinctIds(w) && TableExact(v)
    requires |w.sessions| == |v.sessions|
    requires forall r: nat :: r < |v.sessions| && r != s ==> w.sessions[r] == v.sessions[r]
    requires
      var ss := SessionAt(v, s);
      && SessionAt(w, s).id == ss.id
      && (|| (w.table == v.table && SessionAt(w, s).inserted == ss.inserted && SessionAt(w, s).erased == ss.erased)
          || (w.table == v.table[ss.id := s] && Active(w, s))
          || (w.table == v.table - {ss.id} && SessionAt(w, s).erased && Active(v, s)))
    ensures TableExact(w)
  {
    assert forall r: nat :: r != s ==> Active(w, r) == Active(v, r);
  }

  /** When active ids are distinct throughout a run, the table is exactly the map of active sessions by id. */
  lemma {:induction false} TableExactInRun(run: seq<State>, i: nat)
    requires IsRun(run) && Init(run[0]) && i < |run|
    requires forall k :: 0 <= k <= i ==> DistinctIds(run[k])
    ensures TableExact(run[i])
  {
    if i > 0 {
      var k := i - 1;
      TableExactInRun(run, k);
      RunInv(run, k);
      assert IsStep(run[k], run[k + 1]);
      var a :| Enabled(run[k], a) && run[i] == Next(run[k], a);
      TableStaysExact(run[k], a);
    }
  }

  lemma ExactMeansDistinct(v: State)
    requires TableExact(v)
    ensures DistinctIds(v)
  {
  }

  /** The table is exact at every moment up to `i` exactly if active ids are distinct at every moment up to `i`. */
  lemma {:induction false} TableExactExactly(run: seq<State>, i: nat)
    requires IsRun(run) && Init(run[0]) && i < |run|
    ensures (forall k :: 0 <= k <= i ==> TableExact(run[k])) <==> (forall k :: 0 <= k <= i ==> DistinctIds(run[k]))
  {
    if forall k :: 0 <= k <= i ==> TableExact(run[k]) {
      forall k | 0 <= k <= i ensures DistinctIds(run[k]) { ExactMeansDistinct(run[k]); }
    }
    if forall k :: 0 <= k <= i ==> DistinctIds(run[k]) {
      forall k | 0 <= k <= i ensures TableExact(run[k]) { TableExactInRun(run, k); }
    }
  }

  /** A callback that cancels its own id is never blocked on the guard its own handler may hold. */
  lemma OwnGuardNeverBlocks(run: seq<State>, i: nat, t: nat)
    requires IsRun(run) && Init(run[0]) && i < |run| && t < |run[i].threads|
    requires run[i].threads[t].base.Handler? && run[i].threads[t].call.Cancel?
    ensures Wants(run[i].threads[t]) != Some(Guard(run[i].threads[t].base.s))
    ensures !WaitsFor(run[i], t, t)
  {
    var v := run[i];
    RunInv(run, i);
    assert ThreadOk(v, t) && SessionsOk(v, v.threads[t].base.s);
  }

  // ----- bounded work after a cancel

  /** Completion handlers of the session that may still finish. */
  function Remaining(ss: Session): nat {
    if ss.stage.Done? then 0 else 1
  }

  /**
   * From the moment its flag is set a session starts no write and no read, only the connect if that has not been
   * started yet, and at most one more of its completion handlers finishes.
   */
  lemma StepAfterCancel(v: State, w: State, s: nat)
    requires Inv(v) && IsStep(v, w) && s < |v.sessions| && v.sessions[s].cancelled
    ensures s < |w.sessions| && w.sessions[s].cancelled
    ensures w.sessions[s].started == v.sessions[s].started
        || (v.sessions[s].started == [] && w.sessions[s].started == [Connect])
    ensures w.sessions[s].finished + Remaining(w.sessions[s]) <= v.sessions[s].finished + Remaining(v.sessions[s])
  {
    var a :| Enabled(v, a) && w == Next(v, a);
    StepGrows(v, w, s);
    if a.Advance? || a.Return? {
      if Focus(v, v.threads[a.t]) == s { EffectAfterCancel(v, a.t); }
    } else {
      QuietAfterCancel(v, a, s);
    }
  }

  lemma QuietAfterCancel(v: State, a: Action, s: nat)
    requires Enabled(v, a) && !a.Advance? && !a.Return? && s < |v.sessions|
    ensures
      var ss, ss' := v.sessions[s], Next(v, a).sessions[s];
      ss'.started == ss.started && ss'.finished == ss.finished && Remaining(ss') == Remaining(ss)
  {
  }

  lemma {:induction false} EffectAfterCancel(v: State, t: nat)
    requires Inv(v) && t < |v.threads|
        && (InClient(v.threads[t]) || (v.threads[t].call.NoCall? && v.threads[t].base.Handler?))
    requires Focus(v, v.threads[t]) < |v.sessions| && v.sessions[Focus(v, v.threads[t])].cancelled
    ensures
      var ss, ss' := v.sessions[Focus(v, v.threads[t])], ThreadEffect(v, t).ss;
      && (ss'.started == ss.started || (ss.started == [] && ss'.started == [Connect]))
      && ss'.finished + Remaining(ss') <= ss.finished + Remaining(ss)
  {
    assert ThreadOk(v, t) && SessionsOk(v, Focus(v, v.threads[t]));
  }

  lemma {:induction false} BoundedAfterCancel(run: seq<State>, i: nat, j: nat, s: nat)
    requires IsRun(run) && Init(run[0]) && i <= j < |run|
    requires s < |run[i].sessions| && run[i].sessions[s].cancelled
    ensures s < |run[j].sessions|
    ensures
      var ss, ss' := run[i].sessions[s], run[j].sessions[s];
      && ss'.cancelled
      && (ss'.started == ss.started || (ss.started == [] && ss'.started == [Connect]))
      && ss'.finished + Remaining(ss') <= ss.finished + Remaining(ss)
  {
    if i < j {
      var k := j - 1;
      BoundedAfterCancel(run, i, k, s);
      RunInv(run, k);
      assert IsStep(run[k], run[k + 1]);
      StepAfterCancel(run[k], run[j], s);
    }
  }
}
