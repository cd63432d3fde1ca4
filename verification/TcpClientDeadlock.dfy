/** When the asynchronous TCP client deadlocks: exactly which threads, on exactly which mutexes. */
module TcpClientDeadlock {
  import opened Asio
  import opened TcpClient
  import opened TcpClientInvariant
  import opened TcpClientHistory

  /** A non-empty list of threads, each blocked on a mutex that the next one, cyclically, owns. */
  ghost predicate IsWaitCycle(v: State, ts: seq<nat>) {
    && |ts| > 0
    && forall i :: 0 <= i < |ts| ==> WaitsFor(v, ts[i], ts[if i + 1 < |ts| then i + 1 else 0])
  }

  /**
   * A `cancelRequest` on thread `c` owns the table and waits for the guard of the session `s` it found, while
   * the connect or write handler of `s`, on thread `h`, is in its cancelled branch: it owns that guard and waits
   * for the table.
   */
  predicate DeadlyEmbrace(v: State, c: nat, h: nat, s: nat) {
    && c < |v.threads| && h < |v.threads| && s < |v.sessions|
    && v.threads[c].call.Cancel? && v.threads[c].call.cpc == Contending(s)
    && v.tableOwner == Some(c)
    && v.threads[h].call.NoCall? && v.threads[h].base.Handler? && v.threads[h].base.s == s
    && v.threads[h].base.op != Read && v.threads[h].base.pc == AtTable(true)
    && v.sessions[s].guard == Some(h)
    && v.sessions[s].cancelled
  }

  /** A blocked thread that owns the table is a `cancelRequest` that waits for the session it found. */
  lemma BlockedTableOwner(v: State, t: nat)
    requires Inv(v) && t < |v.threads| && HoldsTable(v.threads[t]) && Wants(v.threads[t]).Some?
    ensures v.threads[t].call.Cancel? && v.threads[t].call.cpc.Contending?
    ensures Wants(v.threads[t]) == Some(Guard(v.threads[t].call.cpc.s)) && v.threads[t].call.cpc.s < |v.sessions|
    ensures !v.sessions[v.threads[t].call.cpc.s].erased
  {
    assert ThreadOk(v, t);
  }

  /** A blocked thread that owns the guard of a session in the table is its handler, in the cancelled branch. */
  lemma BlockedGuardOwner(v: State, c: nat, h: nat, s: nat)
    requires Inv(v) && c < |v.threads| && h < |v.threads| && s < |v.sessions|
    requires HoldsTable(v.threads[c]) && v.threads[c].call.Cancel? && v.threads[c].call.cpc == Contending(s)
    requires HoldsGuard(v.threads[h], s) && Wants(v.threads[h]).Some?
    ensures DeadlyEmbrace(v, c, h, s)
  {
    assert ThreadOk(v, c) && ThreadOk(v, h) && SessionsOk(v, s);
  }

  /** A thread that waits for a guard and owns any mutex at all owns the table. */
  lemma GuardWaiterOwnsTable(v: State, t: nat, lock: Lock)
    requires Inv(v) && t < |v.threads| && Wants(v.threads[t]).Some? && Wants(v.threads[t]).value.Guard?
    requires Holds(v.threads[t], lock)
    ensures HoldsTable(v.threads[t])
  {
    assert ThreadOk(v, t);
  }

  lemma OwnerHolds(v: State, t: nat, u: nat)
    requires Inv(v) && WaitsFor(v, t, u)
    ensures u < |v.threads| && Holds(v.threads[u], Wants(v.threads[t]).value)
  {
    assert ThreadOk(v, t);
  }

  /** Every member of a wait cycle is one of the two threads of one deadly embrace. */
  lemma CycleIsEmbrace(v: State, ts: seq<nat>) returns (c: nat, h: nat, s: nat)
    requires Inv(v) && IsWaitCycle(v, ts)
    ensures DeadlyEmbrace(v, c, h, s)
    ensures forall i :: 0 <= i < |ts| ==> ts[i] == c || ts[i] == h
  {
    c, h, s := EmbraceNear(v, ts, 0);
    forall i | 0 <= i < |ts| ensures ts[i] == c || ts[i] == h {
      var c', h', s' := EmbraceNear(v, ts, i);
    }
  }

  lemma EmbraceNear(v: State, ts: seq<nat>, i: nat) returns (c: nat, h: nat, s: nat)
    requires Inv(v) && IsWaitCycle(v, ts) && i < |ts|
    ensures DeadlyEmbrace(v, c, h, s) && (ts[i] == c || ts[i] == h)
  {
    var p := if i == 0 then |ts| - 1 else i - 1;
    assert WaitsFor(v, ts[i], ts[if i + 1 < |ts| then i + 1 else 0]);
    assert WaitsFor(v, ts[p], ts[if p + 1 < |ts| then p + 1 else 0]);
    if Wants(v.threads[ts[i]]).value.Guard? {
      c, h, s := EmbraceOf(v, ts, i);
    } else {
      // A table owner that is blocked waits for a guard, so it is a guard that the predecessor waits for.
      OwnerHolds(v, ts[p], ts[i]);
      if Wants(v.threads[ts[p]]).value == Table { BlockedTableOwner(v, ts[i]); }
      c, h, s := EmbraceOf(v, ts, p);
    }
  }

  lemma EmbraceOf(v: State, ts: seq<nat>, i: nat) returns (c: nat, h: nat, s: nat)
    requires Inv(v) && IsWaitCycle(v, ts) && i < |ts|
    requires ts[i] < |v.threads| && Wants(v.threads[ts[i]]).Some? && Wants(v.threads[ts[i]]).value.Guard?
    ensures DeadlyEmbrace(v, c, h, s) && ts[i] == c && ts[if i + 1 < |ts| then i + 1 else 0] == h
  {
    var j := if i + 1 < |ts| then i + 1 else 0;
    var p := if i == 0 then |ts| - 1 else i - 1;
    assert WaitsFor(v, ts[p], ts[if p + 1 < |ts| then p + 1 else 0]) && WaitsFor(v, ts[i], ts[j]);
    assert WaitsFor(v, ts[j], ts[if j + 1 < |ts| then j + 1 else 0]);
    OwnerHolds(v, ts[p], ts[i]);
    OwnerHolds(v, ts[i], ts[j]);
    GuardWaiterOwnsTable(v, ts[i], Wants(v.threads[ts[p]]).value);
    BlockedTableOwner(v, ts[i]);
    c, h, s := ts[i], ts[j], v.threads[ts[i]].call.cpc.s;
    BlockedGuardOwner(v, c, h, s);
  }

  /** A wait cycle exists exactly when there is a deadly embrace. */
  lemma CycleIffEmbrace(v: State)
    requires Inv(v)
    ensures (exists ts :: IsWaitCycle(v, ts)) <==> (exists c, h, s :: DeadlyEmbrace(v, c, h, s))
  {
    if exists ts :: IsWaitCycle(v, ts) {
      var ts :| IsWaitCycle(v, ts);
      var c, h, s := CycleIsEmbrace(v, ts);
    }
    if exists c, h, s :: DeadlyEmbrace(v, c, h, s) {
      var c, h, s :| DeadlyEmbrace(v, c, h, s);
      assert IsWaitCycle(v, [c, h]);
    }
  }

  /** Both parties of a deadly embrace are stuck for ever: every step leaves it in place. */
  lemma {:induction false} EmbraceIsForever(v: State, w: State, c: nat, h: nat, s: nat)
    requires Inv(v) && DeadlyEmbrace(v, c, h, s) && IsStep(v, w)
    ensures DeadlyEmbrace(w, c, h, s)
  {
    StepKeeps(v, w);
    EmbracedStay(v, w, c, h, s);
    assert ThreadOk(w, h) && SessionsOk(w, s);
  }

  lemma {:induction false} EmbracedStay(v: State, w: State, c: nat, h: nat, s: nat)
    requires Inv(v) && DeadlyEmbrace(v, c, h, s) && IsStep(v, w)
    ensures |w.threads| == |v.threads| && w.threads[c] == v.threads[c] && w.threads[h] == v.threads[h]
    ensures s < |w.sessions|
  {
    var a :| Enabled(v, a) && w == Next(v, a);
    NextMoves(v, a, if a.StopService? then |v.threads| else a.t);
  }

  /** A deadly embrace takes two lookups of the same session: the one that set its flag and the one that waits. */
  lemma EmbraceNeedsTwoLookups(v: State, c: nat, h: nat, s: nat)
    requires Inv(v) && DeadlyEmbrace(v, c, h, s)
    ensures v.sessions[s].found >= 2
  {
    assert SessionsOk(v, s);
  }

  /** No state of a run in which no session is found by two `cancelRequest` calls has a wait cycle. */
  lemma FoundOnceNeverDeadlocks(run: seq<State>, i: nat, ts: seq<nat>)
    requires IsRun(run) && Init(run[0]) && i < |run|
    requires forall s :: 0 <= s < |run[i].sessions| ==> run[i].sessions[s].found <= 1
    ensures !IsWaitCycle(run[i], ts)
  {
    RunInv(run, i);
    if IsWaitCycle(run[i], ts) {
      var c, h, s := CycleIsEmbrace(run[i], ts);
      EmbraceNeedsTwoLookups(run[i], c, h, s);
    }
  }

  /**
   * Without a deadly embrace the mutexes never stop everybody: as long as some thread is inside the client's code,
   * some thread inside the client's code can take its next step.
   */
  lemma SomeoneAdvances(v: State, t: nat) returns (u: nat)
    requires Inv(v) && t < |v.threads| && InClient(v.threads[t])
    requires forall c, h, s :: !DeadlyEmbrace(v, c, h, s)
    ensures CanAdvance(v, u)
  {
    assert ThreadOk(v, t);
    if CanAdvance(v, t) {
      u := t;
    } else {
      u := Owner(v, Wants(v.threads[t]).value).value;
      OwnerHolds(v, t, u);
      assert ThreadOk(v, u);
      if Wants(v.threads[t]) == Some(Table) {
        if Wants(v.threads[u]).Some? {
          BlockedTableOwner(v, u);
          if !CanAdvance(v, u) { u := FoundSessionOwnerAdvances(v, u, v.threads[u].call.cpc.s); }
        }
      } else if v.threads[t].call.Cancel? {
        u := FoundSessionOwnerAdvances(v, t, v.threads[t].call.cpc.s);
      }
    }
  }

  lemma FoundSessionOwnerAdvances(v: State, c: nat, s: nat) returns (u: nat)
    requires Inv(v) && c < |v.threads| && v.threads[c].call.Cancel? && v.threads[c].call.cpc == Contending(s)
    requires s < |v.sessions| && v.sessions[s].guard.Some?
    requires forall h :: !DeadlyEmbrace(v, c, h, s)
    ensures CanAdvance(v, u)
  {
    u := v.sessions[s].guard.value;
    assert HoldsGuard(v.threads[u], s);
    assert ThreadOk(v, c) && ThreadOk(v, u) && SessionsOk(v, s);
    if Wants(v.threads[u]).Some? { BlockedGuardOwner(v, c, u, s); }
  }
}
