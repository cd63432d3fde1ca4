/** Runs that show that the side conditions of the theorems about the asynchronous TCP client are needed. */
module TcpClientWitness {
  import opened Asio
  import opened TcpClient
  import opened TcpClientCode
  import opened TcpClientDeadlock
  import opened TcpClientProperties
  import Runs

  /** One user thread (0) and one worker (1). */
  function Start(): State {
    State([Thread(UserCode, NoCall), Thread(Idle, NoCall)], [], map[], None, true, false, false)
  }

  /** A session right after `emulateLongComputationOp` has returned. */
  function Submitted(id: int): Session {
    NewSession(0, id).(inserted := true, stage := Pending(Connect), started := [Connect])
  }

  lemma StartLeads()
    ensures Init(Start()) && Leads(Start(), Start())
  {
    Runs.StaysLeads(IsStep, Start());
    assert Start().threads[1].base == Idle;
  }

  lemma SubmitLeads(v: State, w: State, id: int) returns (z: State)
    requires Leads(v, w) && CanCall(w, 0) && w.threads[0].base.UserCode? && w.tableOwner == None
    ensures Leads(v, z)
    ensures z == w.(sessions := w.sessions + [Submitted(id).(late := w.stopped)], table := w.table[id := |w.sessions|])
  {
    var s := |w.sessions|;
    z := Advanced(v, w, BeginSubmit(0, id));
    SubmitRuns(z, 0, UserCode, s, z.sessions[s]);
    RunsAlone(v, z, 0, s);
    z := Apply(z, 0, s, RunCode(z, 0, z.threads[0], z.sessions[s]));
    assert z.threads == w.threads && z.sessions[s].started == [Connect];
    assert z.sessions == w.sessions + [Submitted(id).(late := w.stopped)];
  }

  /** A whole `cancelRequest` by the user thread, on an id whose session is untouched. */
  lemma CancelLeads(v: State, w: State, id: int, s: nat) returns (z: State)
    requires Leads(v, w) && CanCall(w, 0) && w.threads[0].base.UserCode? && w.tableOwner == None
    requires id in w.table && w.table[id] == s && s < |w.sessions| && w.sessions[s].guard == None
    ensures Leads(v, z)
    ensures z == w.(sessions := w.sessions[s := w.sessions[s].(found := w.sessions[s].found + 1,
                                                               marks := w.sessions[s].marks + 1, cancelled := true)])
  {
    z := Advanced(v, w, BeginCancel(0, id));
    CancelRuns(z, 0, UserCode, id, z.sessions[s]);
    RunsAlone(v, z, 0, s);
    z := Apply(z, 0, s, RunCode(z, 0, z.threads[0], z.sessions[s]));
    assert z.threads == w.threads;
  }

  /** The user thread's `cancelRequest` up to the point where it has found the session. */
  lemma FindLeads(v: State, w: State, id: int, s: nat) returns (z: State)
    requires Leads(v, w) && CanCall(w, 0) && w.threads[0].base.UserCode? && w.tableOwner == None
    requires id in w.table && w.table[id] == s && s < |w.sessions|
    ensures Leads(v, z)
    ensures z ==
            w.(sessions := w.sessions[s := w.sessions[s].(found := w.sessions[s].found + 1)], tableOwner := Some(0),
                    threads := w.threads[0 := Thread(UserCode, Cancel(id, Contending(s)))])
  {
    z := Advanced(v, w, BeginCancel(0, id));
    z := Advanced(v, z, Advance(0));
    assert z.threads == w.threads[0 := Thread(UserCode, Cancel(id, Searching))] && z.tableOwner == Some(0);
    z := LookupLeads(v, z, id, s);
  }

  lemma LookupLeads(v: State, w: State, id: int, s: nat) returns (z: State)
    requires Leads(v, w) && |w.threads| > 0 && w.threads[0] == Thread(UserCode, Cancel(id, Searching))
    requires id in w.table && w.table[id] == s && s < |w.sessions|
    ensures Leads(v, z)
    ensures z == w.(sessions := w.sessions[s := w.sessions[s].(found := w.sessions[s].found + 1)],
                    threads := w.threads[0 := Thread(UserCode, Cancel(id, Contending(s)))])
  {
    z := Advanced(v, w, Advance(0));
  }

  /** The worker's handler of a successful connect of a cancelled session, up to where it waits for the table. */
  lemma ConnectedLeads(v: State, w: State, s: nat) returns (z: State)
    requires Leads(v, w) && |w.threads| > 1 && w.threads[1] == Thread(Idle, NoCall) && !w.stopped
    requires s < |w.sessions| && w.sessions[s].stage == Pending(Connect) && w.sessions[s].cancelled
        && w.sessions[s].guard == None
    ensures Leads(v, z) && |z.sessions| == |w.sessions|
    ensures z == w.(threads := w.threads[1 := Thread(Handler(s, Connect, AtTable(true)), NoCall)],
                    sessions := w.sessions[s := z.sessions[s]])
    ensures z.sessions[s]
        == w.sessions[s].(stage := z.sessions[s].stage, guard := Some(1), completions := z.sessions[s].completions)
  {
    z := Advanced(v, w, Dispatch(1, s, Success, ""));
    z := Advanced(v, z, Advance(1));                           // no error, so on to the session guard
    z := CancelledLeads(v, z, s);
    assert z.threads == w.threads[1 := Thread(Handler(s, Connect, AtTable(true)), NoCall)];
    assert z.sessions == w.sessions[s := z.sessions[s]];
  }

  lemma CancelledLeads(v: State, w: State, s: nat) returns (z: State)
    requires Leads(v, w) && |w.threads| > 1 && w.threads[1] == Thread(Handler(s, Connect, AtGuard), NoCall)
    requires s < |w.sessions| && w.sessions[s].cancelled && w.sessions[s].guard == None
    ensures Leads(v, z)
    ensures z == w.(threads := w.threads[1 := Thread(Handler(s, Connect, AtTable(true)), NoCall)],
                    sessions := w.sessions[s := w.sessions[s].(guard := Some(1))])
  {
    z := Advanced(v, w, Advance(1));                           // the guard is taken
    z := Advanced(v, z, Advance(1));                           // the flag is set, so on to the table
    assert z.sessions == w.sessions[s := w.sessions[s].(guard := Some(1))];
  }

  /** Cancelling one session twice can deadlock: the second cancel meets the connect handler's cancelled branch. */
  lemma DeadlockIsReachable() returns (z: State)
    ensures Init(Start()) && Leads(Start(), z)
    ensures DeadlyEmbrace(z, 0, 1, 0) && z.sessions[0].found == 2
  {
    StartLeads();
    z := SubmitLeads(Start(), Start(), 7);
    z := CancelLeads(Start(), z, 7, 0);
    z := ConnectedLeads(Start(), z, 0);
    z := FindLeads(Start(), z, 7, 0);                          // the table is taken, so on to the guard
  }

  lemma TwiceSubmitted() returns (z: State)
    ensures Init(Start()) && Leads(Start(), z)
    ensures z == Start().(sessions := [Submitted(7), Submitted(7)], table := map[7 := 1])
  {
    StartLeads();
    z := SubmitLeads(Start(), Start(), 7);
    z := SubmitLeads(Start(), z, 7);
    assert z.table == map[7 := 1];
  }

  /** Reusing an active id leaves an active session that no lookup can find, so the table is not exact then. */
  lemma ReusedIdIsUntabled() returns (z: State)
    ensures Init(Start()) && Leads(Start(), z)
    ensures Active(z, 0) && Active(z, 1) && z.sessions[0].id == z.sessions[1].id
    ensures z.table == map[7 := 1] && !TableExact(z)
  {
    z := TwiceSubmitted();
  }

  /** The worker's handler of a failed connect, up to its erase step. */
  lemma FailureLeads(v: State, w: State, s: nat) returns (z: State)
    requires Leads(v, w) && |w.threads| > 1 && w.threads[1] == Thread(Idle, NoCall) && w.tableOwner == None
        && !w.stopped
    requires s < |w.sessions| && w.sessions[s].stage == Pending(Connect)
    ensures Leads(v, z) && |z.sessions| == |w.sessions| && z.sessions[s].erased
        && z.table == w.table - {w.sessions[s].id}
    ensures forall r: nat :: r < |w.sessions| && r != s ==> z.sessions[r] == w.sessions[r]
  {
    z := Advanced(v, w, Dispatch(1, s, Eof, ""));
    z := Advanced(v, z, Advance(1));                           // the connect failed, so on to the table
    z := EraseLeads(v, z, s);
  }

  lemma EraseLeads(v: State, w: State, s: nat) returns (z: State)
    requires Leads(v, w) && |w.threads| > 1 && w.tableOwner == None
    requires w.threads[1] == Thread(Handler(s, Connect, AtTable(false)), NoCall) && s < |w.sessions|
    ensures Leads(v, z)
    ensures z ==
            w.(threads := w.threads[1 := Thread(Handler(s, Connect, Erased(false)), NoCall)], tableOwner := Some(1),
                    sessions := w.sessions[s := w.sessions[s].(erased := true)], table := w.table - {w.sessions[s].id})
  {
    z := Advanced(v, w, Advance(1));                           // the table is taken
    z := Advanced(v, z, Advance(1));                           // the entry is erased
    assert z.sessions == w.sessions[s := w.sessions[s].(erased := true)];
  }

  /** With a reused id, the older session's completion takes the newer session out of the table. */
  lemma OlderSessionErasesNewer() returns (z: State)
    ensures Init(Start()) && Leads(Start(), z)
    ensures |z.sessions| == 2 && z.sessions[0].erased && Active(z, 1) && z.table == map[]
  {
    z := TwiceSubmitted();
    z := FailureLeads(Start(), z, 0);
  }

  lemma CloseLeads() returns (z: State)
    ensures Init(Start()) && Leads(Start(), z)
    ensures z == Start().(threads := [Thread(UserCode, NoCall), Thread(Exited, NoCall)], work := false, stopped := true,
                          closed := true)
  {
    StartLeads();
    z := Advanced(Start(), Start(), BeginClose(0));
    z := Advanced(Start(), z, StopService);
    z := Advanced(Start(), z, ExitWorker(1));
    z := Advanced(Start(), z, FinishClose(0));
    assert z.threads == [Thread(UserCode, NoCall), Thread(Exited, NoCall)];
  }

  /** A submission after `close` has returned leaves a late session in the table. */
  lemma LateIsReachable() returns (z: State)
    ensures Init(Start()) && Leads(Start(), z)
    ensures z.closed && |z.sessions| == 1 && z.sessions[0].late && z.table == map[7 := 0]
  {
    z := CloseLeads();
    z := SubmitLeads(Start(), z, 7);
  }
}
