/** What every step of the asynchronous TCP client keeps, and hence what holds in every reachable state. */
module TcpClientInvariant {
  import opened Asio
  import opened TcpClient

  /** Exactly the owner of a mutex stands at a program point inside that mutex's scope. */
  ghost predicate LocksOk(v: State) {
    && (forall t | 0 <= t < |v.threads| :: HoldsTable(v.threads[t]) <==> v.tableOwner == Some(t))
    && (v.tableOwner.Some? ==> v.tableOwner.value < |v.threads|)
    && (forall t, s | 0 <= t < |v.threads| && 0 <= s < |v.sessions| ::
          HoldsGuard(v.threads[t], s) <==> v.sessions[s].guard == Some(t))
    && (forall s | 0 <= s < |v.sessions| :: v.sessions[s].guard.Some? ==> v.sessions[s].guard.value < |v.threads|)
  }

  ghost predicate ThreadOk(v: State, t: nat)
    requires t < |v.threads|
  {
    var th := v.threads[t];
    && (th.base.Handler? ==> th.base.s < |v.sessions|)
    && (th.call.Submit? ==> th.call.s < |v.sessions|)
    && (!th.call.NoCall? ==> th.base.UserCode? || (th.base.Handler? && th.base.pc.InCallback? && !th.call.Closing?))
    && (th.call.Submit? ==> v.sessions[th.call.s].stage == Fresh(t))
    && (th.call.Cancel? && (th.call.cpc.Contending? || th.call.cpc.Guarding? || th.call.cpc.Marked?) ==>
          th.call.id in v.table && v.table[th.call.id] == th.call.cpc.s)
    && (th.base.Handler? ==>
          if th.base.pc.Releasing? then !v.sessions[th.base.s].cancelled && !v.sessions[th.base.s].stage.Fresh?
          else v.sessions[th.base.s].stage == Running(th.base.op, t))
    && (th.base.Exited? ==> v.stopped)
  }

  /** Every operation before `op` completed once, in order, and successfully. */
  predicate Before(op: Operation, history: seq<Completion>) {
    match op
    case Connect => history == []
    case Write => |history| == 1 && history[0].op == Connect && history[0].ec == Success
    case Read =>
      && |history| == 2
      && history[0].op == Connect && history[0].ec == Success
      && history[1].op == Write && history[1].ec == Success
  }

  /** Every operation before `op` succeeded and `op` itself has completed, somehow. */
  predicate UpTo(op: Operation, history: seq<Completion>) {
    && history != []
    && Before(op, history[..|history| - 1])
    && history[|history| - 1].op == op
  }

  function StartedUpTo(op: Operation): seq<Operation> {
    match op
    case Connect => [Connect]
    case Write => [Connect, Write]
    case Read => [Connect, Write, Read]
  }

  /** `onRequestComplete` was reached the way the source allows, with the last completion's result stored. */
  predicate Concluded(ss: Session, op: Operation, locked: bool) {
    && UpTo(op, ss.completions)
    && var last := ss.completions[|ss.completions| - 1];
       && ss.ec == last.ec
       && (locked ==> ss.cancelled && last.ec == Success && op != Read)
       && (!locked ==> last.ec != Success || (op == Read && ss.response == last.line))
  }

  predicate HandlerOk(ss: Session, op: Operation, pc: HandlerPc) {
    && UpTo(op, ss.completions)
    && !pc.Releasing?
    && (if pc.Entered? then
          ss.completions[|ss.completions| - 1] == Completion(op, pc.ec, pc.line) && ss.ec == Success
        else if pc.AtGuard? || pc.Checking? then
          ss.completions[|ss.completions| - 1].ec == Success && op != Read && ss.ec == Success
        else
          Concluded(ss, op, UnderGuard(pc)) && (pc.Calling? ==> pc.ec == Verdict(ss)))
    && ss.erased == (pc.Erased? || pc.Deciding? || pc.Calling? || pc.InCallback?)
    && ss.delivered == if pc.InCallback? then [Delivery(ss.id, ss.response, Verdict(ss))] else []
  }

  ghost predicate SessionOk(v: State, s: nat)
    requires s < |v.sessions|
  {
    var ss := v.sessions[s];
    match ss.stage
    case Fresh(t) =>
      && t < |v.threads| && v.threads[t].call.Submit? && v.threads[t].call.s == s
      && (ss.inserted <==> v.threads[t].call.spc.Inserted? || v.threads[t].call.spc.Unlocked?)
      && !ss.erased && !ss.late && ss.ec == Success
      && ss.started == [] && ss.completions == [] && ss.finished == 0 && ss.delivered == []
    case Pending(op) =>
      && ss.inserted && !ss.erased && ss.ec == Success && ss.delivered == []
      && ss.started == StartedUpTo(op) && Before(op, ss.completions)
    case Running(op, t) =>
      && t < |v.threads| && v.threads[t].base.Handler? && v.threads[t].base.s == s && v.threads[t].base.op == op
      && ss.inserted && ss.started == StartedUpTo(op)
      && HandlerOk(ss, op, v.threads[t].base.pc)
    case Done =>
      && ss.inserted && ss.erased
      && ss.delivered == [Delivery(ss.id, ss.response, Verdict(ss))]
      && ss.completions != []
      && var op := ss.completions[|ss.completions| - 1].op;
         ss.started == StartedUpTo(op) && (Concluded(ss, op, true) || Concluded(ss, op, false))
  }

  /** Every entry refers to a stored session that has the entry's id and has not passed its own erase step. */
  ghost predicate TableOk(v: State) {
    forall id | id in v.table ::
      && v.table[id] < |v.sessions|
      && v.sessions[v.table[id]].id == id
      && v.sessions[v.table[id]].inserted
      && !v.sessions[v.table[id]].erased
  }

  /** A lookup has returned session `s` and the flag is not set yet on behalf of that lookup. */
  ghost predicate AboutToMark(v: State, s: nat) {
    && v.tableOwner.Some? && v.tableOwner.value < |v.threads|
    && var call := v.threads[v.tableOwner.value].call;
       call.Cancel? && (call.cpc == Contending(s) || call.cpc == Guarding(s))
  }

  ghost predicate CancelOk(v: State, s: nat)
    requires s < |v.sessions|
  {
    var ss := v.sessions[s];
    && ss.found == ss.marks + (if AboutToMark(v, s) then 1 else 0)
    && (ss.cancelled <==> ss.marks > 0)
  }

  /** Only a connect that was started after the io_service stopped stays pending for ever. */
  ghost predicate LateOk(v: State, s: nat)
    requires s < |v.sessions|
  {
    var ss := v.sessions[s];
    && (ss.late ==> ss.stage == Pending(Connect) && v.stopped)
    && (v.stopped ==> ss.stage.Fresh? || ss.stage.Done? || ss.late)
  }

  ghost predicate ServiceOk(v: State) {
    && (v.stopped ==> !v.work)
    && (v.closed ==> v.stopped)
    && (exists t :: 0 <= t < |v.threads| && !v.threads[t].base.UserCode?)
  }

  ghost predicate SessionsOk(v: State, s: nat)
    requires s < |v.sessions|
  {
    SessionOk(v, s) && CancelOk(v, s) && LateOk(v, s)
  }

  ghost predicate Inv(v: State) {
    && LocksOk(v)
    && (forall t | 0 <= t < |v.threads| :: ThreadOk(v, t))
    && (forall s | 0 <= s < |v.sessions| :: SessionsOk(v, s))
    && TableOk(v)
    && ServiceOk(v)
  }

  lemma InitInv(v: State)
    requires Init(v)
    ensures Inv(v)
  {
  }

  // ----- steps that touch one thread and at most one session

  /** From `v` to `w` only thread `t` and, if `s` is a session, session `s` change; and so far as they may. */
  ghost predicate Touches(v: State, w: State, t: nat, s: nat) {
    && t < |v.threads| == |w.threads|
    && (forall u | 0 <= u < |v.threads| && u != t :: w.threads[u] == v.threads[u])
    && |w.sessions| == |v.sessions|
    && (forall r | 0 <= r < |v.sessions| && r != s :: w.sessions[r] == v.sessions[r])
    && w.stopped == v.stopped
    && (w.threads[t].base == v.threads[t].base
        || (if v.threads[t].base.Handler? then v.threads[t].base.s == s
            else v.threads[t].base.Idle?))
    && w.threads[t].base.UserCode? == v.threads[t].base.UserCode?
    && (v.threads[t].call.Submit? ==> v.threads[t].call.s == s)
    && (s < |v.sessions| ==> SessionTouch(v.sessions[s], w.sessions[s], t))
  }

  predicate SessionTouch(ss: Session, ss': Session, t: nat) {
    && (ss'.stage == ss.stage || ss.stage == Fresh(t) || ss.stage.Pending?
        || (ss.stage.Running? && ss.stage.runner == t))
    && (ss'.stage.Fresh? ==> ss.stage.Fresh?)
    && (ss'.cancelled == ss.cancelled || ss.guard == Some(t))
    && ss'.id == ss.id
  }

  /** Mutexes change hands only between `t` and nobody, and `t`'s program points follow. */
  ghost predicate LockTouch(v: State, w: State, t: nat, s: nat)
    requires t < |v.threads| == |w.threads| && |v.sessions| == |w.sessions|
  {
    && (w.tableOwner == v.tableOwner || (v.tableOwner == None && w.tableOwner == Some(t))
        || (v.tableOwner == Some(t) && w.tableOwner == None))
    && (HoldsTable(w.threads[t]) <==> w.tableOwner == Some(t))
    && (forall r | 0 <= r < |v.sessions| && r != s :: HoldsGuard(w.threads[t], r) == HoldsGuard(v.threads[t], r))
    && (s < |v.sessions| ==>
          && (HoldsGuard(w.threads[t], s) <==> w.sessions[s].guard == Some(t))
          && (w.sessions[s].guard == v.sessions[s].guard
              || (v.sessions[s].guard == None && w.sessions[s].guard == Some(t))
              || (v.sessions[s].guard == Some(t) && w.sessions[s].guard == None)))
    && (forall r | 0 <= r < |v.sessions| && r != s :: AboutToMark(w, r) == AboutToMark(v, r))
  }

  /** The table stays, or its owner `t` stores session `s`, or erases the entry under the id of `s`. */
  ghost predicate TableTouch(v: State, w: State, t: nat, s: nat)
    requires |v.sessions| == |w.sessions|
  {
    || (w.table == v.table
        && (s < |v.sessions| ==>
              w.sessions[s].inserted == v.sessions[s].inserted && w.sessions[s].erased == v.sessions[s].erased))
    || (v.tableOwner == Some(t) && s < |v.sessions|
        && ((w.table == v.table[v.sessions[s].id := s] && w.sessions[s].inserted && !w.sessions[s].erased)
            || (w.table == v.table - {v.sessions[s].id} && w.sessions[s].inserted == v.sessions[s].inserted)))
  }

  lemma TouchThreads(v: State, w: State, t: nat, s: nat, u: nat)
    requires Inv(v) && Touches(v, w, t, s) && LockTouch(v, w, t, s) && TableTouch(v, w, t, s)
    requires u < |v.threads| && u != t
    ensures ThreadOk(w, u)
  {
    assert ThreadOk(v, u);
  }

  lemma TouchSessions(v: State, w: State, t: nat, s: nat, r: nat)
    requires Inv(v) && Touches(v, w, t, s) && LockTouch(v, w, t, s)
    requires r < |v.sessions| && r != s
    ensures SessionsOk(w, r)
  {
    assert SessionsOk(v, r);
  }

  lemma TouchLocks(v: State, w: State, t: nat, s: nat)
    requires Inv(v) && Touches(v, w, t, s) && LockTouch(v, w, t, s)
    ensures LocksOk(w)
  {
  }

  lemma TouchTable(v: State, w: State, t: nat, s: nat)
    requires Inv(v) && Touches(v, w, t, s) && TableTouch(v, w, t, s)
    ensures TableOk(w)
  {
  }

  lemma TouchKeeps(v: State, w: State, t: nat, s: nat)
    requires Inv(v) && Touches(v, w, t, s) && LockTouch(v, w, t, s) && TableTouch(v, w, t, s)
    requires ThreadOk(w, t) && (s < |w.sessions| ==> SessionsOk(w, s))
    requires (w.work ==> v.work) && (w.closed ==> w.stopped)
    ensures Inv(w)
  {
    forall u | 0 <= u < |w.threads| ensures ThreadOk(w, u) { if u != t { TouchThreads(v, w, t, s, u); } }
    forall r | 0 <= r < |w.sessions| ensures SessionsOk(w, r) { if r != s { TouchSessions(v, w, t, s, r); } }
    TouchLocks(v, w, t, s);
    TouchTable(v, w, t, s);
    var u :| 0 <= u < |v.threads| && !v.threads[u].base.UserCode?;
    assert !w.threads[u].base.UserCode?;
  }

  /** A mutex stays, is taken by `t` from nobody, or is given up by `t`. */
  predicate OwnerTouch(owner: Option<nat>, owner': Option<nat>, t: nat) {
    owner' == owner || (owner == None && owner' == Some(t)) || (owner == Some(t) && owner' == None)
  }

  /** What a submitter may do to its session `s`, or a handler to the session it handles: all of it local. */
  predicate Move(v: State, t: nat, s: nat, e: Effect) {
    && t < |v.threads| && s < |v.sessions|
    && var th, ss := v.threads[t], v.sessions[s];
       && !th.call.Cancel? && !e.th.call.Cancel? && (th.call.Submit? ==> th.call.s == s)
       && (if e.th.base == th.base then th.base.Handler? ==> th.base.s != s || th.call.NoCall?
           else th.call.NoCall? && e.th.call.NoCall? && th.base.Handler? && th.base.s == s
                && (e.th.base.Idle? || (e.th.base.Handler? && e.th.base.s == s)))
       && SessionTouch(ss, e.ss, t)
       && OwnerTouch(v.tableOwner, e.owner, t) && (HoldsTable(e.th) <==> e.owner == Some(t))
       && OwnerTouch(ss.guard, e.ss.guard, t) && (HoldsGuard(e.th, s) <==> e.ss.guard == Some(t))
       && (|| (e.table == v.table && e.ss.inserted == ss.inserted && e.ss.erased == ss.erased)
           || (v.tableOwner == Some(t) && e.table == v.table[ss.id := s] && e.ss.inserted && !e.ss.erased)
           || (v.tableOwner == Some(t) && e.table == v.table - {ss.id} && e.ss.inserted == ss.inserted))
  }

  lemma MoveTouches(v: State, t: nat, s: nat, e: Effect)
    requires Inv(v) && Move(v, t, s, e)
    ensures
      var w := Apply(v, t, s, e);
      Touches(v, w, t, s) && LockTouch(v, w, t, s) && TableTouch(v, w, t, s)
  {
  }

  lemma MoveKeeps(v: State, t: nat, s: nat, e: Effect)
    requires Inv(v) && Move(v, t, s, e)
    requires ThreadOk(Apply(v, t, s, e), t) && SessionsOk(Apply(v, t, s, e), s)
    ensures Inv(Apply(v, t, s, e))
  {
    MoveTouches(v, t, s, e);
    TouchKeeps(v, Apply(v, t, s, e), t, s);
  }

  /** Guard, lookups and the cancel flag of a session that awaits its verdict do not matter to `SessionOk`. */
  lemma LookedUpSession(v: State, w: State, t: nat, s: nat)
    requires Inv(v) && Touches(v, w, t, s) && s < |v.sessions| && ThreadOk(v, t)
    requires w.threads[t].base == v.threads[t].base && v.threads[t].call.Cancel?
    requires
      var ss, ss' := v.sessions[s], w.sessions[s];
      && ss' == ss.(guard := ss'.guard, found := ss'.found, marks := ss'.marks, cancelled := ss'.cancelled)
      && (ss'.cancelled == ss.cancelled || (ss'.cancelled && !ss.erased))
    ensures SessionOk(w, s)
  {
    assert SessionsOk(v, s);
  }

  /** What a `cancelRequest` that has found session `s` under its id may do to the session while it owns the table. */
  ghost predicate LookedUp(v: State, t: nat, s: nat, pc: CancelPc, ss': Session) {
    && t < |v.threads| && v.threads[t].call.Cancel? && v.tableOwner == Some(t)
    && v.threads[t].call.id in v.table && v.table[v.threads[t].call.id] == s && s < |v.sessions|
    && (pc == Contending(s) || pc == Guarding(s) || pc == Marked(s) || pc == Leaving)
    && var ss := v.sessions[s];
       && ss' == ss.(guard := ss'.guard, found := ss'.found, marks := ss'.marks, cancelled := ss'.cancelled)
       && (ss'.cancelled == ss.cancelled || (ss'.cancelled && ss.guard == Some(t)))
       && (ss'.guard == ss.guard || (ss.guard == None && ss'.guard == Some(t))
           || (ss.guard == Some(t) && ss'.guard == None))
       && (ss'.guard == Some(t) <==> pc == Guarding(s) || pc == Marked(s))
       && ss'.found == ss'.marks + (if pc == Contending(s) || pc == Guarding(s) then 1 else 0)
       && (ss'.cancelled <==> ss'.marks > 0)
  }

  lemma LookedUpTouches(v: State, t: nat, s: nat, pc: CancelPc, ss': Session)
    requires Inv(v) && LookedUp(v, t, s, pc, ss')
    ensures Touches(v, Apply(v, t, s,
        Effect(v.threads[t].(call := Cancel(v.threads[t].call.id, pc)), ss', v.tableOwner, v.table)), t, s)
  {
    assert ThreadOk(v, t);
  }

  lemma LookedUpLocks(v: State, t: nat, s: nat, pc: CancelPc, ss': Session)
    requires Inv(v) && LookedUp(v, t, s, pc, ss')
    ensures LockTouch(v, Apply(v, t, s,
        Effect(v.threads[t].(call := Cancel(v.threads[t].call.id, pc)), ss', v.tableOwner, v.table)), t, s)
  {
    assert ThreadOk(v, t) && SessionsOk(v, s);
  }

  lemma LookedUpKeeps(v: State, t: nat, s: nat, pc: CancelPc, ss': Session)
    requires Inv(v) && LookedUp(v, t, s, pc, ss')
    ensures Inv(Apply(v, t, s,
        Effect(v.threads[t].(call := Cancel(v.threads[t].call.id, pc)), ss', v.tableOwner, v.table)))
  {
    var w := Apply(v, t, s,
        Effect(v.threads[t].(call := Cancel(v.threads[t].call.id, pc)), ss', v.tableOwner, v.table));
    assert ThreadOk(v, t) && SessionsOk(v, s);
    LookedUpTouches(v, t, s, pc, ss');
    LookedUpLocks(v, t, s, pc, ss');
    LookedUpSession(v, w, t, s);
    TouchKeeps(v, w, t, s);
  }

  /** Thread `t` runs a completion handler, not a call made by its callback, and no mutex stops it. */
  predicate HandlerMoves(v: State, t: nat) {
    && t < |v.threads| && v.threads[t].call.NoCall? && v.threads[t].base.Handler?
    && (Wants(v.threads[t]).None? || Owner(v, Wants(v.threads[t]).value).None?)
  }

  /** The program points inside `onRequestComplete`. */
  predicate Completing(pc: HandlerPc) {
    pc.AtTable? || pc.Erasing? || pc.Erased? || pc.Deciding? || pc.Calling? || pc.InCallback?
  }

  lemma StageMoves(v: State, t: nat)
    requires Inv(v) && HandlerMoves(v, t) && !Completing(v.threads[t].base.pc)
    ensures Move(v, t, v.threads[t].base.s, ThreadEffect(v, t))
  {
    assert ThreadOk(v, t) && SessionsOk(v, v.threads[t].base.s);
  }

  lemma StageThreadOk(v: State, t: nat)
    requires Inv(v) && HandlerMoves(v, t) && !Completing(v.threads[t].base.pc)
    ensures ThreadOk(Apply(v, t, v.threads[t].base.s, ThreadEffect(v, t)), t)
  {
    assert ThreadOk(v, t) && SessionsOk(v, v.threads[t].base.s);
  }

  lemma MoveMarksNothing(v: State, t: nat, s: nat, e: Effect)
    requires Inv(v) && Move(v, t, s, e)
    requires var ss := v.sessions[s]; e.ss.found == ss.found && e.ss.marks == ss.marks && e.ss.cancelled == ss.cancelled
    ensures CancelOk(Apply(v, t, s, e), s)
  {
    assert SessionsOk(v, s);
    assert AboutToMark(Apply(v, t, s, e), s) == AboutToMark(v, s);
  }

  lemma HandlersMarkNothing(v: State, t: nat, th: Thread, ss: Session)
    requires th.base.Handler?
    ensures
      var ss' := HandlerEffect(v, t, th, ss).ss;
      ss'.found == ss.found && ss'.marks == ss.marks && ss'.cancelled == ss.cancelled
  {
  }

  /** Submitters and handlers leave lookups and the cancel flag alone. */
  lemma OnlyLookupsMark(v: State, t: nat, th: Thread, ss: Session)
    requires th.call.Submit? || th.base.Handler?
    ensures
      var ss' := if th.call.Submit? then SubmitEffect(v, t, th, ss).ss else HandlerEffect(v, t, th, ss).ss;
      ss'.found == ss.found && ss'.marks == ss.marks && ss'.cancelled == ss.cancelled
  {
    if !th.call.Submit? { HandlersMarkNothing(v, t, th, ss); }
  }

  lemma HandlerLateOk(v: State, t: nat)
    requires Inv(v) && HandlerMoves(v, t)
    ensures
      var s := v.threads[t].base.s;
      var w := Apply(v, t, s, ThreadEffect(v, t));
      s < |w.sessions| && LateOk(w, s)
  {
    assert ThreadOk(v, t) && SessionsOk(v, v.threads[t].base.s);
    var e, ss := ThreadEffect(v, t), v.sessions[v.threads[t].base.s];
    assert e.ss.late == ss.late;
  }

  lemma CompletionMoves(v: State, t: nat)
    requires Inv(v) && HandlerMoves(v, t) && Completing(v.threads[t].base.pc)
    ensures Move(v, t, v.threads[t].base.s, ThreadEffect(v, t))
  {
    assert ThreadOk(v, t) && SessionsOk(v, v.threads[t].base.s);
  }

  lemma CompletionThreadOk(v: State, t: nat)
    requires Inv(v) && HandlerMoves(v, t) && Completing(v.threads[t].base.pc)
    ensures ThreadOk(Apply(v, t, v.threads[t].base.s, ThreadEffect(v, t)), t)
  {
    assert ThreadOk(v, t) && SessionsOk(v, v.threads[t].base.s);
  }

  lemma EnteredSessionOk(v: State, t: nat)
    requires Inv(v) && HandlerMoves(v, t) && v.threads[t].base.pc.Entered?
    ensures
      var s := v.threads[t].base.s;
      var w := Apply(v, t, s, ThreadEffect(v, t));
      s < |w.sessions| && SessionOk(w, s)
  {
    assert ThreadOk(v, t) && SessionsOk(v, v.threads[t].base.s);
  }

  lemma GuardedSessionOk(v: State, t: nat)
    requires Inv(v) && HandlerMoves(v, t)
        && (v.threads[t].base.pc.AtGuard? || v.threads[t].base.pc.Checking? || v.threads[t].base.pc.Releasing?)
    ensures
      var s := v.threads[t].base.s;
      var w := Apply(v, t, s, ThreadEffect(v, t));
      s < |w.sessions| && SessionOk(w, s)
  {
    assert ThreadOk(v, t) && SessionsOk(v, v.threads[t].base.s);
  }

  lemma ErasingSessionOk(v: State, t: nat)
    requires Inv(v) && HandlerMoves(v, t)
        && (v.threads[t].base.pc.AtTable? || v.threads[t].base.pc.Erasing? || v.threads[t].base.pc.Erased?)
    ensures
      var s := v.threads[t].base.s;
      var w := Apply(v, t, s, ThreadEffect(v, t));
      s < |w.sessions| && SessionOk(w, s)
  {
    assert ThreadOk(v, t) && SessionsOk(v, v.threads[t].base.s);
  }

  lemma CallingSessionOk(v: State, t: nat)
    requires Inv(v) && HandlerMoves(v, t)
        && (v.threads[t].base.pc.Deciding? || v.threads[t].base.pc.Calling? || v.threads[t].base.pc.InCallback?)
    ensures
      var s := v.threads[t].base.s;
      var w := Apply(v, t, s, ThreadEffect(v, t));
      s < |w.sessions| && SessionOk(w, s)
  {
    assert ThreadOk(v, t) && SessionsOk(v, v.threads[t].base.s);
  }

  lemma HandlerKeeps(v: State, t: nat)
    requires Inv(v) && HandlerMoves(v, t)
    ensures Inv(Apply(v, t, v.threads[t].base.s, ThreadEffect(v, t)))
  {
    var pc := v.threads[t].base.pc;
    assert ThreadOk(v, t);
    HandlerLateOk(v, t);
    if Completing(pc) {
      CompletionMoves(v, t);
      CompletionThreadOk(v, t);
      if pc.AtTable? || pc.Erasing? || pc.Erased? { ErasingSessionOk(v, t); } else { CallingSessionOk(v, t); }
    } else {
      StageMoves(v, t);
      StageThreadOk(v, t);
      if pc.Entered? { EnteredSessionOk(v, t); } else { GuardedSessionOk(v, t); }
    }
    OnlyLookupsMark(v, t, v.threads[t], v.sessions[v.threads[t].base.s]);
    MoveMarksNothing(v, t, v.threads[t].base.s, ThreadEffect(v, t));
    MoveKeeps(v, t, v.threads[t].base.s, ThreadEffect(v, t));
  }

  lemma NoSessionKeeps(v: State, t: nat)
    requires Inv(v) && CanAdvance(v, t) && v.threads[t].call.Cancel?
    requires Focus(v, v.threads[t]) == |v.sessions|
    ensures Inv(Next(v, Advance(t)))
  {
    assert ThreadOk(v, t);
    TouchKeeps(v, Next(v, Advance(t)), t, |v.sessions|);
  }

  /** A step of `cancelRequest` after the lookup keeps the invariant if it is what `LookedUp` allows. */
  lemma LookedUpStep(v: State, t: nat, s: nat, pc: CancelPc, ss': Session)
    requires Inv(v) && CanAdvance(v, t) && LookedUp(v, t, s, pc, ss') && Focus(v, v.threads[t]) == s
    requires
      var th := v.threads[t];
      CancelEffect(v, t, th, v.sessions[s]) == Effect(th.(call := Cancel(th.call.id, pc)), ss', v.tableOwner, v.table)
    ensures Inv(Next(v, Advance(t)))
  {
    LookedUpKeeps(v, t, s, pc, ss');
  }

  lemma LookupKeeps(v: State, t: nat)
    requires Inv(v) && CanAdvance(v, t) && v.threads[t].call.Cancel?
    requires v.threads[t].call.cpc.Searching? && v.threads[t].call.id in v.table
    ensures Inv(Next(v, Advance(t)))
  {
    var s := v.table[v.threads[t].call.id];
    assert ThreadOk(v, t) && SessionsOk(v, s);
    LookedUpStep(v, t, s, Contending(s), v.sessions[s].(found := v.sessions[s].found + 1));
  }

  lemma ContendingKeeps(v: State, t: nat)
    requires Inv(v) && CanAdvance(v, t) && v.threads[t].call.Cancel?
    requires v.threads[t].call.cpc.Contending?
    ensures Inv(Next(v, Advance(t)))
  {
    var s := v.threads[t].call.cpc.s;
    assert ThreadOk(v, t) && SessionsOk(v, s);
    LookedUpStep(v, t, s, Guarding(s), v.sessions[s].(guard := Some(t)));
  }

  lemma GuardingKeeps(v: State, t: nat)
    requires Inv(v) && CanAdvance(v, t) && v.threads[t].call.Cancel?
    requires v.threads[t].call.cpc.Guarding?
    ensures Inv(Next(v, Advance(t)))
  {
    var s := v.threads[t].call.cpc.s;
    assert ThreadOk(v, t) && SessionsOk(v, s);
    LookedUpStep(v, t, s, Marked(s), v.sessions[s].(cancelled := true, marks := v.sessions[s].marks + 1));
  }

  lemma MarkedKeeps(v: State, t: nat)
    requires Inv(v) && CanAdvance(v, t) && v.threads[t].call.Cancel?
    requires v.threads[t].call.cpc.Marked?
    ensures Inv(Next(v, Advance(t)))
  {
    var s := v.threads[t].call.cpc.s;
    assert ThreadOk(v, t) && SessionsOk(v, s);
    LookedUpStep(v, t, s, Leaving, v.sessions[s].(guard := None));
  }

  lemma SubmitMoves(v: State, t: nat)
    requires Inv(v) && CanAdvance(v, t) && v.threads[t].call.Submit?
    ensures Move(v, t, v.threads[t].call.s, ThreadEffect(v, t))
  {
    assert ThreadOk(v, t) && SessionsOk(v, v.threads[t].call.s);
  }

  lemma SubmitLeavesOk(v: State, t: nat)
    requires Inv(v) && CanAdvance(v, t) && v.threads[t].call.Submit?
    ensures
      var s, w := v.threads[t].call.s, Next(v, Advance(t));
      t < |w.threads| && s < |w.sessions| && ThreadOk(w, t) && SessionsOk(w, s)
  {
    assert ThreadOk(v, t) && SessionsOk(v, v.threads[t].call.s);
  }

  lemma SubmitKeeps(v: State, t: nat)
    requires Inv(v) && CanAdvance(v, t) && v.threads[t].call.Submit?
    ensures Inv(Next(v, Advance(t)))
  {
    SubmitMoves(v, t);
    SubmitLeavesOk(v, t);
    MoveKeeps(v, t, v.threads[t].call.s, ThreadEffect(v, t));
  }

  lemma NobodyKnowsNewSession(v: State, u: nat)
    requires Inv(v) && u < |v.threads|
    ensures !HoldsGuard(v.threads[u], |v.sessions|)
    ensures !AboutToMark(v, |v.sessions|)
  {
    assert ThreadOk(v, u);
    if v.tableOwner.Some? { assert ThreadOk(v, v.tableOwner.value); }
  }

  lemma BeginSubmitKeepsLocks(v: State, t: nat, id: int)
    requires Inv(v) && Enabled(v, BeginSubmit(t, id))
    ensures LocksOk(Next(v, BeginSubmit(t, id)))
  {
    var w := Next(v, BeginSubmit(t, id));
    forall u | 0 <= u < |v.threads| ensures !HoldsGuard(w.threads[u], |v.sessions|) { NobodyKnowsNewSession(v, u); }
  }

  lemma BeginSubmitKeeps(v: State, t: nat, id: int)
    requires Inv(v) && Enabled(v, BeginSubmit(t, id))
    ensures Inv(Next(v, BeginSubmit(t, id)))
  {
    var w := Next(v, BeginSubmit(t, id));
    BeginSubmitKeepsLocks(v, t, id);
    NobodyKnowsNewSession(v, t);
    forall u | 0 <= u < |w.threads| ensures ThreadOk(w, u) { assert ThreadOk(v, u); }
    forall r | 0 <= r < |w.sessions| ensures SessionsOk(w, r) { if r < |v.sessions| { assert SessionsOk(v, r); } }
  }

  lemma BeginCallKeeps(v: State, a: Action)
    requires Inv(v) && Enabled(v, a) && (a.BeginCancel? || a.BeginClose?)
    ensures Inv(Next(v, a))
  {
    assert ThreadOk(v, a.t);
    TouchKeeps(v, Next(v, a), a.t, |v.sessions|);
  }

  lemma FinishCloseKeeps(v: State, t: nat)
    requires Inv(v) && Enabled(v, FinishClose(t))
    ensures Inv(Next(v, FinishClose(t)))
  {
    var u :| 0 <= u < |v.threads| && !v.threads[u].base.UserCode?;
    assert ThreadOk(v, u) && ThreadOk(v, t);
    TouchKeeps(v, Next(v, FinishClose(t)), t, |v.sessions|);
  }

  lemma DispatchTouches(v: State, t: nat, s: nat, ec: ErrorCode, line: string)
    requires Inv(v) && Enabled(v, Dispatch(t, s, ec, line))
    ensures
      var w := Next(v, Dispatch(t, s, ec, line));
      Touches(v, w, t, s) && LockTouch(v, w, t, s) && TableTouch(v, w, t, s)
  {
    assert ThreadOk(v, t);
  }

  lemma OneMoreCompletion(op: Operation, history: seq<Completion>, c: Completion)
    requires Before(op, history) && c.op == op
    ensures UpTo(op, history + [c]) && (history + [c])[|history + [c]| - 1] == c
  {
    assert (history + [c])[..|history|] == history;
  }

  lemma DispatchedThreadOk(v: State, t: nat, s: nat, ec: ErrorCode, line: string)
    requires Inv(v) && Enabled(v, Dispatch(t, s, ec, line))
    ensures ThreadOk(Next(v, Dispatch(t, s, ec, line)), t)
  {
  }

  lemma DispatchedSessionOk(v: State, t: nat, s: nat, ec: ErrorCode, line: string)
    requires Inv(v) && Enabled(v, Dispatch(t, s, ec, line))
    ensures SessionOk(Next(v, Dispatch(t, s, ec, line)), s)
  {
    assert SessionsOk(v, s);
    OneMoreCompletion(v.sessions[s].stage.op, v.sessions[s].completions, Completion(v.sessions[s].stage.op, ec, line));
  }

  lemma DispatchedCancelOk(v: State, t: nat, s: nat, ec: ErrorCode, line: string)
    requires Inv(v) && Enabled(v, Dispatch(t, s, ec, line))
    ensures CancelOk(Next(v, Dispatch(t, s, ec, line)), s) && LateOk(Next(v, Dispatch(t, s, ec, line)), s)
  {
    assert ThreadOk(v, t) && SessionsOk(v, s);
  }

  lemma DispatchKeeps(v: State, t: nat, s: nat, ec: ErrorCode, line: string)
    requires Inv(v) && Enabled(v, Dispatch(t, s, ec, line))
    ensures Inv(Next(v, Dispatch(t, s, ec, line)))
  {
    DispatchTouches(v, t, s, ec, line);
    DispatchedThreadOk(v, t, s, ec, line);
    DispatchedSessionOk(v, t, s, ec, line);
    DispatchedCancelOk(v, t, s, ec, line);
    TouchKeeps(v, Next(v, Dispatch(t, s, ec, line)), t, s);
  }

  lemma StopKeeps(v: State)
    requires Inv(v) && Enabled(v, StopService)
    ensures Inv(Next(v, StopService))
  {
    var w := Next(v, StopService);
    forall u | 0 <= u < |w.threads| ensures ThreadOk(w, u) { assert ThreadOk(v, u); }
    forall r | 0 <= r < |w.sessions| ensures SessionsOk(w, r) { assert SessionsOk(v, r); }
  }

  lemma ExitKeeps(v: State, t: nat)
    requires Inv(v) && Enabled(v, ExitWorker(t))
    ensures Inv(Next(v, ExitWorker(t)))
  {
    assert ThreadOk(v, t);
    TouchKeeps(v, Next(v, ExitWorker(t)), t, |v.sessions|);
  }

  lemma AdvanceKeeps(v: State, t: nat)
    requires Inv(v) && CanAdvance(v, t)
    ensures Inv(Next(v, Advance(t)))
  {
    var th := v.threads[t];
    assert ThreadOk(v, t);
    if th.call.Submit? {
      SubmitKeeps(v, t);
    } else if th.call.Cancel? {
      match th.call.cpc
      case Searching => if th.call.id in v.table { LookupKeeps(v, t); } else { NoSessionKeeps(v, t); }
      case Contending(_) => ContendingKeeps(v, t);
      case Guarding(_) => GuardingKeeps(v, t);
      case Marked(_) => MarkedKeeps(v, t);
      case _ => NoSessionKeeps(v, t);
    } else {
      HandlerKeeps(v, t);
    }
  }

  /** Every step keeps the invariant. */
  lemma NextKeeps(v: State, a: Action)
    requires Inv(v) && Enabled(v, a)
    ensures Inv(Next(v, a))
  {
    match a
    case BeginSubmit(t, id) => BeginSubmitKeeps(v, t, id);
    case BeginCancel(_, _) => BeginCallKeeps(v, a);
    case BeginClose(_) => BeginCallKeeps(v, a);
    case FinishClose(t) => FinishCloseKeeps(v, t);
    case Dispatch(t, s, ec, line) => DispatchKeeps(v, t, s, ec, line);
    case Advance(t) => AdvanceKeeps(v, t);
    case Return(t) => HandlerKeeps(v, t);
    case StopService => StopKeeps(v);
    case ExitWorker(t) => ExitKeeps(v, t);
  }

  lemma StepKeeps(v: State, w: State)
    requires Inv(v) && IsStep(v, w)
    ensures Inv(w)
  {
    var a :| Enabled(v, a) && w == Next(v, a);
    NextKeeps(v, a);
  }

  /** The invariant holds in every state of every run that starts in an initial state. */
  lemma {:induction false} RunInv(run: seq<State>, i: nat)
    requires IsRun(run) && (Init(run[0]) || Inv(run[0])) && i < |run|
    ensures Inv(run[i])
  {
    if i == 0 {
      if Init(run[0]) { InitInv(run[0]); }
    } else {
      RunInv(run, i - 1);
      assert IsStep(run[i - 1], run[i - 1 + 1]);
      StepKeeps(run[i - 1], run[i]);
    }
  }
}
