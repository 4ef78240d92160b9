/** The life of a listener handle that `listen2` has opened: start, stop, close, death of
    the owner, MsQuic's STOP_COMPLETE callback and resource deallocation
    (c_src/quicer_listener.c, c_src/quicer_nif.c, c_src/quicer_ctx.c).

    A step is one critical section of the listener lock, or one stretch of
    `close_listener1` after it has released the lock. */
module Listener {
  import opened Runs

  // Where a close_listener1 call is after its critical section; `destroy` is its local
  // is_destroy.
  datatype Closing = ToClose(destroy: bool) | ToDestroy(destroy: bool)

  datatype State = State(
    // QuicerListenerCTX
    listener: bool,            // Listener != NULL
    isClosed: bool,
    isStopped: bool,
    // MsQuic
    running: bool,
    closeCalls: nat,           // calls of ListenerClose
    // resource
    destroys: nat,             // runs of destroy_l_ctx, which releases the own reference
    terms: nat,                // live Erlang terms
    freed: bool,
    // calls in progress, and whether the assertion in STOP_COMPLETE has held
    calls: map<nat, Closing>,
    assertOk: bool,
    // history: {quic, listener_stopped, Listener} messages to the owner
    reports: nat)

  function Opened(): State {
    State(true, false, false, true, 0, 0, 1, false, map[], true, 0)
  }

  // STOP_COMPLETE: reported to the owner with a new term; destroys a closing listener.
  function StopComplete(s: State): State {
    var t := s.(running := false, terms := s.terms + 1, reports := s.reports + 1);
    if t.listener then t else t.(assertOk := t.assertOk && !t.isStopped, destroys := t.destroys + 1)
  }

  // MsQuic->ListenerStop
  function MsStop(s: State): State {
    if s.running then StopComplete(s) else s
  }

  // MsQuic->ListenerClose stops a running listener first.
  function MsClose(s: State): State {
    var t := if s.running then StopComplete(s) else s;
    t.(closeCalls := t.closeCalls + 1)
  }

  // start_listener3; ListenerStart refuses a running listener.
  function Start(s: State, ok: bool): State {
    if s.listener && ok && !s.running then s.(running := true, isStopped := false) else s
  }

  // stop_listener1
  function Stop(s: State): State {
    if s.listener && !s.isStopped then MsStop(s.(isStopped := true)) else s
  }

  // resource_listener_down_callback
  function Down(s: State): State {
    if !s.isClosed && !s.isStopped && s.listener then MsStop(s.(isStopped := true)) else s
  }

  // close_listener1 under the lock
  function CloseBegin(s: State, call: nat): State {
    if s.isClosed || call in s.calls then s
    else s.(listener := false, isClosed := true, calls := s.calls[call := ToClose(s.isStopped)])
  }

  // close_listener1 after the lock: ListenerClose, then perhaps destroy_l_ctx
  function CloseCall(s: State, call: nat): State {
    if call in s.calls && s.calls[call].ToClose? then
      MsClose(s).(calls := s.calls[call := ToDestroy(s.calls[call].destroy)])
    else s
  }

  function CloseEnd(s: State, call: nat): State {
    if call in s.calls && s.calls[call].ToDestroy? then
      s.(calls := s.calls - {call}, destroys := if s.calls[call].destroy then s.destroys + 1 else s.destroys)
    else s
  }

  function Refs(s: State): int {
    1 - s.destroys + s.terms
  }

  // A term is copied or collected; a call in progress keeps its argument alive.
  function DropTerm(s: State): State {
    if s.terms > |s.calls| then s.(terms := s.terms - 1) else s
  }

  // resource_listener_dealloc_callback
  function Dealloc(s: State): State {
    if !s.freed && Refs(s) == 0 then
      (if !s.isClosed && s.listener then MsClose(s) else s).(freed := true)
    else s
  }

  datatype Step =
    | DoStart(ok: bool)
    | DoStop
    | DoDown
    | DoCloseBegin(call: nat)
    | DoCloseCall(call: nat)
    | DoCloseEnd(call: nat)
    | CopyTerm
    | DoDropTerm
    | DoDealloc

  // Only a process that holds a term can call a NIF.
  function Next(s: State, step: Step): State {
    match step
    case DoStart(ok) => if s.terms > 0 then Start(s, ok) else s
    case DoStop => if s.terms > 0 then Stop(s) else s
    case DoDown => if !s.freed then Down(s) else s
    case DoCloseBegin(call) => if s.terms > |s.calls| then CloseBegin(s, call) else s
    case DoCloseCall(call) => CloseCall(s, call)
    case DoCloseEnd(call) => CloseEnd(s, call)
    case CopyTerm => if s.terms > 0 then s.(terms := s.terms + 1) else s
    case DoDropTerm => DropTerm(s)
    case DoDealloc => Dealloc(s)
  }

  // ---------------------------------------------------------------- what every step keeps

  // The stages of a handle: open, being closed by one call, closed.
  ghost predicate Inv(s: State) {
    && s.assertOk
    && s.listener == !s.isClosed
    && |s.calls| <= s.terms
    && (s.freed ==> Refs(s) == 0 && s.isClosed)
    && (s.listener ==> s.calls == map[] && s.closeCalls == 0 && s.destroys == 0 && s.isStopped == !s.running)
    && (!s.listener ==>
          || (exists c :: s.calls == map[c := ToClose(s.isStopped)]
                          && s.closeCalls == 0 && s.destroys == 0 && s.isStopped == !s.running)
          || (exists c :: s.calls == map[c := ToDestroy(s.isStopped)]
                          && s.closeCalls == 1 && !s.running && s.destroys == if s.isStopped then 0 else 1)
          || (s.calls == map[] && s.closeCalls == 1 && !s.running && s.destroys == 1))
  }

  lemma CloseInv(s: State, step: Step)
    requires Inv(s) && (step.DoCloseBegin? || step.DoCloseCall? || step.DoCloseEnd?)
    ensures Inv(Next(s, step))
  {
    match step {
      case DoCloseBegin(call) =>
        if s.terms > |s.calls| && !s.isClosed {
          assert Next(s, step).calls == map[call := ToClose(s.isStopped)];
        }
      case DoCloseCall(call) =>
        if call in s.calls && s.calls[call].ToClose? {
          assert s.calls == map[call := ToClose(s.isStopped)];
          assert Next(s, step).calls == map[call := ToDestroy(s.isStopped)];
        }
      case DoCloseEnd(call) =>
        if call in s.calls && s.calls[call].ToDestroy? {
          assert s.calls == map[call := ToDestroy(s.isStopped)];
          assert Next(s, step).calls == map[];
        }
    }
  }

  lemma NextInv(s: State, step: Step)
    requires Inv(s)
    ensures Inv(Next(s, step))
  {
    if step.DoCloseBegin? || step.DoCloseCall? || step.DoCloseEnd? {
      CloseInv(s, step);
    }
  }

  function Run(t: Trace<Step>): State {
    match t
    case Begin => Opened()
    case Then(before, step) => Next(Run(before), step)
  }

  lemma {:induction false} RunInv(t: Trace<Step>)
    ensures Inv(Run(t))
  {
    if t.Then? {
      RunInv(t.before);
      NextInv(Run(t.before), t.step);
    }
  }

  // Across all interleavings: destroy_l_ctx runs at most once, and exactly once when a
  // close has completed; ListenerClose is called at most once; the assertion in
  // STOP_COMPLETE never fails; the memory outlives every call that still needs it.
  lemma ClosedExactlyOnce(t: Trace<Step>)
    ensures var s := Run(t);
            && s.destroys <= 1 && s.closeCalls <= 1 && s.assertOk
            && (s.isClosed && s.calls == map[] ==> s.destroys == 1 && s.closeCalls == 1)
            && (s.freed ==> s.destroys == 1 && s.terms == 0 && s.calls == map[])
  {
    RunInv(t);
  }

  // Deallocation finds the listener closed: the ListenerClose in the deallocation callback
  // is never reached for an opened listener. Once no term is left, the listener can be
  // deallocated if and only if it has been closed; one that nobody closes is never freed.
  lemma FreedOnlyAfterClose(t: Trace<Step>)
    ensures var s := Run(t);
            && (Refs(s) == 0 ==> s.isClosed && Dealloc(s).closeCalls == s.closeCalls)
            && (!s.isClosed ==> Refs(s) > 0 && !s.freed)
            && (s.terms == 0 ==> (Refs(s) == 0 <==> s.isClosed))
            && (Next(s, DoDealloc).freed <==> s.terms == 0 && s.isClosed)
  {
    RunInv(t);
    ClosedExactlyOnce(t);
  }

  // ---------------------------------------------------------------- running and stopped

  // The latest call or event that had a say was a successful start: the listener is opened
  // running, and a call needs a term.
  predicate LatestIsStart(t: Trace<Step>) {
    match t
    case Begin => true
    case Then(before, step) =>
      match step
      case DoStart(ok) => (ok && Run(before).terms > 0) || LatestIsStart(before)
      case DoStop => Run(before).terms == 0 && LatestIsStart(before)
      case DoDown => false
      case _ => LatestIsStart(before)
  }

  // Some close call got past its check.
  predicate SomeClose(t: Trace<Step>) {
    t.Then? && (SomeClose(t.before)
                || (t.step.DoCloseBegin? && Run(t.before).terms > |Run(t.before).calls|))
  }

  lemma OpenRuns(s: State, step: Step)
    requires Inv(s) && Next(s, step).listener
    ensures s.listener && !s.freed
    ensures var r := Next(s, step).running;
            match step
            case DoStart(ok) => r <==> (ok && s.terms > 0) || s.running
            case DoStop => r <==> s.terms == 0 && s.running
            case DoDown => !r
            case _ => r <==> s.running
  {
    NextInv(s, step);
  }

  // Over every run that leaves the listener open: it is running if and only if it was started
  // after the last stop and the owner's death, and `is_stopped` says the opposite.
  lemma {:induction false} RunningIffStarted(t: Trace<Step>)
    requires Run(t).listener
    ensures Run(t).running <==> LatestIsStart(t)
    ensures Run(t).isStopped <==> !LatestIsStart(t)
  {
    RunInv(t);
    if t.Then? {
      RunInv(t.before);
      OpenRuns(Run(t.before), t.step);
      RunningIffStarted(t.before);
    }
  }

  lemma CloseIsFinal(s: State, step: Step)
    requires Inv(s)
    ensures Next(s, step).isClosed <==> s.isClosed || (step.DoCloseBegin? && s.terms > |s.calls|)
  {
    NextInv(s, step);
  }

  // And a handle is closed if and only if some process that held it called close.
  lemma {:induction false} ClosedIffSomeClose(t: Trace<Step>)
    ensures Run(t).isClosed <==> SomeClose(t)
  {
    if t.Then? {
      RunInv(t.before);
      ClosedIffSomeClose(t.before);
      CloseIsFinal(Run(t.before), t.step);
    }
  }

  // How often the listener has gone from running to stopped.
  function Stops(t: Trace<Step>): nat {
    match t
    case Begin => 0
    case Then(before, step) => Stops(before) + if Run(before).running && !Run(t).running then 1 else 0
  }

  lemma StepReports(s: State, step: Step)
    requires Inv(s)
    ensures Next(s, step).reports == s.reports + if s.running && !Next(s, step).running then 1 else 0
  {
  }

  // Every stop is reported to the owner, once, and nothing else is.
  lemma {:induction false} EveryStopIsReported(t: Trace<Step>)
    ensures Run(t).reports == Stops(t)
  {
    if t.Then? {
      EveryStopIsReported(t.before);
      RunInv(t.before);
      StepReports(Run(t.before), t.step);
    }
  }

  // Terms that processes have copied, less those they have dropped.
  function Copied(t: Trace<Step>): int {
    match t
    case Begin => 0
    case Then(before, step) =>
      var s := Run(before);
      Copied(before) +
      match step
      case CopyTerm => if s.terms > 0 then 1 else 0
      case DoDropTerm => if s.terms > |s.calls| then -1 else 0
      case _ => 0
  }

  lemma StepTerms(s: State, step: Step)
    requires Inv(s)
    ensures Next(s, step).terms == s.terms
              + (if s.running && !Next(s, step).running then 1 else 0)
              + match step
                case CopyTerm => if s.terms > 0 then 1 else 0
                case DoDropTerm => if s.terms > |s.calls| then -1 else 0
                case _ => 0
  {
  }

  // The terms are that of listen, one for every report, and those the processes made: so
  // a handle is kept alive by each report too, until its receiver drops it.
  lemma {:induction false} TermsAreCounted(t: Trace<Step>)
    ensures Run(t).terms == 1 + Stops(t) + Copied(t)
  {
    if t.Then? {
      TermsAreCounted(t.before);
      RunInv(t.before);
      StepTerms(Run(t.before), t.step);
    }
  }

  // A close call that has got past its check ends with its two further stretches, whatever
  // happens in between: ListenerClose has been called, destroy_l_ctx has run, and the memory
  // goes with the last term.
  lemma CallsEnd(t: Trace<Step>, call: nat)
    requires call in Run(t).calls
    ensures var s := Run(t);
            if s.calls[call].ToClose? then
              && call in Next(s, DoCloseCall(call)).calls
              && Next(s, DoCloseCall(call)).calls[call].ToDestroy? && Next(s, DoCloseCall(call)).closeCalls == 1
            else call !in Next(s, DoCloseEnd(call)).calls && Next(s, DoCloseEnd(call)).destroys == 1
  {
    RunInv(t);
    NextInv(Run(t), DoCloseCall(call));
    NextInv(Run(t), DoCloseEnd(call));
  }

  // ---------------------------------------------------------------- the object

  /** QuicerListenerCTX with its MsQuic handle, one method per critical section. */
  class ListenerCtx {
    var listener: bool
    var isClosed: bool
    var isStopped: bool
    var running: bool
    var closeCalls: nat
    var destroys: nat
    var terms: nat
    var assertOk: bool
    ghost var reports: nat

    // The state, given the calls in progress.
    ghost function Value(freed: bool, calls: map<nat, Closing>): State
      reads this
    {
      State(listener, isClosed, isStopped, running, closeCalls, destroys, terms, freed, calls, assertOk, reports)
    }

    constructor ()
      ensures Value(false, map[]) == Opened()
    {
      listener, isClosed, isStopped, running := true, false, false, true;
      closeCalls, destroys, terms, assertOk, reports := 0, 0, 1, true, 0;
    }

    method OnStopComplete()
      modifies this
      ensures forall f, cs :: Value(f, cs) == StopComplete(old(Value(f, cs)))
    {
      running := false;
      terms := terms + 1;
      reports := reports + 1;
      if !listener {
        assertOk := assertOk && !isStopped;
        destroys := destroys + 1;
      }
    }

    method ListenerStop()
      modifies this
      ensures forall f, cs :: Value(f, cs) == MsStop(old(Value(f, cs)))
    {
      if running {
        OnStopComplete();
      }
    }

    method ListenerClose()
      modifies this
      ensures forall f, cs :: Value(f, cs) == MsClose(old(Value(f, cs)))
    {
      if running {
        OnStopComplete();
      }
      closeCalls := closeCalls + 1;
    }

    method StartListener(ok: bool)
      modifies this
      ensures forall f, cs :: Value(f, cs) == Start(old(Value(f, cs)), ok)
    {
      if !listener {
        return;
      }
      if ok && !running {
        running := true;
        isStopped := false;
      }
    }

    method StopListener()
      modifies this
      ensures forall f, cs :: Value(f, cs) == Stop(old(Value(f, cs)))
    {
      if listener && !isStopped {
        isStopped := true;
        ListenerStop();
      }
    }

    method OnDown()
      modifies this
      ensures forall f, cs :: Value(f, cs) == Down(old(Value(f, cs)))
    {
      if !isClosed && !isStopped && listener {
        isStopped := true;
        ListenerStop();
      }
    }

    // close_listener1 when no other call runs in between.
    method CloseListener() returns (ok: bool)
      modifies this
      ensures ok == !old(isClosed)
      ensures var s := old(Value(false, map[]));
              Value(false, map[]) == if ok then CloseEnd(CloseCall(CloseBegin(s, 0), 0), 0) else s
    {
      if isClosed {
        return false;
      }
      listener := false;
      isClosed := true;
      var isDestroy := isStopped;
      ghost var begun := CloseBegin(old(Value(false, map[])), 0);
      assert begun == Value(false, map[0 := ToClose(isDestroy)]);
      ListenerClose();
      ghost var called := CloseCall(begun, 0);
      assert called == Value(false, map[0 := ToDestroy(isDestroy)]);
      if isDestroy {
        destroys := destroys + 1;
      }
      ok := true;
      assert called.calls - {0} == map[];
    }
  }
}
