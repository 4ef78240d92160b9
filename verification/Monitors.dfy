/** Who is watched as the owner of a connection or stream: the monitors set when a client
    connects and when a connection is established (c_src/quicer_connection.c), moved by
    controlling_process, and the down callback that shuts the connection
    (c_src/quicer_nif.c).

    controlling_process and the CONNECTED callback hold the context lock; the down callback
    does not, so a transfer is split into the steps such a callback can fall between. A
    server's connection goes through the same steps except StartClient, a stream also
    without CONNECTED. */
module Monitors {
  import opened Runs

  // Where controlling_process is: nowhere; new pid written; old monitor cancelled; new
  // owner found dead; old pid restored.
  datatype Flight =
    | Idle
    | Chosen(caller: nat)
    | Unwatched(caller: nat)
    | Refused(caller: nat)
    | Restored(caller: nat)

  datatype State = State(
    owner: nat,                  // c_ctx->owner->Pid
    mon: nat,                    // c_ctx->owner_mon; 0 until set
    started: bool,               // async_connect3 has monitored its caller
    connected: bool,
    destroyed: bool,
    shut: bool,                  // ConnectionShutdown called by a down callback
    flight: Flight,
    // the Erlang runtime: dead processes, monitors in force, triggered monitors whose
    // callback is still to run, and the next monitor to be handed out
    dead: set<nat>,
    mons: map<nat, nat>,
    fired: map<nat, nat>,
    next: nat,
    // history: the processes ever monitored; a callback shut the connection under a live
    // owner
    seen: set<nat>,
    wrongful: bool)

  function Init(owner: nat, dead: set<nat>): State {
    State(owner, 0, false, false, false, false, Idle, dead, map[], map[], 1, {}, false)
  }

  // The owner at the last point where the lock was free.
  function Settled(s: State): nat {
    if s.flight.Idle? then s.owner else s.flight.caller
  }

  // enif_monitor_process: refused for a dead process.
  function Monitor(s: State): State {
    if s.owner in s.dead then s
    else s.(mons := s.mons[s.next := s.owner], mon := s.next, next := s.next + 1, seen := s.seen + {s.owner})
  }

  // enif_demonitor_process: no effect on a monitor unknown or already triggered.
  function Demonitor(s: State): State {
    s.(mons := s.mons - {s.mon})
  }

  // handle_connection_event_connected: the result of the monitor call is not looked at.
  function Connected(s: State): State {
    if s.connected || s.destroyed || !s.flight.Idle? then s
    else Monitor(s).(connected := true)
  }

  // The end of async_connect3, whose caller is the owner; neither does it look.
  function StartClient(s: State): State {
    if s.started || s.destroyed || !s.flight.Idle? then s
    else Monitor(s).(started := true)
  }

  function Choose(s: State, caller: nat, target: nat): State {
    if !s.flight.Idle? || caller != s.owner || caller in s.dead then s
    else s.(owner := target, flight := Chosen(caller))
  }

  // The next step of the controlling_process call under way.
  function Proceed(s: State): State {
    match s.flight
    case Idle => s
    case Chosen(caller) => Demonitor(s).(flight := Unwatched(caller))
    case Unwatched(caller) =>
      if s.owner in s.dead then s.(flight := Refused(caller)) else Monitor(s).(flight := Idle)
    case Refused(caller) => s.(owner := caller, flight := Restored(caller))
    case Restored(caller) => Monitor(s).(flight := Idle)
  }

  // A process ends: each monitor on it is triggered. A process inside a call does not end.
  function Die(s: State, p: nat): State {
    if p in s.dead || (!s.flight.Idle? && s.flight.caller == p) then s
    else
      s.(dead := s.dead + {p},
         fired := s.fired + (map m | m in s.mons && s.mons[m] == p :: p),
         mons := map m | m in s.mons && s.mons[m] != p :: s.mons[m])
  }

  // resource_conn_down_callback, for the triggered monitor m
  function Down(s: State, m: nat): State {
    if m !in s.fired then s
    else
      var t := s.(fired := s.fired - {m});
      if s.fired[m] != s.owner then t
      else t.(shut := true, wrongful := s.wrongful || Settled(s) !in s.dead)
  }

  // destroy_c_ctx
  function Destroy(s: State): State {
    if s.destroyed then s else Demonitor(s).(destroyed := true)
  }

  datatype Step =
    | DoStartClient
    | DoConnected
    | DoChoose(caller: nat, target: nat)
    | DoProceed
    | DoDie(p: nat)
    | DoDown(m: nat)
    | DoDestroy

  function Next(s: State, step: Step): State {
    match step
    case DoStartClient => StartClient(s)
    case DoConnected => Connected(s)
    case DoChoose(caller, target) => Choose(s, caller, target)
    case DoProceed => Proceed(s)
    case DoDie(p) => Die(s, p)
    case DoDown(m) => Down(s, m)
    case DoDestroy => Destroy(s)
  }

  function Run(s: State, run: Trace<Step>): State {
    match run
    case Begin => s
    case Then(before, step) => Next(Run(s, before), step)
  }

  // ---------------------------------------------------------------- the owner is watched

  ghost predicate Runtime(s: State) {
    && s.mon < s.next
    && (forall m :: m in s.mons ==> 0 < m < s.next && s.mons[m] !in s.dead && s.mons[m] in s.seen)
    && (forall m :: m in s.fired ==> 0 < m < s.next && s.fired[m] in s.dead && s.fired[m] in s.seen && m !in s.mons)
    && (s.flight.Idle? || s.flight.caller !in s.dead)
    && (s.seen == {} ==> s.mon == 0 && !s.shut)
  }

  // p, if alive, is monitored by owner_mon; if dead, the callback is due or has run.
  ghost predicate Guarded(s: State, p: nat) {
    if p in s.dead then s.shut || (s.mon in s.fired && s.fired[s.mon] == p)
    else s.mon in s.mons && s.mons[s.mon] == p
  }

  ghost predicate Inv(s: State) {
    && Runtime(s)
    && (s.seen != {} && !s.destroyed && (s.flight.Idle? || s.flight.Chosen?) ==> Guarded(s, Settled(s)))
    && (s.flight.Unwatched? ==> s.mon !in s.mons)
    && (s.flight.Restored? ==> s.owner == s.flight.caller)
    && (s.connected && s.seen == {} ==> s.flight.Idle? && s.owner in s.dead)
  }

  lemma ConnectedInv(s: State)
    requires Inv(s)
    ensures Inv(Connected(s))
  {
  }

  lemma StartClientInv(s: State)
    requires Inv(s)
    ensures Inv(StartClient(s))
  {
  }

  lemma ChooseInv(s: State, caller: nat, target: nat)
    requires Inv(s)
    ensures Inv(Choose(s, caller, target))
  {
  }

  lemma MonitorRuntime(s: State)
    requires Runtime(s)
    ensures Runtime(Monitor(s)) && (s.owner !in s.dead ==> Guarded(Monitor(s), s.owner))
  {
  }

  lemma MonitorInv(s: State)
    requires Runtime(s) && (s.flight.Unwatched? || s.flight.Restored?) && s.owner !in s.dead
    ensures Inv(Monitor(s).(flight := Idle))
  {
    MonitorRuntime(s);
  }

  lemma ChosenInv(s: State)
    requires Inv(s) && s.flight.Chosen?
    ensures Inv(Proceed(s))
  {
  }

  lemma RefusedInv(s: State)
    requires Inv(s) && (s.flight.Refused? || (s.flight.Unwatched? && s.owner in s.dead))
    ensures Inv(Proceed(s))
  {
  }

  lemma ProceedInv(s: State)
    requires Inv(s)
    ensures Inv(Proceed(s))
  {
    match s.flight
    case Idle =>
    case Chosen(_) => ChosenInv(s);
    case Unwatched(_) => if s.owner in s.dead { RefusedInv(s); } else { MonitorInv(s); }
    case Refused(_) => RefusedInv(s);
    case Restored(_) => MonitorInv(s);
  }

  lemma DieInv(s: State, p: nat)
    requires Inv(s)
    ensures Inv(Die(s, p))
  {
  }

  lemma Without(a: map<nat, nat>, m: nat)
    ensures forall k :: k in a - {m} ==> k in a && (a - {m})[k] == a[k]
  {
  }

  lemma DownRuntime(s: State, m: nat)
    requires Runtime(s)
    ensures Runtime(Down(s, m))
  {
    if m in s.fired {
      Without(s.fired, m);
      assert s.seen != {};
    }
  }

  lemma DownInv(s: State, m: nat)
    requires Inv(s)
    ensures Inv(Down(s, m))
  {
    DownRuntime(s, m);
  }

  lemma NextInv(s: State, step: Step)
    requires Inv(s)
    ensures Inv(Next(s, step))
  {
    match step
    case DoStartClient => StartClientInv(s);
    case DoConnected => ConnectedInv(s);
    case DoChoose(caller, target) => ChooseInv(s, caller, target);
    case DoProceed => ProceedInv(s);
    case DoDie(p) => DieInv(s, p);
    case DoDown(m) => DownInv(s, m);
    case DoDestroy =>
  }

  lemma {:induction false} RunInv(s: State, run: Trace<Step>)
    requires Inv(s)
    ensures Inv(Run(s, run))
  {
    match run
    case Begin =>
    case Then(before, step) => RunInv(s, before); NextInv(Run(s, before), step);
  }

  // Until destroyed, whenever the lock is free and a monitor was ever set, the owner is
  // monitored if alive, and if dead its callback is due or has shut the connection. This
  // includes the points after a transfer that was refused and rolled back.
  lemma OwnerIsGuarded(owner: nat, dead: set<nat>, run: Trace<Step>)
    requires var s := Run(Init(owner, dead), run); s.seen != {} && s.flight.Idle? && !s.destroyed
    ensures var s := Run(Init(owner, dead), run); Guarded(s, s.owner)
  {
    RunInv(Init(owner, dead), run);
  }

  lemma WatchedStep(s: State, step: Step)
    requires s.connected && (s.seen == {} ==> s.flight.Idle? && s.owner in s.dead)
    ensures Next(s, step).connected && (Next(s, step).seen == {} <==> s.seen == {})
  {
    match step
    case DoProceed => assert s.seen == {} ==> Proceed(s) == s;
    case DoDown(m) => assert Down(s, m).seen == s.seen;
    case _ =>
  }

  lemma {:induction false} WatchedOnwards(s: State, run: Trace<Step>)
    requires Inv(s) && s.connected
    ensures Run(s, run).connected && (Run(s, run).seen == {} <==> s.seen == {})
  {
    match run
    case Begin =>
    case Then(before, step) =>
      WatchedOnwards(s, before);
      RunInv(s, before);
      WatchedStep(Run(s, before), step);
  }

  // The owner's death shuts an established connection, once the callbacks due have run,
  // if and only if it was monitored or alive when the connection was established.
  lemma OwnerDeathShuts(owner: nat, dead: set<nat>, run: Trace<Step>, more: Trace<Step>)
    requires var s := Run(Init(owner, dead), run); !s.connected && !s.destroyed && s.flight.Idle?
    requires
      var t := Run(Connected(Run(Init(owner, dead), run)), more);
      t.flight.Idle? && !t.destroyed && t.owner in t.dead && t.fired == map[]
    ensures
      var s := Run(Init(owner, dead), run);
      var t := Run(Connected(s), more);
      t.shut <==> s.seen != {} || s.owner !in s.dead
  {
    var s := Run(Init(owner, dead), run);
    RunInv(Init(owner, dead), run);
    ConnectedInv(s);
    RunInv(Connected(s), more);
    WatchedOnwards(Connected(s), more);
  }

  // ---------------------------------------------------------------- whose death shuts

  // A down callback that falls into a controlling_process call and finds the dead process
  // it reports in the owner field, put there by the call.
  ghost predicate Mistakes(s: State, step: Step) {
    && step.DoDown? && step.m in s.fired && s.fired[step.m] == s.owner
    && !s.flight.Idle? && s.owner != s.flight.caller
  }

  ghost predicate SomeMistake(s: State, run: Trace<Step>) {
    run.Then? && (SomeMistake(s, run.before) || Mistakes(Run(s, run.before), run.step))
  }

  lemma StepWrongs(s: State, step: Step)
    requires Inv(s)
    ensures Next(s, step).wrongful <==> s.wrongful || Mistakes(s, step)
  {
    match step
    case DoDown(m) =>
    case DoProceed => assert Proceed(s).wrongful == s.wrongful;
    case _ =>
  }

  lemma {:induction false} RunWrongs(s: State, run: Trace<Step>)
    requires Inv(s)
    ensures Run(s, run).wrongful <==> s.wrongful || SomeMistake(s, run)
  {
    match run
    case Begin =>
    case Then(before, step) =>
      RunWrongs(s, before);
      RunInv(s, before);
      StepWrongs(Run(s, before), step);
  }

  // Over every run, however many monitors there are: a connection has been shut under a
  // live owner if and only if some callback made that mistake.
  lemma OnlyTheOwnersDeathShuts(owner: nat, dead: set<nat>, run: Trace<Step>)
    ensures Run(Init(owner, dead), run).wrongful <==> SomeMistake(Init(owner, dead), run)
  {
    RunWrongs(Init(owner, dead), run);
  }

  // While no call is in progress, a callback shuts the connection exactly when the owner is
  // the process it reports, which is dead.
  lemma IdleCallbackIsRight(owner: nat, dead: set<nat>, run: Trace<Step>, m: nat)
    requires var s := Run(Init(owner, dead), run); s.flight.Idle? && m in s.fired
    ensures var s := Run(Init(owner, dead), run);
            && Down(s, m).wrongful == s.wrongful
            && (Down(s, m).shut <==> s.shut || s.fired[m] == s.owner)
            && (s.fired[m] == s.owner ==> s.owner in s.dead)
  {
    RunInv(Init(owner, dead), run);
  }

  // A controlling_process call that gets past the check of its caller.
  predicate Starts(s: State, step: Step) {
    step.DoChoose? && s.flight.Idle? && step.caller == s.owner && step.caller !in s.dead
  }

  // No transfer to a process that was monitored before, other than to oneself.
  ghost predicate TargetsFresh(s: State, run: Trace<Step>) {
    match run
    case Begin => true
    case Then(before, step) =>
      TargetsFresh(s, before) &&
      (Starts(Run(s, before), step) ==> step.target == step.caller || step.target !in Run(s, before).seen)
  }

  ghost predicate FreshFlight(s: State) {
    s.flight.Idle? || s.owner == s.flight.caller || s.owner !in s.seen
  }

  lemma FreshStep(s: State, step: Step)
    requires Inv(s) && FreshFlight(s)
    requires Starts(s, step) ==> step.target == step.caller || step.target !in s.seen
    ensures FreshFlight(Next(s, step)) && !Mistakes(s, step)
  {
  }

  lemma {:induction false} FreshRun(s: State, run: Trace<Step>)
    requires Inv(s) && FreshFlight(s) && TargetsFresh(s, run)
    ensures FreshFlight(Run(s, run)) && !SomeMistake(s, run)
  {
    match run
    case Begin =>
    case Then(before, step) =>
      FreshRun(s, before);
      RunInv(s, before);
      FreshStep(Run(s, before), step);
  }

  // So a connection that is only handed to processes it never had as owners is not shut
  // under a live owner, on a client either.
  lemma NewOwnersAreSafe(owner: nat, dead: set<nat>, run: Trace<Step>)
    requires TargetsFresh(Init(owner, dead), run)
    ensures !Run(Init(owner, dead), run).wrongful
  {
    FreshRun(Init(owner, dead), run);
    RunWrongs(Init(owner, dead), run);
  }

  // ---------------------------------------------------------------- one call

  // A monitor on p is in force, or its callback is due.
  ghost predicate Reported(s: State, p: nat) {
    (exists m :: m in s.mons && s.mons[m] == p) || (exists m :: m in s.fired && s.fired[m] == p)
  }

  // Every step is taken during the call.
  ghost predicate DuringCall(s: State, run: Trace<Step>) {
    match run
    case Begin => true
    case Then(before, _) => DuringCall(s, before) && !Run(s, before).flight.Idle?
  }

  ghost predicate CanGoWrong(s: State) {
    exists run :: DuringCall(s, run) && SomeMistake(s, run)
  }

  // A call that hands to p, of which nobody will be told.
  ghost predicate CleanCall(s: State, p: nat) {
    !s.flight.Idle? ==>
      (if s.flight.Restored? then s.owner == s.flight.caller else s.owner == p) && !Reported(s, p)
  }

  lemma CleanDies(s: State, p: nat, q: nat)
    requires !s.flight.Idle? && CleanCall(s, p)
    ensures CleanCall(Die(s, q), p)
  {
    var t := Die(s, q);
    forall m | m in t.fired ensures t.fired[m] != p {
      assert m in s.fired || m in s.mons;
    }
  }

  lemma CleanDown(s: State, p: nat, m: nat)
    requires Inv(s) && !s.flight.Idle? && CleanCall(s, p)
    ensures CleanCall(Down(s, m), p) && !Mistakes(s, DoDown(m))
  {
    forall k | k in Down(s, m).fired ensures Down(s, m).fired[k] != p { assert k in s.fired; }
  }

  lemma DemonitorReports(s: State, p: nat)
    ensures Reported(Demonitor(s), p) ==> Reported(s, p)
  {
    Without(s.mons, s.mon);
  }

  lemma CleanProceed(s: State, p: nat)
    requires !s.flight.Idle? && CleanCall(s, p)
    ensures CleanCall(Proceed(s), p)
  {
    match s.flight
    case Chosen(caller) =>
      DemonitorReports(s, p);
      assert Reported(Proceed(s), p) <==> Reported(Demonitor(s), p);
    case Unwatched(_) =>
      assert s.owner in s.dead ==> (Reported(Proceed(s), p) <==> Reported(s, p));
    case Refused(_) =>
      assert Reported(Proceed(s), p) <==> Reported(s, p);
    case Restored(_) =>
  }

  lemma CleanDestroy(s: State, p: nat)
    requires CleanCall(s, p)
    ensures CleanCall(Destroy(s), p)
  {
    DemonitorReports(s, p);
    assert !s.destroyed ==> (Reported(Destroy(s), p) <==> Reported(Demonitor(s), p));
  }

  lemma CleanStep(s: State, p: nat, step: Step)
    requires Inv(s) && !s.flight.Idle? && CleanCall(s, p)
    ensures CleanCall(Next(s, step), p) && !Mistakes(s, step)
  {
    match step
    case DoDie(q) => CleanDies(s, p, q);
    case DoDown(m) => CleanDown(s, p, m);
    case DoProceed => CleanProceed(s, p);
    case DoDestroy => CleanDestroy(s, p);
    case _ =>
  }

  lemma {:induction false} CleanRun(s: State, p: nat, run: Trace<Step>)
    requires Inv(s) && CleanCall(s, p) && DuringCall(s, run)
    ensures CleanCall(Run(s, run), p) && !SomeMistake(s, run)
  {
    match run
    case Begin =>
    case Then(before, step) =>
      CleanRun(s, p, before);
      RunInv(s, before);
      CleanStep(Run(s, before), p, step);
  }

  lemma ReportedGoesWrong(s: State, p: nat)
    requires Inv(s) && s.flight.Chosen? && s.owner == p != s.flight.caller && Reported(s, p)
    ensures CanGoWrong(s)
  {
    if m :| m in s.fired && s.fired[m] == p {
      var run := Then(Begin, DoDown(m));
      assert Run(s, Begin) == s;
      assert DuringCall(s, run) && SomeMistake(s, run);
    } else {
      var m :| m in s.mons && s.mons[m] == p;
      var died := Then(Begin, DoDie(p));
      assert Run(s, Begin) == s && Run(s, died) == Die(s, p);
      assert m in Die(s, p).fired && Die(s, p).fired[m] == p;
      var run := Then(died, DoDown(m));
      assert DuringCall(s, run) && SomeMistake(s, run);
    }
  }

  // Exactly when a call that hands the connection to another process can shut it under its
  // live owner: when that process is still monitored, or a report of its death is due. The
  // report may then fall between the writing of the new owner and the end of the call.
  lemma CallCanGoWrongIff(owner: nat, dead: set<nat>, run: Trace<Step>, target: nat)
    requires var s := Run(Init(owner, dead), run); Starts(s, DoChoose(s.owner, target)) && target != s.owner
    ensures var s := Run(Init(owner, dead), run);
            CanGoWrong(Choose(s, s.owner, target)) <==> Reported(s, target)
  {
    RunInv(Init(owner, dead), run);
    var s := Run(Init(owner, dead), run);
    var c := Choose(s, s.owner, target);
    ChooseInv(s, s.owner, target);
    assert Reported(c, target) <==> Reported(s, target);
    if Reported(s, target) {
      ReportedGoesWrong(c, target);
    } else {
      forall during | DuringCall(c, during) ensures !SomeMistake(c, during) {
        CleanRun(c, target, during);
      }
    }
  }

  // ---------------------------------------------------------------- second monitors

  // The step sets a monitor on a live owner that is monitored already; the first is then no
  // longer named by owner_mon and is never cancelled.
  predicate AddsStray(s: State, step: Step) {
    && ((step.DoConnected? && !s.connected) || (step.DoStartClient? && !s.started))
    && !s.destroyed && s.flight.Idle? && s.seen != {} && s.owner !in s.dead
  }

  ghost predicate Orderly(s: State, run: Trace<Step>) {
    match run
    case Begin => true
    case Then(before, step) => Orderly(s, before) && !AddsStray(Run(s, before), step)
  }

  // owner_mon is the only monitor, and it is on the settled owner.
  ghost predicate Single(s: State) {
    && (forall m :: m in s.mons ==> m == s.mon && s.mons[m] == Settled(s) && (s.flight.Idle? || s.flight.Chosen?))
    && (forall m :: m in s.fired ==> m == s.mon && s.fired[m] == s.owner && s.flight.Idle?)
  }

  lemma DownStaysSingle(s: State, m: nat)
    requires Inv(s) && Single(s)
    ensures Single(Down(s, m))
  {
  }

  lemma ProceedStaysSingle(s: State)
    requires Inv(s) && Single(s)
    ensures Single(Proceed(s))
  {
  }

  lemma DieStaysSingle(s: State, p: nat)
    requires Inv(s) && Single(s)
    ensures Single(Die(s, p))
  {
  }

  lemma StaysSingle(s: State, step: Step)
    requires Inv(s) && Single(s) && !AddsStray(s, step)
    ensures Single(Next(s, step))
  {
    match step
    case DoProceed => ProceedStaysSingle(s);
    case DoDie(p) => DieStaysSingle(s, p);
    case DoDown(m) => DownStaysSingle(s, m);
    case _ =>
  }

  // Without a second monitor, as on a server whose connections are transferred only after
  // CONNECTED: there is at most one monitor, and callbacks are due only for the owner.
  lemma {:induction false} OrderlyIsSingle(s: State, run: Trace<Step>)
    requires Inv(s) && Single(s) && Orderly(s, run)
    ensures Inv(Run(s, run)) && Single(Run(s, run))
  {
    match run
    case Begin =>
    case Then(before, step) =>
      OrderlyIsSingle(s, before);
      NextInv(Run(s, before), step);
      StaysSingle(Run(s, before), step);
  }

  // Then destroying the context leaves no monitor behind.
  lemma DestroyedIsUnwatched(owner: nat, dead: set<nat>, run: Trace<Step>)
    requires Orderly(Init(owner, dead), run)
    requires var s := Run(Init(owner, dead), run); s.flight.Idle? && !s.destroyed
    ensures var t := Next(Run(Init(owner, dead), run), DoDestroy); t.destroyed && t.mons == map[]
  {
    OrderlyIsSingle(Init(owner, dead), run);
  }

  // Every client has a second monitor, whichever of the two comes first.
  lemma ClientIsMonitoredTwice(owner: nat, dead: set<nat>)
    requires owner !in dead
    ensures AddsStray(StartClient(Init(owner, dead)), DoConnected)
    ensures AddsStray(Connected(Init(owner, dead)), DoStartClient)
    ensures Connected(StartClient(Init(owner, dead))).mons == map[1 := owner, 2 := owner]
    ensures StartClient(Connected(Init(owner, dead))).mons == map[1 := owner, 2 := owner]
    ensures Connected(StartClient(Init(owner, dead))).mon == 2
  {
  }

  // The owner hands over to b, with nothing in between.
  function GivenAway(a: nat, b: nat): Trace<Step> {
    Then(Then(Then(Begin, DoChoose(a, b)), DoProceed), DoProceed)
  }

  lemma RunGivenAway(s: State, a: nat, b: nat)
    ensures Run(s, GivenAway(a, b)) == Proceed(Proceed(Choose(s, a, b)))
  {
    var r1 := Then(Begin, DoChoose(a, b));
    var r2 := Then(r1, DoProceed);
    assert Run(s, Begin) == s;
    assert Run(s, r1) == Choose(s, a, b);
    assert Run(s, r2) == Proceed(Choose(s, a, b));
    assert GivenAway(a, b) == Then(r2, DoProceed);
  }

  lemma StrayStays(s: State, again: Step, b: nat)
    requires Inv(s) && AddsStray(s, again) && b != s.owner && b !in s.dead
    ensures
      var t := Proceed(Proceed(Choose(Next(s, again), s.owner, b)));
      && t.flight.Idle? && t.owner == b && t.dead == s.dead
      && s.mon in t.mons && t.mons[s.mon] == s.owner
  {
    var s1 := Next(s, again);
    assert s.mon in s1.mons && s1.mons[s.mon] == s.owner && s1.mon != s.mon;
    var s3 := Proceed(Choose(s1, s.owner, b));
    assert s.mon in s3.mons;
  }

  // A second monitor outlives the transfer, on the former owner; so from any reachable
  // state, handing over to b and back can shut the connection while b owns it and lives.
  lemma StrayOutlivesTransfer(owner: nat, dead: set<nat>, run: Trace<Step>, again: Step, b: nat)
    requires var s := Run(Init(owner, dead), run); AddsStray(s, again) && b != s.owner && b !in s.dead
    ensures
      var s := Run(Init(owner, dead), run);
      var t := Run(Next(s, again), GivenAway(s.owner, b));
      && t.flight.Idle? && t.owner == b && t.dead == s.dead
      && s.mon in t.mons && t.mons[s.mon] == s.owner
      && CanGoWrong(Choose(t, b, s.owner))
  {
    RunInv(Init(owner, dead), run);
    var s := Run(Init(owner, dead), run);
    NextInv(s, again);
    var s1 := Next(s, again);
    RunGivenAway(s1, s.owner, b);
    StrayStays(s, again, b);
    var t := Proceed(Proceed(Choose(s1, s.owner, b)));
    RunInv(s1, GivenAway(s.owner, b));
    ChooseInv(t, b, s.owner);
    assert Reported(Choose(t, b, s.owner), s.owner);
    ReportedGoesWrong(Choose(t, b, s.owner), s.owner);
  }

  lemma RefusedRollsBack(s: State)
    requires s.flight.Chosen? && s.owner in s.dead && s.flight.caller !in s.dead
    ensures
      var t := Proceed(Proceed(Proceed(Proceed(s))));
      t.flight.Idle? && t.owner == s.flight.caller && t.dead == s.dead && t.shut == s.shut && t.wrongful == s.wrongful
      && t.mon in t.mons && t.mons[t.mon] == t.owner
  {
  }

  // ---------------------------------------------------------------- the C code

  datatype Result = Ok | NotOwner | OwnerDead

  // A controlling_process call by a live process, with nothing in between.
  function Transfer(s: State, caller: nat, target: nat): State
    requires s.flight.Idle?
  {
    var t := Proceed(Proceed(Choose(s, caller, target)));
    if t.flight.Refused? then Proceed(Proceed(t)) else t
  }

  // The call moves the ownership exactly when the caller owns and the target lives;
  // otherwise the owner stays, and a caller that owns is monitored again.
  lemma TransferOutcome(s: State, caller: nat, target: nat)
    requires Inv(s) && s.flight.Idle? && caller !in s.dead
    ensures
      var t := Transfer(s, caller, target);
      && t.flight.Idle?
      && t.owner == (if caller == s.owner && target !in s.dead then target else s.owner)
      && (caller == s.owner ==> t.mon in t.mons && t.mons[t.mon] == t.owner && t.mon != s.mon)
      && (caller == s.owner ==> s.mon !in t.mons)
      && (caller != s.owner ==> t == s)
  {
    if caller == s.owner {
      var s1 := Choose(s, caller, target);
      var s2 := Proceed(s1);
      assert s.mon !in s2.mons && s2.dead == s.dead && s2.next == s.next > s.mon;
      var s3 := Proceed(s2);
      if target in s.dead {
        var s4 := Proceed(s3);
        assert s4.owner == caller && s4.mons == s2.mons && s4.next == s2.next;
      }
    }
  }

  class QuicerConnCTX {
    var owner: nat
    var mon: nat
    var started: bool
    var connected: bool
    var destroyed: bool
    var shut: bool
    var dead: set<nat>
    var mons: map<nat, nat>
    var fired: map<nat, nat>
    var next: nat
    ghost var seen: set<nat>
    ghost var wrongful: bool

    ghost function View(): State
      reads this
    {
      State(owner, mon, started, connected, destroyed, shut, Idle, dead, mons, fired, next, seen, wrongful)
    }

    constructor (pid: nat, ended: set<nat>)
      ensures View() == Init(pid, ended)
    {
      owner, mon, started, connected, destroyed, shut := pid, 0, false, false, false, false;
      dead, mons, fired, next, seen, wrongful := ended, map[], map[], 1, {}, false;
    }

    method MonitorProcess() returns (failed: bool)
      modifies this
      ensures failed == (owner in dead)
      ensures View() == Monitor(old(View()))
    {
      failed := owner in dead;
      if !failed {
        mons := mons[next := owner];
        mon := next;
        next := next + 1;
        seen := seen + {owner};
      }
    }

    method OnConnected()
      requires !connected && !destroyed
      modifies this
      ensures View() == Connected(old(View()))
    {
      var _ := MonitorProcess();
      connected := true;
    }

    method ConnectionControllingProcess(caller: nat, target: nat) returns (res: Result)
      requires caller !in dead
      modifies this
      ensures View() == Transfer(old(View()), caller, target)
      ensures res == (if old(owner) != caller then NotOwner else if target in old(dead) then OwnerDead else Ok)
    {
      if owner != caller {
        return NotOwner;
      }
      owner := target;
      mons := mons - {mon};
      var failed := MonitorProcess();
      if failed {
        owner := caller;
        var _ := MonitorProcess();
        return OwnerDead;
      }
      return Ok;
    }

    method DownCallback(m: nat)
      requires m in fired
      modifies this
      ensures View() == Down(old(View()), m)
    {
      var deadPid := fired[m];
      fired := fired - {m};
      if owner == deadPid {
        shut := true;
        wrongful := wrongful || owner !in dead;
      }
    }

    method DestroyCtx()
      requires !destroyed
      modifies this
      ensures View() == Destroy(old(View()))
    {
      mons := mons - {mon};
      destroyed := true;
    }
  }
}
