/** When the server side is released: what keeps a context alive after everybody has let
    go, and when it can still be freed. Over the runs of module Refs. */
module Release {
  import opened Runs
  import opened Refs

  ghost predicate Gone(s: Server) {
    s.conns == map[] && s.strms == map[] && !s.cfgLive
  }

  // The listener, MsQuic, the processes and the environments hold nothing any more.
  ghost predicate NobodyHolds(s: Server) {
    && !s.listening
    && (forall c :: c in s.conns ==> !s.conns[c].own && !s.conns[c].env && s.conns[c].terms == 0)
    && (forall i :: i in s.strms ==>
          !s.strms[i].own && !s.strms[i].handle && !s.strms[i].env && s.strms[i].terms == 0)
  }

  lemma NoStrmHeld(s: Server)
    requires Inv(s) && NobodyHolds(s)
    ensures s.strms == map[]
  {
    forall i | i in s.strms ensures StrmOk(s.strms[i], 0) {}
  }

  lemma NoConnHeld(s: Server)
    requires Inv(s) && NobodyHolds(s) && s.strms == map[]
    ensures s.conns == map[]
  {
    forall c ensures StreamsOf(s.strms, c) == {} {}
  }

  // After any run everything is freed if and only if nobody holds anything: no cycle and
  // no reference that nobody owes keeps a context alive.
  lemma GoneIffNobodyHolds(t: Trace<Step>)
    ensures Gone(Run(Init(), t)) <==> NobodyHolds(Run(Init(), t))
  {
    RunInv(Init(), t);
    var s := Run(Init(), t);
    if NobodyHolds(s) {
      NoStrmHeld(s);
      NoConnHeld(s);
    }
  }

  // A process that was to own a connection or stream could not be told about it.
  predicate Untold(s: Server, step: Step) {
    match step
    case DoNewConn(c, how) => how == OwnerGone && c !in s.conns && s.listening
    case DoPeerStream(c, i, sent) => !sent && c in s.conns && s.conns[c].own && !s.conns[c].closed && i !in s.strms
    case _ => false
  }

  predicate AlwaysTold(s: Server, t: Trace<Step>) {
    t.Begin? || (AlwaysTold(s, t.before) && !Untold(Run(s, t.before), t.step))
  }

  // A stream whose own reference MsQuic will never ask to release.
  ghost predicate PinnedStrm(s: Server, i: nat, c: nat) {
    i in s.strms && s.strms[i].own && !s.strms[i].handler && s.strms[i].conn == c
  }

  ghost predicate PinnedConn(s: Server, c: nat) {
    c in s.conns && s.conns[c].env
  }

  // What one step can do to the record of a stream, other than count.
  predicate StrmStep(x: Strm, y: Strm) {
    && y.conn == x.conn && y.handler == x.handler
    && (y.own ==> x.own) && (y.handle ==> x.handle) && (y.env ==> x.env)
    && (x.own && !x.handler ==> y.own)
    && (x.own && !y.own ==> !y.handle && !y.env)
  }

  // What one step can do: nothing pinned goes, and new contexts start told or untold.
  ghost predicate StrmsChange(a: map<nat, Strm>, b: map<nat, Strm>, untold: bool) {
    && (forall i :: i in a && i in b ==> StrmStep(a[i], b[i]))
    && (forall i :: i in a && i !in b ==> !a[i].own || a[i].handler)
    && (forall i :: i !in a && i in b ==> b[i].own && (b[i].handler <==> !untold))
  }

  ghost predicate ConnsChange(a: map<nat, Conn>, b: map<nat, Conn>, untold: bool) {
    && (forall c :: c in a && c in b ==> b[c].env == a[c].env)
    && (forall c :: c in a && c !in b ==> !a[c].env)
    && (forall c :: c !in a && c in b ==> (b[c].env ==> untold))
  }

  ghost predicate Changes(s: Server, step: Step, t: Server) {
    StrmsChange(s.strms, t.strms, Untold(s, step)) && ConnsChange(s.conns, t.conns, Untold(s, step))
  }

  lemma ReleaseConnSpec(s: Server, c: nat)
    requires c in s.conns
    ensures var t, x := ReleaseConn(s, c), s.conns[c];
            && t.strms == s.strms
            && t.conns == if x.refs > 1 then s.conns[c := x.(refs := x.refs - 1)] else s.conns - {c}
  {
  }

  lemma ReleaseStrmSpec(s: Server, j: nat)
    requires j in s.strms
    ensures var t, x := ReleaseStrm(s, j), s.strms[j];
            && t.strms == (if x.refs > 1 then s.strms[j := x.(refs := x.refs - 1)] else s.strms - {j})
            && (x.refs > 1 ==> t.conns == s.conns)
            && (x.refs <= 1 ==> t.conns == ReleaseConn(s, x.conn).conns)
  {
  }

  // A connection with a stream and a term in its environment has two references.
  lemma StreamCounts(s: Server, j: nat)
    requires Inv(s) && j in s.strms && s.strms[j].conn in s.conns && s.conns[s.strms[j].conn].env
    ensures s.conns[s.strms[j].conn].refs > 1
  {
    ConnOf(s, s.strms[j].conn);
    assert j in StreamsOf(s.strms, s.strms[j].conn);
  }

  lemma ReleaseConnChanges(conns: map<nat, Conn>, c: nat, x: Conn, b: map<nat, Conn>, untold: bool)
    requires c in conns && x.env == conns[c].env && (x.refs <= 1 ==> !x.env)
    requires b == if x.refs > 1 then conns[c := x.(refs := x.refs - 1)] else conns - {c}
    ensures ConnsChange(conns, b, untold)
  {
  }

  lemma StrmReleaseStrms(a: map<nat, Strm>, j: nat, x: Strm, b: map<nat, Strm>, untold: bool)
    requires j in a && StrmStep(a[j], x) && (x.refs <= 1 ==> !x.own)
    requires b == if x.refs > 1 then a[j := x.(refs := x.refs - 1)] else a - {j}
    ensures StrmsChange(a, b, untold)
  {
  }

  lemma StrmReleaseConns(s: Server, j: nat, x: Strm, untold: bool)
    requires Inv(s) && j in s.strms && x.conn == s.strms[j].conn
    ensures ConnsChange(s.conns, ReleaseStrm(s.(strms := s.strms[j := x]), j).conns, untold)
  {
    var r := s.(strms := s.strms[j := x]);
    ReleaseStrmSpec(r, j);
    if x.refs <= 1 {
      ReleaseConnSpec(r, x.conn);
      if s.conns[x.conn].env {
        StreamCounts(s, j);
      }
      ReleaseConnChanges(s.conns, x.conn, s.conns[x.conn], ReleaseStrm(r, j).conns, untold);
    }
  }

  // One reference of a stream is released, after a change of its record.
  lemma StrmReleaseChanges(s: Server, step: Step, j: nat, x: Strm)
    requires Inv(s) && j in s.strms && StrmStep(s.strms[j], x)
    requires x.refs <= 1 ==> !x.own
    ensures Changes(s, step, ReleaseStrm(s.(strms := s.strms[j := x]), j))
  {
    var r := s.(strms := s.strms[j := x]);
    ReleaseStrmSpec(r, j);
    assert s.strms[j := x][j := x.(refs := x.refs - 1)] == s.strms[j := x.(refs := x.refs - 1)];
    assert s.strms[j := x] - {j} == s.strms - {j};
    StrmReleaseStrms(s.strms, j, x, ReleaseStrm(r, j).strms, Untold(s, step));
    StrmReleaseConns(s, j, x, Untold(s, step));
  }

  lemma StrmShutdownChanges(s: Server, i: nat)
    requires Inv(s)
    ensures Changes(s, DoStrmShutdown(i), StrmShutdown(s, i))
  {
    if i in s.strms && s.strms[i].own && s.strms[i].handler {
      StrmOf(s, i);
      StrmShutdownIs(s, i);
      StrmReleaseChanges(s, DoStrmShutdown(i), i, ShutStrm(s.strms[i]));
    }
  }

  lemma StrmEventChanges(s: Server, i: nat)
    requires Inv(s)
    ensures Changes(s, DoStrmEvent(i), StrmEvent(s, i))
  {
    if i in s.strms && s.strms[i].own && s.strms[i].handler && s.strms[i].env {
      StrmOf(s, i);
      StrmReleaseChanges(s, DoStrmEvent(i), i, s.strms[i].(env := false));
    }
  }

  lemma DropStrmTermChanges(s: Server, i: nat)
    requires Inv(s)
    ensures Changes(s, DoDropStrmTerm(i), DropStrmTerm(s, i))
  {
    if i in s.strms && s.strms[i].terms > 0 {
      StrmOf(s, i);
      StrmReleaseChanges(s, DoDropStrmTerm(i), i, s.strms[i].(terms := s.strms[i].terms - 1));
    }
  }

  lemma StartedChanges(s: Server, c: nat, i: nat)
    requires c in s.conns && i !in s.strms
    ensures Changes(s, DoLocalStream(c, i, true), LocalStream(s, c, i, true))
  {
  }

  lemma LocalStreamChanges(s: Server, c: nat, i: nat, ok: bool)
    requires Inv(s)
    ensures Changes(s, DoLocalStream(c, i, ok), LocalStream(s, c, i, ok))
  {
    if c in s.conns && s.conns[c].terms > 0 && i !in s.strms {
      ConnOf(s, c);
      if ok {
        StartedChanges(s, c, i);
      } else {
        FailedStartIsUndone(s, c, i);
      }
    }
  }

  lemma ConnReleaseChanges(s: Server, step: Step, c: nat, x: Conn)
    requires c in s.conns && x.env == s.conns[c].env && (x.refs <= 1 ==> !x.env)
    ensures Changes(s, step, ReleaseConn(s.(conns := s.conns[c := x]), c))
  {
    var r := s.(conns := s.conns[c := x]);
    ReleaseConnSpec(r, c);
    assert s.conns[c := x][c := x.(refs := x.refs - 1)] == s.conns[c := x.(refs := x.refs - 1)];
    assert s.conns[c := x] - {c} == s.conns - {c};
    ReleaseConnChanges(s.conns, c, x, ReleaseConn(r, c).conns, Untold(s, step));
  }

  lemma ConnShutdownChanges(s: Server, c: nat)
    requires Inv(s)
    ensures Changes(s, DoConnShutdown(c), ConnShutdown(s, c))
  {
    if c in s.conns && s.conns[c].own {
      ConnOf(s, c);
      var x := s.conns[c].(closed := true, own := false);
      ConnReleaseChanges(s, DoConnShutdown(c), c, x);
    }
  }

  lemma DropConnTermChanges(s: Server, c: nat)
    requires Inv(s)
    ensures Changes(s, DoDropConnTerm(c), DropConnTerm(s, c))
  {
    if c in s.conns && s.conns[c].terms > 0 {
      ConnOf(s, c);
      ConnReleaseChanges(s, DoDropConnTerm(c), c, s.conns[c].(terms := s.conns[c].terms - 1));
    }
  }

  lemma NewConnChanges(s: Server, c: nat, how: Accept)
    requires Inv(s)
    ensures Changes(s, DoNewConn(c, how), NewConn(s, c, how))
  {
  }

  lemma PeerStreamChanges(s: Server, c: nat, i: nat, sent: bool)
    ensures Changes(s, DoPeerStream(c, i, sent), PeerStream(s, c, i, sent))
  {
  }

  lemma CopyConnTermChanges(s: Server, c: nat)
    ensures Changes(s, DoCopyConnTerm(c), CopyConnTerm(s, c))
  {
  }

  lemma CopyStrmTermChanges(s: Server, i: nat)
    ensures Changes(s, DoCopyStrmTerm(i), CopyStrmTerm(s, i))
  {
  }

  lemma StartCompleteChanges(s: Server, i: nat)
    ensures Changes(s, DoStartComplete(i), StartComplete(s, i))
  {
  }

  lemma ListenerGoneChanges(s: Server)
    ensures Changes(s, DoListenerGone, ListenerGone(s))
  {
  }

  lemma NextConnChanges(s: Server, step: Step)
    requires Inv(s)
    requires step.DoNewConn? || step.DoConnShutdown? || step.DoCopyConnTerm? || step.DoDropConnTerm?
             || step.DoListenerGone?
    ensures Changes(s, step, Next(s, step))
  {
    match step {
      case DoNewConn(c, how) => NewConnChanges(s, c, how);
      case DoConnShutdown(c) => ConnShutdownChanges(s, c);
      case DoCopyConnTerm(c) => CopyConnTermChanges(s, c);
      case DoDropConnTerm(c) => DropConnTermChanges(s, c);
      case DoListenerGone => ListenerGoneChanges(s);
    }
  }

  lemma NewStrmChanges(s: Server, step: Step)
    requires Inv(s) && (step.DoPeerStream? || step.DoLocalStream? || step.DoStartComplete?)
    ensures Changes(s, step, Next(s, step))
  {
    match step {
      case DoPeerStream(c, i, sent) => PeerStreamChanges(s, c, i, sent);
      case DoLocalStream(c, i, ok) => LocalStreamChanges(s, c, i, ok);
      case DoStartComplete(i) => StartCompleteChanges(s, i);
    }
  }

  lemma ShutStrmChanges(s: Server, step: Step)
    requires Inv(s) && (step.DoStrmEvent? || step.DoStrmShutdown?)
    ensures Changes(s, step, Next(s, step))
  {
    match step {
      case DoStrmEvent(i) => StrmEventChanges(s, i);
      case DoStrmShutdown(i) => StrmShutdownChanges(s, i);
    }
  }

  lemma StrmTermChanges(s: Server, step: Step)
    requires Inv(s) && (step.DoCopyStrmTerm? || step.DoDropStrmTerm?)
    ensures Changes(s, step, Next(s, step))
  {
    match step {
      case DoCopyStrmTerm(i) => CopyStrmTermChanges(s, i);
      case DoDropStrmTerm(i) => DropStrmTermChanges(s, i);
    }
  }

  lemma NextChanges(s: Server, step: Step)
    requires Inv(s)
    ensures Changes(s, step, Next(s, step))
  {
    if step.DoPeerStream? || step.DoLocalStream? || step.DoStartComplete? {
      NewStrmChanges(s, step);
    } else if step.DoStrmEvent? || step.DoStrmShutdown? {
      ShutStrmChanges(s, step);
    } else if step.DoCopyStrmTerm? || step.DoDropStrmTerm? {
      StrmTermChanges(s, step);
    } else {
      NextConnChanges(s, step);
    }
  }

  lemma ChangesKeepPinned(s: Server, step: Step, t: Server)
    requires Changes(s, step, t)
    ensures forall i, c :: PinnedStrm(s, i, c) ==> PinnedStrm(t, i, c)
    ensures forall c :: PinnedConn(s, c) ==> PinnedConn(t, c)
  {
  }

  lemma {:induction false} PinnedForEver(s: Server, t: Trace<Step>)
    requires Inv(s)
    ensures forall i, c :: PinnedStrm(s, i, c) ==> PinnedStrm(Run(s, t), i, c)
    ensures forall c :: PinnedConn(s, c) ==> PinnedConn(Run(s, t), c)
  {
    if t.Then? {
      PinnedForEver(s, t.before);
      RunInv(s, t.before);
      NextChanges(Run(s, t.before), t.step);
      ChangesKeepPinned(Run(s, t.before), t.step, Run(s, t));
    }
  }

  lemma ConfigLives(s: Server, c: nat)
    requires Inv(s) && c in s.conns
    ensures s.cfgLive
  {
    assert |s.conns| > 0;
  }

  // A stream whose owner could not be told is never freed, whatever follows, nor are its
  // connection and the configuration;
  lemma UntoldStreamStays(t: Trace<Step>, c: nat, i: nat, more: Trace<Step>)
    requires Untold(Run(Init(), t), DoPeerStream(c, i, false))
    ensures var s := Run(Next(Run(Init(), t), DoPeerStream(c, i, false)), more);
            i in s.strms && s.strms[i].conn == c && c in s.conns && s.cfgLive
  {
    RunInv(Init(), t);
    var p := Next(Run(Init(), t), DoPeerStream(c, i, false));
    NextInv(Run(Init(), t), DoPeerStream(c, i, false));
    assert PinnedStrm(p, i, c);
    PinnedForEver(p, more);
    RunInv(p, more);
    ConfigLives(Run(p, more), c);
  }

  // and neither is a connection whose owner could not be told.
  lemma UntoldConnStays(t: Trace<Step>, c: nat, more: Trace<Step>)
    requires Untold(Run(Init(), t), DoNewConn(c, OwnerGone))
    ensures var s := Run(Next(Run(Init(), t), DoNewConn(c, OwnerGone)), more);
            c in s.conns && s.cfgLive
  {
    RunInv(Init(), t);
    var p := Next(Run(Init(), t), DoNewConn(c, OwnerGone));
    NextInv(Run(Init(), t), DoNewConn(c, OwnerGone));
    assert PinnedConn(p, c);
    PinnedForEver(p, more);
    RunInv(p, more);
    ConfigLives(Run(p, more), c);
  }

  // ---------------------------------------------------------------- and can be

  // Every stream will be shut down by MsQuic, and nothing stays in an environment.
  ghost predicate Told(s: Server) {
    && (forall i :: i in s.strms ==>
          (s.strms[i].own ==> s.strms[i].handler) && (s.strms[i].handle || s.strms[i].env ==> s.strms[i].own))
    && (forall c :: c in s.conns ==> !s.conns[c].env)
  }

  lemma ChangesKeepTold(s: Server, step: Step, t: Server)
    requires Changes(s, step, t) && Told(s) && !Untold(s, step)
    ensures Told(t)
  {
  }

  lemma {:induction false} ToldRun(s: Server, t: Trace<Step>)
    requires Inv(s) && Told(s) && AlwaysTold(s, t)
    ensures Told(Run(s, t))
  {
    if t.Then? {
      ToldRun(s, t.before);
      RunInv(s, t.before);
      NextChanges(Run(s, t.before), t.step);
      ChangesKeepTold(Run(s, t.before), t.step, Run(s, t));
    }
  }

  ghost predicate Pinned(s: Server) {
    (exists i, c :: PinnedStrm(s, i, c)) || (exists c :: PinnedConn(s, c))
  }

  lemma UntoldPins(s: Server, step: Step)
    requires Inv(s) && Untold(s, step)
    ensures Pinned(Next(s, step))
  {
    match step {
      case DoNewConn(c, _) => assert PinnedConn(Next(s, step), c);
      case DoPeerStream(c, i, _) => assert PinnedStrm(Next(s, step), i, c);
      case _ =>
    }
  }

  lemma PinnedStays(s: Server, t: Trace<Step>)
    requires Inv(s) && Pinned(s)
    ensures Pinned(Run(s, t))
  {
    PinnedForEver(s, t);
    if i, c :| PinnedStrm(s, i, c) {
      assert PinnedStrm(Run(s, t), i, c);
    } else {
      var c :| PinnedConn(s, c);
      assert PinnedConn(Run(s, t), c);
    }
  }

  lemma {:induction false} SomethingUntold(s: Server, t: Trace<Step>)
    requires Inv(s) && !AlwaysTold(s, t)
    ensures Pinned(Run(s, t))
  {
    RunInv(s, t.before);
    if AlwaysTold(s, t.before) {
      UntoldPins(Run(s, t.before), t.step);
    } else {
      SomethingUntold(s, t.before);
      PinnedStays(Run(s, t.before), Then(Begin, t.step));
      assert Run(Run(s, t.before), Then(Begin, t.step)) == Run(s, t);
    }
  }

  function Concat(a: Trace<Step>, b: Trace<Step>): Trace<Step> {
    match b
    case Begin => a
    case Then(before, step) => Then(Concat(a, before), step)
  }

  lemma {:induction false} RunConcat(s: Server, a: Trace<Step>, b: Trace<Step>)
    ensures Run(s, Concat(a, b)) == Run(Run(s, a), b)
  {
    if b.Then? {
      RunConcat(s, a, b.before);
    }
  }

  lemma TellingStep(s: Server, step: Step)
    requires Inv(s) && Told(s) && !Untold(s, step)
    ensures Inv(Next(s, step)) && Told(Next(s, step))
  {
    NextInv(s, step);
    NextChanges(s, step);
    ChangesKeepTold(s, step, Next(s, step));
  }

  lemma ReleaseStrmFrame(s: Server, j: nat)
    requires j in s.strms
    ensures var t, x := ReleaseStrm(s, j), s.strms[j];
            && t.listening == s.listening && t.conns.Keys <= s.conns.Keys
            && (if x.refs > 1 then t.strms == s.strms[j := x.(refs := x.refs - 1)] else t.strms == s.strms - {j})
  {
    ReleaseStrmSpec(s, j);
  }

  // One step of getting rid of a stream: it is freed, or closer to it.
  ghost predicate StrmSmaller(s: Server, z: Server, i: nat)
    requires i in s.strms
  {
    && z.listening == s.listening && z.conns.Keys <= s.conns.Keys
    && (z.strms.Keys == s.strms.Keys - {i}
        || (z.strms.Keys == s.strms.Keys && i in z.strms
            && (if s.strms[i].own then !z.strms[i].own else !z.strms[i].own && z.strms[i].terms < s.strms[i].terms)))
  }

  lemma ShutdownShrinks(s: Server, i: nat)
    requires i in s.strms && s.strms[i].own && s.strms[i].handler && StrmOk(s.strms[i], 0)
    ensures StrmSmaller(s, Next(s, DoStrmShutdown(i)), i)
  {
    StrmShutdownIs(s, i);
    var r := s.(strms := s.strms[i := ShutStrm(s.strms[i])]);
    ReleaseStrmFrame(r, i);
    assert r.strms.Keys == s.strms.Keys;
    assert (r.strms - {i}).Keys == r.strms.Keys - {i};
  }

  lemma DropShrinks(s: Server, i: nat)
    requires i in s.strms && !s.strms[i].own && s.strms[i].terms > 0
    ensures StrmSmaller(s, Next(s, DoDropStrmTerm(i)), i)
  {
    var r := s.(strms := s.strms[i := s.strms[i].(terms := s.strms[i].terms - 1)]);
    ReleaseStrmFrame(r, i);
    assert r.strms.Keys == s.strms.Keys;
    assert (r.strms - {i}).Keys == r.strms.Keys - {i};
  }

  // MsQuic shuts the stream down, and the processes drop their terms.
  lemma {:induction false} DrainStrm(s: Server, i: nat) returns (t: Trace<Step>)
    requires Inv(s) && Told(s) && i in s.strms
    ensures var z := Run(s, t);
            && Inv(z) && Told(z) && z.listening == s.listening
            && z.strms.Keys == s.strms.Keys - {i} && z.conns.Keys <= s.conns.Keys
    decreases One(s.strms[i].own), s.strms[i].terms
  {
    StrmOf(s, i);
    var step := if s.strms[i].own then DoStrmShutdown(i) else DoDropStrmTerm(i);
    if s.strms[i].own {
      ShutdownShrinks(s, i);
    } else {
      DropShrinks(s, i);
    }
    TellingStep(s, step);
    t := Then(Begin, step);
    assert Run(s, t) == Next(s, step);
    if i in Run(s, t).strms {
      var rest := DrainStrm(Run(s, t), i);
      RunConcat(s, t, rest);
      t := Concat(t, rest);
    }
  }

  lemma {:induction false} DrainStrms(s: Server) returns (t: Trace<Step>)
    requires Inv(s) && Told(s)
    ensures var z := Run(s, t); Inv(z) && Told(z) && z.listening == s.listening && z.strms == map[]
    decreases |s.strms.Keys|
  {
    if s.strms == map[] {
      t := Begin;
    } else {
      var i :| i in s.strms;
      t := DrainStrm(s, i);
      var rest := DrainStrms(Run(s, t));
      RunConcat(s, t, rest);
      t := Concat(t, rest);
    }
  }

  lemma ReleaseConnFrame(s: Server, c: nat)
    requires c in s.conns
    ensures var t, x := ReleaseConn(s, c), s.conns[c];
            && t.listening == s.listening && t.strms == s.strms
            && (if x.refs > 1 then t.conns == s.conns[c := x.(refs := x.refs - 1)] else t.conns == s.conns - {c})
  {
  }

  ghost predicate ConnSmaller(s: Server, z: Server, c: nat)
    requires c in s.conns
  {
    && z.listening == s.listening && z.strms == s.strms
    && (z.conns.Keys == s.conns.Keys - {c}
        || (z.conns.Keys == s.conns.Keys && c in z.conns && !z.conns[c].own
            && (s.conns[c].own || z.conns[c].terms < s.conns[c].terms)))
  }

  lemma ReleaseShrinks(s: Server, c: nat, x: Conn)
    requires c in s.conns && !x.own && (s.conns[c].own || x.terms < s.conns[c].terms)
    ensures ConnSmaller(s, ReleaseConn(s.(conns := s.conns[c := x]), c), c)
  {
    var r := s.(conns := s.conns[c := x]);
    ReleaseConnFrame(r, c);
    assert r.conns.Keys == s.conns.Keys && (r.conns - {c}).Keys == r.conns.Keys - {c};
  }

  function ConnDrainStep(s: Server, c: nat): Step
    requires c in s.conns
  {
    if s.conns[c].own then DoConnShutdown(c) else DoDropConnTerm(c)
  }

  lemma ConnDrainShrinks(s: Server, c: nat)
    requires c in s.conns && (s.conns[c].own || s.conns[c].terms > 0)
    ensures ConnSmaller(s, Next(s, ConnDrainStep(s, c)), c)
  {
    var x := s.conns[c];
    ReleaseShrinks(s, c, if x.own then x.(closed := true, own := false) else x.(terms := x.terms - 1));
  }

  lemma SomebodyHolds(s: Server, c: nat)
    requires Inv(s) && Told(s) && s.strms == map[] && c in s.conns
    ensures s.conns[c].own || s.conns[c].terms > 0
  {
    ConnOf(s, c);
    assert StreamsOf(s.strms, c) == {};
  }

  // SHUTDOWN_COMPLETE comes, and the processes drop their terms.
  lemma {:induction false} DrainConn(s: Server, c: nat) returns (t: Trace<Step>)
    requires Inv(s) && Told(s) && s.strms == map[] && c in s.conns
    ensures var z := Run(s, t);
            && Inv(z) && Told(z) && z.listening == s.listening
            && z.strms == map[] && z.conns.Keys == s.conns.Keys - {c}
    decreases One(s.conns[c].own), s.conns[c].terms
  {
    SomebodyHolds(s, c);
    ConnDrainShrinks(s, c);
    TellingStep(s, ConnDrainStep(s, c));
    t := Then(Begin, ConnDrainStep(s, c));
    var z := Next(s, ConnDrainStep(s, c));
    assert Run(s, t) == z;
    if c in z.conns {
      var rest := DrainConn(z, c);
      RunConcat(s, t, rest);
      t := Concat(t, rest);
    }
  }

  lemma {:induction false} DrainConns(s: Server) returns (t: Trace<Step>)
    requires Inv(s) && Told(s) && s.strms == map[]
    ensures var z := Run(s, t); Inv(z) && z.strms == map[] && z.conns == map[]
    decreases |s.conns.Keys|
  {
    if s.conns == map[] {
      t := Begin;
    } else {
      var c :| c in s.conns;
      t := DrainConn(s, c);
      var rest := DrainConns(Run(s, t));
      RunConcat(s, t, rest);
      t := Concat(t, rest);
    }
  }

  lemma LastIsConfig(s: Server)
    requires Inv(s) && s.strms == map[] && s.conns == map[]
    ensures Gone(Next(s, DoListenerGone))
  {
  }

  lemma Drain(s: Server) returns (t: Trace<Step>)
    requires Inv(s) && Told(s)
    ensures Gone(Run(s, t))
  {
    t := DrainStrms(s);
    var more := DrainConns(Run(s, t));
    RunConcat(s, t, more);
    var all := Concat(t, more);
    LastIsConfig(Run(s, all));
    t := Then(all, DoListenerGone);
  }

  lemma PinnedIsNotGone(s: Server)
    requires Pinned(s)
    ensures !Gone(s)
  {
  }

  // Some continuation frees everything.
  ghost predicate CanGo(s: Server) {
    exists more :: Gone(Run(s, more))
  }

  lemma ToldCanGo(s: Server)
    requires Inv(s) && Told(s)
    ensures CanGo(s)
  {
    var more := Drain(s);
  }

  lemma PinnedCannotGo(s: Server)
    requires Inv(s) && Pinned(s)
    ensures !CanGo(s)
  {
    forall more ensures !Gone(Run(s, more)) {
      PinnedStays(s, more);
      PinnedIsNotGone(Run(s, more));
    }
  }

  // After any run, everything can still be released, by MsQuic shutting down what it has and
  // the processes dropping their terms, if and only if every owner could be told.
  lemma ReleasedIffTold(t: Trace<Step>)
    ensures CanGo(Run(Init(), t)) <==> AlwaysTold(Init(), t)
  {
    RunInv(Init(), t);
    if AlwaysTold(Init(), t) {
      ToldRun(Init(), t);
      ToldCanGo(Run(Init(), t));
    } else {
      SomethingUntold(Init(), t);
      PinnedCannotGo(Run(Init(), t));
    }
  }
}
