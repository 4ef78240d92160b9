/** What reference counting is for: over the runs of module Refs, a context lives exactly as
    long as somebody holds it. The same server side without counters, cleaned up after every
    step by who still holds what. */
module Reachability {
  import opened Runs
  import opened Refs
  import opened Release

  datatype CNode = CNode(own: bool, closed: bool, env: bool, terms: nat)

  datatype SNode = SNode(conn: nat, own: bool, closed: bool, handler: bool, handle: bool, env: bool, terms: nat)

  datatype Heap = Heap(listening: bool, conns: map<nat, CNode>, strms: map<nat, SNode>)

  // A stream is held by MsQuic, its own environments, or a process;
  predicate StrmHeld(x: SNode) {
    x.own || x.handle || x.env || x.terms > 0
  }

  // a connection also by a stream.
  ghost predicate ConnHeld(h: Heap, c: nat) {
    c in h.conns &&
    (h.conns[c].own || h.conns[c].env || h.conns[c].terms > 0
     || exists i :: i in h.strms && StrmHeld(h.strms[i]) && h.strms[i].conn == c)
  }

  // Drops what nobody holds.
  ghost function Collect(h: Heap): Heap {
    Heap(h.listening,
         map c | c in h.conns && ConnHeld(h, c) :: h.conns[c],
         map i | i in h.strms && StrmHeld(h.strms[i]) :: h.strms[i])
  }

  // MsQuic reports events of the stream.
  predicate Watched(h: Heap, i: nat) {
    i in h.strms && h.strms[i].own && h.strms[i].handler
  }

  // What a step changes, without a thought about memory.
  function Changed(h: Heap, step: Step): Heap {
    match step
    case DoNewConn(c, how) =>
      if c in h.conns || !h.listening || how == NoAcceptor then h
      else
        h.(conns := h.conns[c := if how == Accepted then CNode(true, false, false, 1) else CNode(false, true, true, 0)])
    case DoConnShutdown(c) =>
      if c in h.conns && h.conns[c].own then h.(conns := h.conns[c := h.conns[c].(closed := true, own := false)]) else h
    case DoPeerStream(c, i, sent) =>
      if c !in h.conns || !h.conns[c].own || h.conns[c].closed || i in h.strms then h
      else h.(strms := h.strms[i := SNode(c, true, false, sent, true, true, if sent then 1 else 0)])
    case DoLocalStream(c, i, ok) =>
      if c !in h.conns || h.conns[c].terms == 0 || i in h.strms || !ok then h
      else h.(strms := h.strms[i := SNode(c, true, true, true, true, false, 1)])
    case DoStartComplete(i) =>
      if Watched(h, i) then h.(strms := h.strms[i := h.strms[i].(closed := false)]) else h
    case DoStrmEvent(i) =>
      if Watched(h, i) then h.(strms := h.strms[i := h.strms[i].(env := false)]) else h
    case DoStrmShutdown(i) =>
      if Watched(h, i) then
        h.(strms := h.strms[i := h.strms[i].(closed := true, own := false, handle := false, env := false)])
      else h
    case DoCopyConnTerm(c) =>
      if c in h.conns then h.(conns := h.conns[c := h.conns[c].(terms := h.conns[c].terms + 1)]) else h
    case DoDropConnTerm(c) =>
      if c in h.conns && h.conns[c].terms > 0 then
        h.(conns := h.conns[c := h.conns[c].(terms := h.conns[c].terms - 1)])
      else h
    case DoCopyStrmTerm(i) =>
      if i in h.strms then h.(strms := h.strms[i := h.strms[i].(terms := h.strms[i].terms + 1)]) else h
    case DoDropStrmTerm(i) =>
      if i in h.strms && h.strms[i].terms > 0 then
        h.(strms := h.strms[i := h.strms[i].(terms := h.strms[i].terms - 1)])
      else h
    case DoListenerGone => h.(listening := false)
  }

  ghost function Behaves(t: Trace<Step>): Heap {
    match t
    case Begin => Heap(true, map[], map[])
    case Then(before, step) => Collect(Changed(Behaves(before), step))
  }

  // ---------------------------------------------------------------- forgetting the counters

  function ConnNode(x: Conn): CNode {
    CNode(x.own, x.closed, x.env, x.terms)
  }

  function StrmNode(x: Strm): SNode {
    SNode(x.conn, x.own, x.closed, x.handler, x.handle, x.env, x.terms)
  }

  function ConnNodes(conns: map<nat, Conn>): map<nat, CNode> {
    map c | c in conns :: ConnNode(conns[c])
  }

  function StrmNodes(strms: map<nat, Strm>): map<nat, SNode> {
    map i | i in strms :: StrmNode(strms[i])
  }

  function Uncounted(s: Server): Heap {
    Heap(s.listening, ConnNodes(s.conns), StrmNodes(s.strms))
  }

  lemma ConnNodesSet(conns: map<nat, Conn>, c: nat, x: Conn)
    ensures ConnNodes(conns[c := x]) == ConnNodes(conns)[c := ConnNode(x)]
    ensures ConnNodes(conns - {c}) == ConnNodes(conns) - {c}
  {
  }

  lemma StrmNodesSet(strms: map<nat, Strm>, i: nat, x: Strm)
    ensures StrmNodes(strms[i := x]) == StrmNodes(strms)[i := StrmNode(x)]
    ensures StrmNodes(strms - {i}) == StrmNodes(strms) - {i}
  {
  }

  // Counting alone changes nothing.
  lemma ConnCounted(conns: map<nat, Conn>, c: nat, x: Conn)
    requires c in conns && ConnNode(x) == ConnNode(conns[c])
    ensures ConnNodes(conns[c := x]) == ConnNodes(conns)
  {
  }

  // With exact counters, everything alive is held.
  lemma AliveIsHeld(s: Server)
    requires Inv(s)
    ensures forall i :: i in s.strms ==> StrmHeld(StrmNode(s.strms[i]))
    ensures forall c :: c in s.conns ==> ConnHeld(Uncounted(s), c)
  {
    forall i | i in s.strms ensures StrmHeld(StrmNode(s.strms[i])) {
      StrmOf(s, i);
    }
    forall c | c in s.conns ensures ConnHeld(Uncounted(s), c) {
      ConnOf(s, c);
      if StreamsOf(s.strms, c) != {} {
        var i :| i in StreamsOf(s.strms, c);
        assert StrmHeld(Uncounted(s).strms[i]) && Uncounted(s).strms[i].conn == c;
      }
    }
  }

  // The one is the other without things that nobody holds directly.
  ghost predicate StrmsLeft(a: map<nat, SNode>, b: map<nat, SNode>) {
    && (forall i :: i in b ==> i in a && a[i] == b[i])
    && (forall i :: i in a && i !in b ==> !StrmHeld(a[i]))
  }

  ghost predicate ConnsLeft(a: map<nat, CNode>, b: map<nat, CNode>) {
    && (forall c :: c in b ==> c in a && a[c] == b[c])
    && (forall c :: c in a && c !in b ==> !a[c].own && !a[c].env && a[c].terms == 0)
  }

  ghost predicate Cleaned(h: Heap, z: Heap) {
    z.listening == h.listening && StrmsLeft(h.strms, z.strms) && ConnsLeft(h.conns, z.conns)
  }

  lemma StrmConnLives(z: Server, i: nat)
    requires Inv(z)
    ensures i in z.strms ==> z.strms[i].conn in z.conns
  {
  }

  // What is left of the connections is what streams or others hold.
  lemma ConnsCollected(h: Heap, z: Heap, c: nat)
    requires Cleaned(h, z)
    requires forall i :: i in z.strms ==> StrmHeld(z.strms[i]) && z.strms[i].conn in z.conns
    requires forall d :: d in z.conns ==> ConnHeld(z, d)
    ensures c in z.conns <==> ConnHeld(h, c)
  {
    if c in z.conns && !(h.conns[c].own || h.conns[c].env || h.conns[c].terms > 0) {
      var i :| i in z.strms && StrmHeld(z.strms[i]) && z.strms[i].conn == c;
      assert i in h.strms && StrmHeld(h.strms[i]) && h.strms[i].conn == c;
    }
  }

  lemma HeapIsCollected(h: Heap, z: Heap)
    requires Cleaned(h, z)
    requires forall i :: i in z.strms ==> StrmHeld(z.strms[i]) && z.strms[i].conn in z.conns
    requires forall c :: c in z.conns ==> ConnHeld(z, c)
    ensures z == Collect(h)
  {
    forall c ensures c in z.conns <==> ConnHeld(h, c) {
      ConnsCollected(h, z, c);
    }
    assert z.conns == Collect(h).conns;
    assert z.strms == Collect(h).strms;
  }

  lemma CleanedIsCollected(h: Heap, z: Server)
    requires Inv(z) && Cleaned(h, Uncounted(z))
    ensures Uncounted(z) == Collect(h)
  {
    AliveIsHeld(z);
    forall i | i in z.strms ensures z.strms[i].conn in z.conns {
      StrmConnLives(z, i);
    }
    HeapIsCollected(h, Uncounted(z));
  }

  // ---------------------------------------------------------------- every step

  // Releasing one reference of a connection leaves the others as they are.
  lemma ReleaseConnLeaves(s: Server, c: nat, x: Conn)
    requires c in s.conns && (x.refs <= 1 ==> !x.own && !x.env && x.terms == 0)
    ensures var z := ReleaseConn(s.(conns := s.conns[c := x]), c);
            && z.listening == s.listening && z.strms == s.strms
            && ConnsLeft(ConnNodes(s.conns)[c := ConnNode(x)], ConnNodes(z.conns))
  {
    var conns := s.conns[c := x];
    ReleaseConnFrame(s.(conns := conns), c);
    ConnNodesSet(s.conns, c, x);
    if x.refs > 1 {
      ConnCounted(conns, c, x.(refs := x.refs - 1));
    } else {
      ConnNodesSet(conns, c, x);
    }
  }

  lemma LastStreamLeaves(r: Server, c: nat)
    requires c in r.conns
    requires r.conns[c].refs > One(r.conns[c].own) + One(r.conns[c].env) + r.conns[c].terms
    ensures ConnsLeft(ConnNodes(r.conns), ConnNodes(ReleaseConn(r, c).conns))
  {
    ReleaseConnSpec(r, c);
    ConnNodesSet(r.conns, c, r.conns[c]);
    ConnCounted(r.conns, c, r.conns[c].(refs := r.conns[c].refs - 1));
  }

  // The connection of a stream has a reference more than what else holds it.
  lemma StreamKeepsRef(s: Server, i: nat)
    requires Inv(s) && i in s.strms
    ensures var c := s.strms[i].conn;
            c in s.conns && s.conns[c].refs > One(s.conns[c].own) + One(s.conns[c].env) + s.conns[c].terms
  {
    var c := s.strms[i].conn;
    StrmConnLives(s, i);
    ConnOf(s, c);
    assert i in StreamsOf(s.strms, c);
  }

  // So does releasing one of a stream, which may release its connection.
  lemma ReleaseStrmLeaves(s: Server, i: nat, x: Strm)
    requires i in s.strms && (x.refs <= 1 ==> !StrmHeld(StrmNode(x)))
    ensures var z := ReleaseStrm(s.(strms := s.strms[i := x]), i);
            z.listening == s.listening && StrmsLeft(StrmNodes(s.strms)[i := StrmNode(x)], StrmNodes(z.strms))
  {
    var r := s.(strms := s.strms[i := x]);
    ReleaseStrmFrame(r, i);
    StrmNodesSet(s.strms, i, x);
    StrmNodesSet(r.strms, i, x.(refs := x.refs - 1));
  }

  lemma ReleaseStrmLeavesConns(s: Server, i: nat, x: Strm)
    requires Inv(s) && i in s.strms && x.conn == s.strms[i].conn
    ensures ConnsLeft(ConnNodes(s.conns), ConnNodes(ReleaseStrm(s.(strms := s.strms[i := x]), i).conns))
  {
    var r := s.(strms := s.strms[i := x]);
    ReleaseStrmSpec(r, i);
    if x.refs <= 1 {
      StreamKeepsRef(s, i);
      LastStreamLeaves(r, x.conn);
    }
  }

  ghost predicate StepCleans(s: Server, step: Step) {
    Cleaned(Changed(Uncounted(s), step), Uncounted(Next(s, step)))
  }

  // Steps that free nothing.
  lemma SameCleans(s: Server, step: Step)
    requires Uncounted(Next(s, step)) == Changed(Uncounted(s), step)
    ensures StepCleans(s, step)
  {
  }

  // Steps that change one record of a connection or stream and release it once.
  lemma ConnStepCleans(s: Server, step: Step, c: nat, x: Conn)
    requires c in s.conns && (x.refs <= 1 ==> !x.own && !x.env && x.terms == 0)
    requires Changed(Uncounted(s), step) == Uncounted(s).(conns := ConnNodes(s.conns)[c := ConnNode(x)])
    requires Next(s, step) == ReleaseConn(s.(conns := s.conns[c := x]), c)
    ensures StepCleans(s, step)
  {
    ReleaseConnLeaves(s, c, x);
  }

  lemma StrmStepCleans(s: Server, step: Step, i: nat, x: Strm)
    requires i in s.strms && (x.refs <= 1 ==> !StrmHeld(StrmNode(x)))
    requires Changed(Uncounted(s), step) == Uncounted(s).(strms := StrmNodes(s.strms)[i := StrmNode(x)])
    requires Next(s, step) == ReleaseStrm(s.(strms := s.strms[i := x]), i)
    requires ConnsLeft(ConnNodes(s.conns), ConnNodes(Next(s, step).conns))
    ensures StepCleans(s, step)
  {
    ReleaseStrmLeaves(s, i, x);
  }

  lemma NewConnCleans(s: Server, c: nat, how: Accept)
    ensures StepCleans(s, DoNewConn(c, how))
  {
    if c !in s.conns && s.listening {
      match how {
        case NoAcceptor => assert s.conns[c := Conn(false, true, false, 0, 1)] - {c} == s.conns;
        case OwnerGone =>
          var x := Conn(false, true, true, 0, 2);
          ConnNodesSet(s.conns, c, x.(refs := 1));
          assert s.conns[c := x][c := x.(refs := 1)] == s.conns[c := x.(refs := 1)];
        case Accepted => ConnNodesSet(s.conns, c, Conn(true, false, false, 1, 2));
      }
    }
    SameCleans(s, DoNewConn(c, how));
  }

  lemma ConnShutdownCleans(s: Server, c: nat)
    requires c in s.conns ==> s.conns[c].refs >= One(s.conns[c].own) + One(s.conns[c].env) + s.conns[c].terms
    ensures StepCleans(s, DoConnShutdown(c))
  {
    if c in s.conns && s.conns[c].own {
      ConnStepCleans(s, DoConnShutdown(c), c, s.conns[c].(closed := true, own := false));
    } else {
      SameCleans(s, DoConnShutdown(c));
    }
  }

  lemma DropConnTermCleans(s: Server, c: nat)
    requires c in s.conns ==> s.conns[c].refs >= One(s.conns[c].own) + One(s.conns[c].env) + s.conns[c].terms
    ensures StepCleans(s, DoDropConnTerm(c))
  {
    if c in s.conns && s.conns[c].terms > 0 {
      ConnStepCleans(s, DoDropConnTerm(c), c, s.conns[c].(terms := s.conns[c].terms - 1));
    } else {
      SameCleans(s, DoDropConnTerm(c));
    }
  }

  lemma DropStrmTermCleans(s: Server, i: nat)
    requires i in s.strms ==> StrmOk(s.strms[i], 0)
    requires ConnsLeft(ConnNodes(s.conns), ConnNodes(DropStrmTerm(s, i).conns))
    ensures StepCleans(s, DoDropStrmTerm(i))
  {
    if i in s.strms && s.strms[i].terms > 0 {
      StrmStepCleans(s, DoDropStrmTerm(i), i, s.strms[i].(terms := s.strms[i].terms - 1));
    } else {
      SameCleans(s, DoDropStrmTerm(i));
    }
  }

  lemma StrmShutdownCleans(s: Server, i: nat)
    requires i in s.strms ==> StrmOk(s.strms[i], 0)
    requires ConnsLeft(ConnNodes(s.conns), ConnNodes(StrmShutdown(s, i).conns))
    ensures StepCleans(s, DoStrmShutdown(i))
  {
    if i in s.strms && s.strms[i].own && s.strms[i].handler {
      StrmShutdownIs(s, i);
      StrmStepCleans(s, DoStrmShutdown(i), i, ShutStrm(s.strms[i]));
    } else {
      SameCleans(s, DoStrmShutdown(i));
    }
  }

  // A released stream leaves its connection to the others that hold it.
  lemma DropStrmTermLeaves(s: Server, i: nat)
    requires Inv(s)
    ensures ConnsLeft(ConnNodes(s.conns), ConnNodes(DropStrmTerm(s, i).conns))
  {
    if i in s.strms && s.strms[i].terms > 0 {
      ReleaseStrmLeavesConns(s, i, s.strms[i].(terms := s.strms[i].terms - 1));
    }
  }

  lemma StrmShutdownLeaves(s: Server, i: nat)
    requires Inv(s)
    ensures ConnsLeft(ConnNodes(s.conns), ConnNodes(StrmShutdown(s, i).conns))
  {
    if i in s.strms && s.strms[i].own && s.strms[i].handler {
      StrmOf(s, i);
      StrmShutdownIs(s, i);
      ReleaseStrmLeavesConns(s, i, ShutStrm(s.strms[i]));
    }
  }

  lemma StrmEventCleans(s: Server, i: nat)
    requires i in s.strms ==> StrmOk(s.strms[i], 0)
    ensures StepCleans(s, DoStrmEvent(i))
  {
    if i in s.strms && s.strms[i].own && s.strms[i].handler {
      StrmEventIs(s, i);
      StrmNodesSet(s.strms, i, s.strms[i].(env := false, refs := s.strms[i].refs - One(s.strms[i].env)));
    }
    SameCleans(s, DoStrmEvent(i));
  }

  // A stream that keeps its connection.
  lemma KeptCleans(s: Server, c: nat, i: nat, x: Strm)
    requires c in s.conns
    ensures var y := s.conns[c].(refs := s.conns[c].refs + 1);
            Uncounted(s.(conns := s.conns[c := y], strms := s.strms[i := x]))
            == Uncounted(s).(strms := StrmNodes(s.strms)[i := StrmNode(x)])
  {
    ConnCounted(s.conns, c, s.conns[c].(refs := s.conns[c].refs + 1));
    StrmNodesSet(s.strms, i, x);
  }

  lemma PeerStreamKept(s: Server, c: nat, i: nat, sent: bool)
    requires c in s.conns && s.conns[c].own && !s.conns[c].closed && i !in s.strms
    ensures Uncounted(PeerStream(s, c, i, sent)) == Changed(Uncounted(s), DoPeerStream(c, i, sent))
  {
    KeptCleans(s, c, i, NewStrm(c, sent));
  }

  lemma PeerStreamRefused(s: Server, c: nat, i: nat, sent: bool)
    requires c !in s.conns || !s.conns[c].own || s.conns[c].closed || i in s.strms
    ensures PeerStream(s, c, i, sent) == s && Changed(Uncounted(s), DoPeerStream(c, i, sent)) == Uncounted(s)
  {
  }

  lemma PeerStreamCleans(s: Server, c: nat, i: nat, sent: bool)
    ensures StepCleans(s, DoPeerStream(c, i, sent))
  {
    if c in s.conns && s.conns[c].own && !s.conns[c].closed && i !in s.strms {
      PeerStreamKept(s, c, i, sent);
    } else {
      PeerStreamRefused(s, c, i, sent);
    }
    SameCleans(s, DoPeerStream(c, i, sent));
  }

  lemma LocalStreamCleans(s: Server, c: nat, i: nat, ok: bool)
    requires c in s.conns ==> s.conns[c].refs > 0
    ensures StepCleans(s, DoLocalStream(c, i, ok))
  {
    if c in s.conns && s.conns[c].terms > 0 && i !in s.strms {
      if ok {
        KeptCleans(s, c, i, Strm(c, true, true, true, true, false, 1, 3));
      } else {
        FailedStartIsUndone(s, c, i);
      }
    }
    SameCleans(s, DoLocalStream(c, i, ok));
  }

  lemma StartCompleteCleans(s: Server, i: nat)
    ensures StepCleans(s, DoStartComplete(i))
  {
    if i in s.strms {
      StrmNodesSet(s.strms, i, s.strms[i].(closed := false));
    }
    SameCleans(s, DoStartComplete(i));
  }

  lemma CopyConnTermCleans(s: Server, c: nat)
    ensures StepCleans(s, DoCopyConnTerm(c))
  {
    if c in s.conns {
      ConnNodesSet(s.conns, c, s.conns[c].(terms := s.conns[c].terms + 1, refs := s.conns[c].refs + 1));
    }
    SameCleans(s, DoCopyConnTerm(c));
  }

  lemma CopyStrmTermCleans(s: Server, i: nat)
    ensures StepCleans(s, DoCopyStrmTerm(i))
  {
    if i in s.strms {
      StrmNodesSet(s.strms, i, s.strms[i].(terms := s.strms[i].terms + 1, refs := s.strms[i].refs + 1));
    }
    SameCleans(s, DoCopyStrmTerm(i));
  }

  lemma ConnRefs(s: Server, c: nat)
    requires Inv(s)
    ensures c in s.conns ==>
              s.conns[c].refs > 0 && s.conns[c].refs >= One(s.conns[c].own) + One(s.conns[c].env) + s.conns[c].terms
  {
    if c in s.conns {
      ConnOf(s, c);
    }
  }

  lemma StrmRefs(s: Server, i: nat)
    requires Inv(s)
    ensures i in s.strms ==> StrmOk(s.strms[i], 0)
  {
    if i in s.strms {
      StrmOf(s, i);
    }
  }

  lemma ConnNextCleans(s: Server, step: Step)
    requires Inv(s)
    requires step.DoNewConn? || step.DoConnShutdown? || step.DoCopyConnTerm? || step.DoDropConnTerm?
             || step.DoListenerGone?
    ensures StepCleans(s, step)
  {
    match step {
      case DoNewConn(c, how) => NewConnCleans(s, c, how);
      case DoConnShutdown(c) => ConnRefs(s, c); ConnShutdownCleans(s, c);
      case DoCopyConnTerm(c) => CopyConnTermCleans(s, c);
      case DoDropConnTerm(c) => ConnRefs(s, c); DropConnTermCleans(s, c);
      case DoListenerGone => SameCleans(s, step);
    }
  }

  lemma StrmNextCleans(s: Server, step: Step)
    requires Inv(s)
    requires step.DoStrmEvent? || step.DoStrmShutdown? || step.DoCopyStrmTerm? || step.DoDropStrmTerm?
             || step.DoStartComplete?
    ensures StepCleans(s, step)
  {
    match step {
      case DoStartComplete(i) => StartCompleteCleans(s, i);
      case DoStrmEvent(i) => StrmRefs(s, i); StrmEventCleans(s, i);
      case DoStrmShutdown(i) => StrmRefs(s, i); StrmShutdownLeaves(s, i); StrmShutdownCleans(s, i);
      case DoCopyStrmTerm(i) => CopyStrmTermCleans(s, i);
      case DoDropStrmTerm(i) => StrmRefs(s, i); DropStrmTermLeaves(s, i); DropStrmTermCleans(s, i);
    }
  }

  lemma NextCleans(s: Server, step: Step)
    requires Inv(s)
    ensures StepCleans(s, step)
  {
    match step {
      case DoPeerStream(c, i, sent) => PeerStreamCleans(s, c, i, sent);
      case DoLocalStream(c, i, ok) => ConnRefs(s, c); LocalStreamCleans(s, c, i, ok);
      case _ =>
        if step.DoNewConn? || step.DoConnShutdown? || step.DoCopyConnTerm? || step.DoDropConnTerm?
           || step.DoListenerGone? {
          ConnNextCleans(s, step);
        } else {
          StrmNextCleans(s, step);
        }
    }
  }

  // Over every run the counters and their cascading releases do exactly what a collector
  // would: contexts and their contents are those that somebody still holds, and the
  // configuration lives as long as the listener or a connection.
  lemma {:induction false} CountingIsCollecting(t: Trace<Step>)
    ensures Uncounted(Run(Init(), t)) == Behaves(t)
    ensures Run(Init(), t).cfgLive <==> Behaves(t).listening || Behaves(t).conns != map[]
  {
    CountsAreExact(t);
    var s := Run(Init(), t);
    assert Uncounted(s).conns.Keys == s.conns.Keys;
    if t.Then? {
      CountingIsCollecting(t.before);
      RunInv(Init(), t.before);
      NextCleans(Run(Init(), t.before), t.step);
      NextInv(Run(Init(), t.before), t.step);
      CleanedIsCollected(Changed(Behaves(t.before), t.step), s);
    }
  }
}
