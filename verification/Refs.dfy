/** Reference counts on the server accept path: the configuration of a listener, the
    connections that use it, and their streams (c_src/quicer_ctx.c, c_src/quicer_nif.c,
    c_src/quicer_listener.c, c_src/quicer_connection.c, c_src/quicer_stream.c).

    A resource is live while it is in its map. `refs` is the counter that the keep and
    release calls change; reaching zero runs the deallocation callback at once. */
module Refs {
  import opened Runs

  datatype Conn = Conn(
    own: bool,       // the reference of enif_alloc_resource, released by destroy_c_ctx
    closed: bool,    // is_closed
    env: bool,       // a term left in c_ctx->env, which only the deallocation frees
    terms: nat,      // Erlang terms held by processes
    refs: int)

  datatype Strm = Strm(
    conn: nat,       // c_ctx, kept
    own: bool,
    closed: bool,
    handler: bool,   // MsQuic will report SHUTDOWN_COMPLETE to this context
    handle: bool,    // eHandle, a term in imm_env
    env: bool,       // the new_stream term, in s_ctx->env until the next stream event
    terms: nat,
    refs: int)

  datatype Server = Server(
    cfgLive: bool,
    cfgRefs: int,
    listening: bool,           // the listener context still holds its configuration
    conns: map<nat, Conn>,
    strms: map<nat, Strm>,
    assertsOk: bool)           // the assertions of the deallocation callbacks

  function Init(): Server {
    Server(true, 1, true, map[], map[], true)
  }

  // ---------------------------------------------------------------- keep and release

  function KeepConfig(s: Server): Server {
    s.(cfgRefs := s.cfgRefs + 1)
  }

  function ReleaseConfig(s: Server): Server {
    s.(cfgRefs := s.cfgRefs - 1, cfgLive := s.cfgLive && s.cfgRefs > 1)
  }

  // Down to zero: resource_conn_dealloc_callback, which ends in deinit_c_ctx.
  function ReleaseConn(s: Server, c: nat): Server {
    if c !in s.conns then s
    else
      var x := s.conns[c];
      if x.refs > 1 then s.(conns := s.conns[c := x.(refs := x.refs - 1)])
      else ReleaseConfig(s.(conns := s.conns - {c}, assertsOk := s.assertsOk && x.closed))
  }

  // Down to zero: resource_stream_dealloc_callback, which closes the stream and then
  // releases the connection.
  function ReleaseStrm(s: Server, i: nat): Server {
    if i !in s.strms then s
    else
      var x := s.strms[i];
      if x.refs > 1 then s.(strms := s.strms[i := x.(refs := x.refs - 1)])
      else ReleaseConn(s.(strms := s.strms - {i}, assertsOk := s.assertsOk && x.closed), x.conn)
  }

  // ---------------------------------------------------------------- steps

  // How ServerListenerCallback ends: no acceptor waits; the owner cannot be told, and the
  // term made for it stays in the environment of the context; or the connection is
  // accepted, and the environment is cleared.
  datatype Accept = NoAcceptor | OwnerGone | Accepted

  // QUIC_LISTENER_EVENT_NEW_CONNECTION
  function NewConn(s: Server, c: nat, how: Accept): Server {
    if c in s.conns || !s.listening then s
    else
      var t := KeepConfig(s);
      match how
      case NoAcceptor => ReleaseConn(t.(conns := t.conns[c := Conn(false, true, false, 0, 1)]), c)
      case OwnerGone => ReleaseConn(t.(conns := t.conns[c := Conn(false, true, true, 0, 2)]), c)
      case Accepted => t.(conns := t.conns[c := Conn(true, false, false, 1, 2)])
  }

  // QUIC_CONNECTION_EVENT_SHUTDOWN_COMPLETE, then destroy_c_ctx
  function ConnShutdown(s: Server, c: nat): Server {
    if c in s.conns && s.conns[c].own then
      ReleaseConn(s.(conns := s.conns[c := s.conns[c].(closed := true, own := false)]), c)
    else s
  }

  function NewStrm(c: nat, sent: bool): Strm {
    if sent then Strm(c, true, false, true, true, true, 1, 4) else Strm(c, true, false, false, true, true, 0, 3)
  }

  // QUIC_CONNECTION_EVENT_PEER_STREAM_STARTED. If the owner cannot be told, the context is
  // neither registered with MsQuic nor released, and its environments are not freed.
  function PeerStream(s: Server, c: nat, i: nat, sent: bool): Server {
    if c !in s.conns || !s.conns[c].own || s.conns[c].closed || i in s.strms then s
    else
      var x := s.conns[c];
      s.(conns := s.conns[c := x.(refs := x.refs + 1)],
         strms := s.strms[i := NewStrm(c, sent)])
  }

  // async_start_stream2, called with a term of the connection; a failure before the stream
  // handle exists is undone by destroy_s_ctx.
  function LocalStream(s: Server, c: nat, i: nat, ok: bool): Server {
    if c !in s.conns || s.conns[c].terms == 0 || i in s.strms then s
    else
      var x := s.conns[c];
      var t := s.(conns := s.conns[c := x.(refs := x.refs + 1)]);
      if ok then t.(strms := t.strms[i := Strm(c, true, true, true, true, false, 1, 3)])
      else ReleaseStrm(t.(strms := t.strms[i := Strm(c, false, true, false, false, false, 0, 1)]), i)
  }

  // QUIC_STREAM_EVENT_START_COMPLETE
  function StartComplete(s: Server, i: nat): Server {
    if i in s.strms && s.strms[i].own && s.strms[i].handler then
      s.(strms := s.strms[i := s.strms[i].(closed := false)])
    else s
  }

  // Any stream event ends with enif_clear_env.
  function StrmEvent(s: Server, i: nat): Server {
    if i in s.strms && s.strms[i].own && s.strms[i].handler && s.strms[i].env then
      ReleaseStrm(s.(strms := s.strms[i := s.strms[i].(env := false)]), i)
    else s
  }

  // destroy_s_ctx: imm_env and its term go, the own reference is released.
  function DestroyStrm(s: Server, i: nat): Server {
    if i !in s.strms then s
    else
      var t := s.(strms := s.strms[i := s.strms[i].(closed := true, own := false)]);
      var u := if t.strms[i].handle then ReleaseStrm(t.(strms := t.strms[i := t.strms[i].(handle := false)]), i) else t;
      ReleaseStrm(u, i)
  }

  // QUIC_STREAM_EVENT_SHUTDOWN_COMPLETE
  function StrmShutdown(s: Server, i: nat): Server {
    if i in s.strms && s.strms[i].own && s.strms[i].handler then DestroyStrm(StrmEvent(s, i), i) else s
  }

  function CopyConnTerm(s: Server, c: nat): Server {
    if c !in s.conns then s
    else
      var x := s.conns[c];
      s.(conns := s.conns[c := x.(terms := x.terms + 1, refs := x.refs + 1)])
  }

  function DropConnTerm(s: Server, c: nat): Server {
    if c in s.conns && s.conns[c].terms > 0 then
      ReleaseConn(s.(conns := s.conns[c := s.conns[c].(terms := s.conns[c].terms - 1)]), c)
    else s
  }

  function CopyStrmTerm(s: Server, i: nat): Server {
    if i !in s.strms then s
    else
      var x := s.strms[i];
      s.(strms := s.strms[i := x.(terms := x.terms + 1, refs := x.refs + 1)])
  }

  function DropStrmTerm(s: Server, i: nat): Server {
    if i in s.strms && s.strms[i].terms > 0 then
      ReleaseStrm(s.(strms := s.strms[i := s.strms[i].(terms := s.strms[i].terms - 1)]), i)
    else s
  }

  // destroy_l_ctx
  function ListenerGone(s: Server): Server {
    if s.listening then ReleaseConfig(s.(listening := false)) else s
  }

  datatype Step =
    | DoNewConn(c: nat, how: Accept)
    | DoConnShutdown(c: nat)
    | DoPeerStream(c: nat, i: nat, sent: bool)
    | DoLocalStream(c: nat, i: nat, ok: bool)
    | DoStartComplete(i: nat)
    | DoStrmEvent(i: nat)
    | DoStrmShutdown(i: nat)
    | DoCopyConnTerm(c: nat)
    | DoDropConnTerm(c: nat)
    | DoCopyStrmTerm(i: nat)
    | DoDropStrmTerm(i: nat)
    | DoListenerGone

  function Next(s: Server, step: Step): Server {
    match step
    case DoNewConn(c, how) => NewConn(s, c, how)
    case DoConnShutdown(c) => ConnShutdown(s, c)
    case DoPeerStream(c, i, sent) => PeerStream(s, c, i, sent)
    case DoLocalStream(c, i, ok) => LocalStream(s, c, i, ok)
    case DoStartComplete(i) => StartComplete(s, i)
    case DoStrmEvent(i) => StrmEvent(s, i)
    case DoStrmShutdown(i) => StrmShutdown(s, i)
    case DoCopyConnTerm(c) => CopyConnTerm(s, c)
    case DoDropConnTerm(c) => DropConnTerm(s, c)
    case DoCopyStrmTerm(i) => CopyStrmTerm(s, i)
    case DoDropStrmTerm(i) => DropStrmTerm(s, i)
    case DoListenerGone => ListenerGone(s)
  }

  // ---------------------------------------------------------------- what the counts mean

  function One(b: bool): int {
    if b then 1 else 0
  }

  ghost function StreamsOf(strms: map<nat, Strm>, c: nat): set<nat> {
    set i | i in strms && strms[i].conn == c
  }

  // A stream's counter, and one reference about to be released.
  ghost predicate StrmOk(x: Strm, debt: int) {
    && x.refs == One(x.own) + One(x.handle) + One(x.env) + x.terms + debt && x.refs > 0
    && (!x.own ==> x.closed)
  }

  // A connection's counter: its own reference, all its terms and its live streams.
  ghost predicate ConnOk(x: Conn, streams: int, debt: int) {
    && x.refs == One(x.own) + One(x.env) + x.terms + streams + debt && x.refs > 0
    && (!x.own ==> x.closed)
  }

  ghost predicate ConnsOk(s: Server, who: nat, debt: int) {
    forall c :: c in s.conns ==> ConnOk(s.conns[c], |StreamsOf(s.strms, c)|, if c == who then debt else 0)
  }

  ghost predicate StrmsOk(s: Server, who: nat, debt: int) {
    forall i :: i in s.strms ==> StrmOk(s.strms[i], if i == who then debt else 0) && s.strms[i].conn in s.conns
  }

  ghost predicate CfgOk(s: Server, debt: int) {
    && s.cfgRefs == One(s.listening) + |s.conns| + debt
    && (s.cfgLive <==> s.cfgRefs > 0)
  }

  // Every counter is exact; nothing live refers to something freed: the connection of a
  // live stream is live, and so is the configuration of a live connection.
  ghost predicate Inv(s: Server) {
    && s.assertsOk
    && StrmsOk(s, 0, 0) && ConnsOk(s, 0, 0) && CfgOk(s, 0)
  }

  // ---------------------------------------------------------------- releasing

  lemma SameStreams(a: map<nat, Strm>, i: nat, x: Strm, c: nat)
    requires i in a && x.conn == a[i].conn
    ensures StreamsOf(a[i := x], c) == StreamsOf(a, c)
  {
  }

  lemma NewStream(a: map<nat, Strm>, i: nat, x: Strm, c: nat)
    requires i !in a
    ensures |StreamsOf(a[i := x], c)| == |StreamsOf(a, c)| + One(x.conn == c)
  {
    assert StreamsOf(a[i := x], c) == StreamsOf(a, c) + if x.conn == c then {i} else {};
  }

  lemma GoneStream(a: map<nat, Strm>, i: nat, c: nat)
    requires i in a
    ensures |StreamsOf(a - {i}, c)| == |StreamsOf(a, c)| - One(a[i].conn == c)
  {
    assert StreamsOf(a, c) == StreamsOf(a - {i}, c) + if a[i].conn == c then {i} else {};
  }

  lemma ReleaseConnInv(s: Server, c: nat)
    requires s.assertsOk && c in s.conns && StrmsOk(s, 0, 0) && ConnsOk(s, c, 1) && CfgOk(s, 0)
    ensures Inv(ReleaseConn(s, c))
  {
    var x := s.conns[c];
    if x.refs <= 1 {
      assert StreamsOf(s.strms, c) == {};
      forall i | i in s.strms ensures s.strms[i].conn != c {
        assert i !in StreamsOf(s.strms, c);
      }
      assert |(s.conns - {c}).Keys| == |s.conns.Keys - {c}|;
      assert (s.conns - {c}).Keys == s.conns.Keys - {c};
    } else {
      assert s.conns[c := x.(refs := x.refs - 1)].Keys == s.conns.Keys;
    }
  }

  lemma PayStrm(s: Server, i: nat, x: Strm)
    requires s.assertsOk && i in s.strms && StrmsOk(s, i, 1) && ConnsOk(s, 0, 0) && CfgOk(s, 0)
    requires x == s.strms[i].(refs := s.strms[i].refs - 1) && x.refs > 0
    ensures Inv(s.(strms := s.strms[i := x]))
  {
    forall c ensures StreamsOf(s.strms[i := x], c) == StreamsOf(s.strms, c) {
      SameStreams(s.strms, i, x, c);
    }
  }

  // Without the last reference, the stream is closed; its connection owes one release.
  lemma FreeStrm(s: Server, i: nat)
    requires s.assertsOk && i in s.strms && StrmsOk(s, i, 1) && ConnsOk(s, 0, 0) && CfgOk(s, 0)
    requires s.strms[i].refs == 1
    ensures var x := s.strms[i];
            var t := s.(strms := s.strms - {i}, assertsOk := s.assertsOk && x.closed);
            t.assertsOk && x.conn in t.conns && StrmsOk(t, 0, 0) && ConnsOk(t, x.conn, 1) && CfgOk(t, 0)
  {
    forall c ensures |StreamsOf(s.strms - {i}, c)| == |StreamsOf(s.strms, c)| - One(s.strms[i].conn == c) {
      GoneStream(s.strms, i, c);
    }
  }

  lemma ReleaseStrmInv(s: Server, i: nat)
    requires s.assertsOk && i in s.strms && StrmsOk(s, i, 1) && ConnsOk(s, 0, 0) && CfgOk(s, 0)
    ensures Inv(ReleaseStrm(s, i))
  {
    var x := s.strms[i];
    if x.refs > 1 {
      PayStrm(s, i, x.(refs := x.refs - 1));
    } else {
      FreeStrm(s, i);
      ReleaseConnInv(s.(strms := s.strms - {i}, assertsOk := s.assertsOk && x.closed), x.conn);
    }
  }

  // ---------------------------------------------------------------- every step

  // Replacing the record of one connection.
  lemma SetConnInv(s: Server, c: nat, x: Conn, debt: int)
    requires Inv(s) && c in s.conns && ConnOk(x, |StreamsOf(s.strms, c)|, debt)
    ensures var t := s.(conns := s.conns[c := x]);
            && t.assertsOk && StrmsOk(t, 0, 0) && ConnsOk(t, c, debt) && CfgOk(t, 0)
            && (debt == 0 ==> Inv(t))
  {
    assert s.conns[c := x].Keys == s.conns.Keys;
  }

  lemma ChangeConnInv(s: Server, c: nat, x: Conn)
    requires Inv(s) && c in s.conns && ConnOk(x, |StreamsOf(s.strms, c)|, 1)
    ensures Inv(ReleaseConn(s.(conns := s.conns[c := x]), c))
  {
    SetConnInv(s, c, x, 1);
    ReleaseConnInv(s.(conns := s.conns[c := x]), c);
  }

  lemma NoStreamsYet(s: Server, c: nat)
    requires StrmsOk(s, 0, 0) && c !in s.conns
    ensures StreamsOf(s.strms, c) == {}
  {
    forall i | i in s.strms ensures s.strms[i].conn != c {
      assert s.strms[i].conn in s.conns;
    }
  }

  lemma MoreConns(conns: map<nat, Conn>, c: nat, x: Conn)
    requires c !in conns
    ensures |conns[c := x]| == |conns| + 1
  {
    assert conns[c := x].Keys == conns.Keys + {c};
  }

  // A new connection context that keeps the configuration.
  lemma AddConnInv(s: Server, c: nat, x: Conn, debt: int)
    requires Inv(s) && s.listening && c !in s.conns && ConnOk(x, 0, debt)
    ensures var t := KeepConfig(s).(conns := s.conns[c := x]);
            t.assertsOk && StrmsOk(t, 0, 0) && ConnsOk(t, c, debt) && CfgOk(t, 0)
  {
    NoStreamsYet(s, c);
    MoreConns(s.conns, c, x);
  }

  lemma NewConnInv(s: Server, c: nat, how: Accept)
    requires Inv(s)
    ensures Inv(NewConn(s, c, how))
  {
    if c !in s.conns && s.listening {
      match how {
        case NoAcceptor =>
          AddConnInv(s, c, Conn(false, true, false, 0, 1), 1);
          ReleaseConnInv(KeepConfig(s).(conns := s.conns[c := Conn(false, true, false, 0, 1)]), c);
        case OwnerGone =>
          AddConnInv(s, c, Conn(false, true, true, 0, 2), 1);
          ReleaseConnInv(KeepConfig(s).(conns := s.conns[c := Conn(false, true, true, 0, 2)]), c);
        case Accepted =>
          AddConnInv(s, c, Conn(true, false, false, 1, 2), 0);
      }
    }
  }

  lemma ConnShutdownInv(s: Server, c: nat)
    requires Inv(s)
    ensures Inv(ConnShutdown(s, c))
  {
    if c in s.conns && s.conns[c].own {
      ChangeConnInv(s, c, s.conns[c].(closed := true, own := false));
    }
  }

  // A new stream context that keeps its connection.
  lemma AddStreamInv(s: Server, c: nat, i: nat, x: Strm, debt: int)
    requires Inv(s) && c in s.conns && i !in s.strms && x.conn == c && StrmOk(x, debt)
    ensures var y := s.conns[c].(refs := s.conns[c].refs + 1);
            var t := s.(conns := s.conns[c := y], strms := s.strms[i := x]);
            t.assertsOk && StrmsOk(t, i, debt) && ConnsOk(t, 0, 0) && CfgOk(t, 0)
  {
    var y := s.conns[c].(refs := s.conns[c].refs + 1);
    assert s.conns[c := y].Keys == s.conns.Keys;
    forall d ensures |StreamsOf(s.strms[i := x], d)| == |StreamsOf(s.strms, d)| + One(c == d) {
      NewStream(s.strms, i, x, d);
    }
  }

  lemma PeerStreamInv(s: Server, c: nat, i: nat, sent: bool)
    requires Inv(s)
    ensures Inv(PeerStream(s, c, i, sent))
  {
    if c in s.conns && i !in s.strms {
      AddStreamInv(s, c, i, NewStrm(c, sent), 0);
    }
  }

  lemma ConnOf(s: Server, c: nat)
    requires Inv(s) && c in s.conns
    ensures ConnOk(s.conns[c], |StreamsOf(s.strms, c)|, 0)
  {
  }

  // A stream that could not be started leaves everything as it was.
  lemma FailedStartIsUndone(s: Server, c: nat, i: nat)
    requires c in s.conns && s.conns[c].refs > 0 && s.conns[c].terms > 0 && i !in s.strms
    ensures LocalStream(s, c, i, false) == s
  {
    var x, y := s.conns[c], Strm(c, false, true, false, false, false, 0, 1);
    var t := s.(conns := s.conns[c := x.(refs := x.refs + 1)], strms := s.strms[i := y]);
    assert t.strms - {i} == s.strms;
    assert ReleaseStrm(t, i) == ReleaseConn(t.(strms := s.strms), c);
    assert t.conns[c := x] == s.conns;
  }

  lemma LocalStreamInv(s: Server, c: nat, i: nat, ok: bool)
    requires Inv(s)
    ensures Inv(LocalStream(s, c, i, ok))
  {
    if c in s.conns && i !in s.strms {
      if ok {
        AddStreamInv(s, c, i, Strm(c, true, true, true, true, false, 1, 3), 0);
      } else if s.conns[c].terms > 0 {
        ConnOf(s, c);
        FailedStartIsUndone(s, c, i);
      }
    }
  }

  // Replacing the record of one stream of the same connection.
  lemma SetStrmInv(s: Server, i: nat, x: Strm, debt: int)
    requires Inv(s) && i in s.strms && x.conn == s.strms[i].conn && StrmOk(x, debt)
    ensures var t := s.(strms := s.strms[i := x]);
            && t.assertsOk && StrmsOk(t, i, debt) && ConnsOk(t, 0, 0) && CfgOk(t, 0)
            && (debt == 0 ==> Inv(t))
  {
    forall c ensures StreamsOf(s.strms[i := x], c) == StreamsOf(s.strms, c) {
      SameStreams(s.strms, i, x, c);
    }
  }

  // A record with one reference too many, followed by its release.
  lemma ChangeStrmInv(s: Server, i: nat, x: Strm)
    requires Inv(s) && i in s.strms && x.conn == s.strms[i].conn && StrmOk(x, 1)
    ensures Inv(ReleaseStrm(s.(strms := s.strms[i := x]), i))
  {
    SetStrmInv(s, i, x, 1);
    ReleaseStrmInv(s.(strms := s.strms[i := x]), i);
  }

  lemma StrmOf(s: Server, i: nat)
    requires Inv(s) && i in s.strms
    ensures StrmOk(s.strms[i], 0)
  {
  }

  lemma StrmEventInv(s: Server, i: nat)
    requires Inv(s)
    ensures Inv(StrmEvent(s, i))
  {
    if i in s.strms && s.strms[i].own && s.strms[i].handler && s.strms[i].env {
      StrmOf(s, i);
      ChangeStrmInv(s, i, s.strms[i].(env := false));
    }
  }

  // A stream that owns itself is not freed by clearing its environment.
  lemma StrmEventIs(s: Server, i: nat)
    requires i in s.strms && s.strms[i].own && s.strms[i].handler && StrmOk(s.strms[i], 0)
    ensures var x := s.strms[i];
            StrmEvent(s, i) == s.(strms := s.strms[i := x.(env := false, refs := x.refs - One(x.env))])
  {
    var x := s.strms[i];
    if x.env {
      assert s.strms[i := x.(env := false)][i := x.(env := false, refs := x.refs - 1)]
          == s.strms[i := x.(env := false, refs := x.refs - 1)];
    } else {
      assert s.strms[i := x] == s.strms;
    }
  }

  // A stream context just before its own reference is released.
  function ShutStrm(x: Strm): Strm {
    x.(closed := true, own := false, handle := false, env := false, refs := x.refs - One(x.env) - One(x.handle))
  }

  lemma DestroyStrmIs(s: Server, i: nat)
    requires i in s.strms && (s.strms[i].handle ==> s.strms[i].refs > 1)
    ensures var x := s.strms[i];
            var y := x.(closed := true, own := false, handle := false, refs := x.refs - One(x.handle));
            DestroyStrm(s, i) == ReleaseStrm(s.(strms := s.strms[i := y]), i)
  {
    var x := s.strms[i];
    if x.handle {
      var a := s.strms[i := x.(closed := true, own := false)];
      var b := a[i := a[i].(handle := false)];
      assert b[i := b[i].(refs := x.refs - 1)]
          == s.strms[i := x.(closed := true, own := false, handle := false, refs := x.refs - 1)];
    }
  }

  // The whole of it: one release remains, of the reference of the context itself.
  lemma StrmShutdownIs(s: Server, i: nat)
    requires i in s.strms && s.strms[i].own && s.strms[i].handler && StrmOk(s.strms[i], 0)
    ensures StrmShutdown(s, i) == ReleaseStrm(s.(strms := s.strms[i := ShutStrm(s.strms[i])]), i)
  {
    var x := s.strms[i];
    StrmEventIs(s, i);
    var y := x.(env := false, refs := x.refs - One(x.env));
    DestroyStrmIs(s.(strms := s.strms[i := y]), i);
    assert s.strms[i := y][i := ShutStrm(x)] == s.strms[i := ShutStrm(x)];
  }

  lemma StrmShutdownInv(s: Server, i: nat)
    requires Inv(s)
    ensures Inv(StrmShutdown(s, i))
  {
    if i in s.strms && s.strms[i].own && s.strms[i].handler {
      StrmOf(s, i);
      StrmShutdownIs(s, i);
      ChangeStrmInv(s, i, ShutStrm(s.strms[i]));
    }
  }

  lemma CopyConnTermInv(s: Server, c: nat)
    requires Inv(s)
    ensures Inv(CopyConnTerm(s, c))
  {
    if c in s.conns {
      ConnOf(s, c);
      SetConnInv(s, c, s.conns[c].(terms := s.conns[c].terms + 1, refs := s.conns[c].refs + 1), 0);
    }
  }

  lemma DropConnTermInv(s: Server, c: nat)
    requires Inv(s)
    ensures Inv(DropConnTerm(s, c))
  {
    if c in s.conns && s.conns[c].terms > 0 {
      ConnOf(s, c);
      ChangeConnInv(s, c, s.conns[c].(terms := s.conns[c].terms - 1));
    }
  }

  lemma CopyStrmTermInv(s: Server, i: nat)
    requires Inv(s)
    ensures Inv(CopyStrmTerm(s, i))
  {
    if i in s.strms {
      StrmOf(s, i);
      SetStrmInv(s, i, s.strms[i].(terms := s.strms[i].terms + 1, refs := s.strms[i].refs + 1), 0);
    }
  }

  lemma DropStrmTermInv(s: Server, i: nat)
    requires Inv(s)
    ensures Inv(DropStrmTerm(s, i))
  {
    if i in s.strms && s.strms[i].terms > 0 {
      StrmOf(s, i);
      ChangeStrmInv(s, i, s.strms[i].(terms := s.strms[i].terms - 1));
    }
  }

  lemma StartCompleteInv(s: Server, i: nat)
    requires Inv(s)
    ensures Inv(StartComplete(s, i))
  {
    if i in s.strms && s.strms[i].own {
      StrmOf(s, i);
      SetStrmInv(s, i, s.strms[i].(closed := false), 0);
    }
  }

  lemma NextInv(s: Server, step: Step)
    requires Inv(s)
    ensures Inv(Next(s, step))
  {
    match step {
      case DoNewConn(c, how) => NewConnInv(s, c, how);
      case DoConnShutdown(c) => ConnShutdownInv(s, c);
      case DoPeerStream(c, i, sent) => PeerStreamInv(s, c, i, sent);
      case DoLocalStream(c, i, ok) => LocalStreamInv(s, c, i, ok);
      case DoStrmShutdown(i) => StrmShutdownInv(s, i);
      case DoListenerGone =>
      case DoCopyConnTerm(c) => CopyConnTermInv(s, c);
      case DoDropConnTerm(c) => DropConnTermInv(s, c);
      case DoCopyStrmTerm(i) => CopyStrmTermInv(s, i);
      case DoDropStrmTerm(i) => DropStrmTermInv(s, i);
      case DoStartComplete(i) => StartCompleteInv(s, i);
      case DoStrmEvent(i) => StrmEventInv(s, i);
    }
  }

  // ---------------------------------------------------------------- the theorems

  function Run(s: Server, t: Trace<Step>): Server {
    match t
    case Begin => s
    case Then(before, step) => Next(Run(s, before), step)
  }

  lemma {:induction false} RunInv(s: Server, t: Trace<Step>)
    requires Inv(s)
    ensures Inv(Run(s, t))
  {
    if t.Then? {
      RunInv(s, t.before);
      NextInv(Run(s, t.before), t.step);
    }
  }

  // Over all runs the counters are exact, so the assertions of the deallocation callbacks
  // hold, and no live resource refers to a freed one: a connection goes only when it is
  // closed and after all its streams, the configuration only after all connections and
  // the listener.
  lemma CountsAreExact(t: Trace<Step>)
    ensures var s := Run(Init(), t);
            && s.assertsOk
            && (forall c :: c in s.conns ==>
                  var x := s.conns[c];
                  x.refs == One(x.own) + One(x.env) + x.terms + |StreamsOf(s.strms, c)| && s.cfgLive)
            && (forall i :: i in s.strms ==> s.strms[i].conn in s.conns)
            && (s.cfgLive <==> s.listening || s.conns != map[])
  {
    RunInv(Init(), t);
    var s := Run(Init(), t);
    forall c | c in s.conns ensures s.cfgLive {
      assert |s.conns| > 0;
    }
  }

  // ---------------------------------------------------------------- the contexts

  lemma NewConnInvIf(s: Server, c: nat, how: Accept)
    ensures Inv(s) ==> Inv(NewConn(s, c, how))
  {
    if Inv(s) {
      NewConnInv(s, c, how);
    }
  }

  lemma ConnShutdownInvIf(s: Server, c: nat)
    ensures Inv(s) ==> Inv(ConnShutdown(s, c))
  {
    if Inv(s) {
      ConnShutdownInv(s, c);
    }
  }

  /** The contexts of a listener's server side, updated in place. */
  class Contexts {
    var cfgLive: bool
    var cfgRefs: int
    var listening: bool
    var conns: map<nat, Conn>
    var strms: map<nat, Strm>
    var assertsOk: bool

    function Value(): Server
      reads this
    {
      Server(cfgLive, cfgRefs, listening, conns, strms, assertsOk)
    }

    constructor ()
      ensures Value() == Init()
    {
      cfgLive, cfgRefs, listening, conns, strms, assertsOk := true, 1, true, map[], map[], true;
    }

    // enif_release_resource on a configuration
    method ReleaseConfigCtx()
      modifies this
      ensures Value() == ReleaseConfig(old(Value()))
    {
      cfgRefs := cfgRefs - 1;
      if cfgRefs <= 0 {
        cfgLive := false;
      }
    }

    // enif_release_resource on a connection context
    method ReleaseConnCtx(c: nat)
      requires c in conns
      modifies this
      ensures Value() == ReleaseConn(old(Value()), c)
    {
      var x := conns[c];
      if x.refs > 1 {
        conns := conns[c := x.(refs := x.refs - 1)];
      } else {
        assertsOk := assertsOk && x.closed;
        conns := conns - {c};
        ReleaseConfigCtx();
      }
    }

    // enif_release_resource on a stream context
    method ReleaseStrmCtx(i: nat)
      requires i in strms && strms[i].conn in conns
      modifies this
      ensures Value() == ReleaseStrm(old(Value()), i)
    {
      var x := strms[i];
      if x.refs > 1 {
        strms := strms[i := x.(refs := x.refs - 1)];
      } else {
        assertsOk := assertsOk && x.closed;
        strms := strms - {i};
        ReleaseConnCtx(x.conn);
      }
    }

    // NEW_CONNECTION in ServerListenerCallback
    method OnNewConnection(c: nat, how: Accept)
      requires c !in conns && listening
      modifies this
      ensures Value() == NewConn(old(Value()), c, how)
      ensures Inv(old(Value())) ==> Inv(Value())
    {
      NewConnInvIf(Value(), c, how);
      cfgRefs := cfgRefs + 1;
      match how {
        case NoAcceptor =>
          conns := conns[c := Conn(false, true, false, 0, 1)];
          ReleaseConnCtx(c);
        case OwnerGone =>
          conns := conns[c := Conn(false, true, true, 0, 2)];
          ReleaseConnCtx(c);
        case Accepted =>
          conns := conns[c := Conn(true, false, false, 1, 2)];
      }
    }

    // SHUTDOWN_COMPLETE in ServerConnectionCallback
    method OnConnShutdownComplete(c: nat)
      requires c in conns && conns[c].own
      modifies this
      ensures Value() == ConnShutdown(old(Value()), c)
      ensures Inv(old(Value())) ==> Inv(Value())
    {
      ConnShutdownInvIf(Value(), c);
      conns := conns[c := conns[c].(closed := true, own := false)];
      ReleaseConnCtx(c);
    }
  }
}
