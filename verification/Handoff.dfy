/** Handing a stream over to another process: `handoff_stream`, `do_forward_stream_msgs`
    (src/quicer.erl), `stream_controlling_process` (c_src/quicer_nif.c) and
    `wait_for_handoff` (src/quicer_stream.erl), interleaved with the MsQuic callback.

    Each step is atomic: one NIF call, one message sent or taken, or one callback. */
module Handoff {
  import opened Bytes
  import opened RecvMode
  import opened Receive
  import opened Reassembly
  import opened Messages
  import opened Runs
  import P = Places

  datatype Msg =
    | Stream(o: Output)     // {quic, _, Stream, _} sent by handle_stream_event_recv
    | Event(id: nat)        // any other {quic, _, Stream, _} event
    | HandoffDone           // {handoff_done, Stream, Data}
    | Down                  // {'DOWN', MRef, process, NewOwner, _}

  // Where the old owner is in handoff_stream. `saved` is the owner record at the time of
  // getopt; the code keeps GetMode(saved).
  datatype Phase =
    | Working
    | GotOpt(saved: Owner)
    | Forwarding(saved: Owner)
    | Forwarded(saved: Owner)
    | Transferred(saved: Owner)
    | Signalled(saved: Owner)
    | Failing(saved: Owner)
    | Finished(ok: bool)

  datatype Pid = Old | New

  datatype Sys = Sys(
    st: State,
    pid: Pid,                      // s_ctx->owner->Pid
    phase: Phase,
    oldMbox: seq<Msg>,
    newMbox: seq<Msg>,
    newAlive: bool,
    newReady: bool,                // the new owner has returned from wait_for_handoff
    // history, data messages only, from byte `base` of the stream on: sent by the callback;
    // handled by the old owner before the handoff and after it, and by the new owner; lost
    // with a dead new owner
    base: nat,
    sent: seq<DataEvent>,
    oldHandled: seq<DataEvent>,
    resumed: seq<DataEvent>,
    newHandled: seq<DataEvent>,
    lost: seq<DataEvent>)

  datatype Move =
    | MArrive(bytes: seq<byte>)
    | MCallback(n: nat, flags: nat)   // a RECEIVE event
    | MOtherEvent(id: nat)            // any other stream event
    | MOldHandles                     // the old owner handles its first message
    | MOldSets(v: Opt)                // the owner calls setopt(Stream, active, V)
    | MGetOpt
    | MSetFalse
    | MForwardNext
    | MTransfer
    | MSignal
    | MRestore
    | MNewTakesDone
    | MNewHandles
    | MNewSets(v: Opt)
    | MNewDies

  function Wrap(out: seq<Output>): seq<Msg> {
    seq(|out|, i requires 0 <= i < |out| => Stream(out[i]))
  }

  function DataOf(m: Msg): seq<DataEvent> {
    match m
    case Stream(o) => EventOf(o)
    case _ => []
  }

  // The data messages in a mailbox.
  function Datas(ms: seq<Msg>): seq<DataEvent> {
    if ms == [] then [] else DataOf(ms[0]) + Datas(ms[1..])
  }

  function RemoveFirst(ms: seq<Msg>, m: Msg): seq<Msg> {
    if ms == [] then [] else if ms[0] == m then ms[1..] else [ms[0]] + RemoveFirst(ms[1..], m)
  }

  // A message to the new owner; to a dead process it is lost.
  function ToNew(y: Sys, ms: seq<Msg>): Sys {
    if y.newAlive then y.(newMbox := y.newMbox + ms) else y.(lost := y.lost + Datas(ms))
  }

  // enif_send to the current owner
  function Send(y: Sys, ms: seq<Msg>): Sys {
    if y.pid == Old then y.(oldMbox := y.oldMbox + ms) else ToNew(y, ms)
  }

  // erlang:monitor/2 answers at once for a dead process.
  function Monitor(y: Sys): Sys {
    if y.newAlive then y else y.(oldMbox := y.oldMbox + [Down])
  }

  function SetActiveIf(y: Sys, b: bool, v: Opt): Sys {
    if b then y.(st := OnSetActive(y.st, v).s) else y
  }

  // The moves; one that is not possible changes nothing.

  function Callback(y: Sys, n: nat, flags: nat): Sys {
    var r := Step(y.st, Indicate(n, flags));
    Send(y.(st := r.s, sent := y.sent + Datas(Wrap(r.out))), Wrap(r.out))
  }

  function OldHandles(y: Sys): Sys {
    if y.oldMbox == [] then y
    else if y.phase.Working? then y.(oldMbox := y.oldMbox[1..], oldHandled := y.oldHandled + DataOf(y.oldMbox[0]))
    else if y.phase.Finished? then y.(oldMbox := y.oldMbox[1..], resumed := y.resumed + DataOf(y.oldMbox[0]))
    else y
  }

  // The old owner has the stream and is not inside handoff_stream.
  predicate OldOwns(y: Sys) {
    y.phase.Working? || (y.phase.Finished? && y.pid == Old)
  }

  function SetFalse(y: Sys): Sys {
    if y.phase.GotOpt? then
      Monitor(SetActiveIf(y, GetMode(y.phase.saved) != OptFalse, OptFalse).(phase := Forwarding(y.phase.saved)))
    else y
  }

  // One round of do_forward_stream_msgs.
  function ForwardNext(y: Sys): Sys {
    if !y.phase.Forwarding? then y
    else if y.oldMbox == [] then y.(phase := Forwarded(y.phase.saved))
    else if y.oldMbox[0] == Down then y.(oldMbox := y.oldMbox[1..], phase := Failing(y.phase.saved))
    else ToNew(y.(oldMbox := y.oldMbox[1..]), [y.oldMbox[0]])
  }

  // controlling_process; its result is ignored.
  function Transfer(y: Sys): Sys {
    if y.phase.Forwarded? then
      y.(phase := Transferred(y.phase.saved), pid := if y.newAlive then New else y.pid)
    else y
  }

  function Signal(y: Sys): Sys {
    if y.phase.Transferred? then ToNew(y.(phase := Signalled(y.phase.saved)), [HandoffDone]) else y
  }

  function Restore(y: Sys): Sys {
    if y.phase.Signalled? || y.phase.Failing? then
      var v := GetMode(y.phase.saved);
      SetActiveIf(y, v != OptFalse, v).(phase := Finished(y.phase.Signalled?))
    else y
  }

  // A selective receive: earlier messages stay in the mailbox.
  function NewTakesDone(y: Sys): Sys {
    if y.newAlive && !y.newReady && HandoffDone in y.newMbox then
      y.(newReady := true, newMbox := RemoveFirst(y.newMbox, HandoffDone))
    else y
  }

  function NewHandles(y: Sys): Sys {
    if y.newAlive && y.newReady && y.newMbox != [] then
      y.(newMbox := y.newMbox[1..], newHandled := y.newHandled + DataOf(y.newMbox[0]))
    else y
  }

  // The mailbox goes with the process; a monitor in force reports the death.
  function NewDies(y: Sys): Sys {
    if y.newAlive then
      var z := y.(newAlive := false, newMbox := [], lost := Datas(y.newMbox));
      if y.phase.Forwarding? then z.(oldMbox := y.oldMbox + [Down]) else z
    else y
  }

  function Next(y: Sys, m: Move): Sys {
    match m
    case MArrive(bytes) => y.(st := y.st.(rx := y.st.rx + bytes))
    case MCallback(n, flags) => Callback(y, n, flags)
    case MOtherEvent(id) => Send(y, [Event(id)])
    case MOldHandles => OldHandles(y)
    case MOldSets(v) => SetActiveIf(y, OldOwns(y), v)
    case MGetOpt => if y.phase.Working? then y.(phase := GotOpt(y.st.owner)) else y
    case MSetFalse => SetFalse(y)
    case MForwardNext => ForwardNext(y)
    case MTransfer => Transfer(y)
    case MSignal => Signal(y)
    case MRestore => Restore(y)
    case MNewTakesDone => NewTakesDone(y)
    case MNewHandles => NewHandles(y)
    case MNewSets(v) => SetActiveIf(y, y.newAlive && y.newReady, v)
    case MNewDies => NewDies(y)
  }

  function Play(y: Sys, ms: Trace<Move>): Sys {
    match ms
    case Begin => y
    case Then(before, m) => Next(Play(y, before), m)
  }

  // The messages sent so far carry the consumed bytes from `base` on, in order and labelled.
  ghost predicate Told(y: Sys) {
    y.st.consumed <= |y.st.rx| && Consecutive(y.sent, y.st.rx[..y.st.consumed], y.base)
  }

  // Any state of the stream, in any mode, after any bytes; what the old owner still has to
  // handle waits in its mailbox.
  ghost predicate Start(y: Sys) {
    && Told(y) && y.sent == Datas(y.oldMbox) && Down !in y.oldMbox && HandoffDone !in y.oldMbox
    && y.pid == Old && y.phase == Working
    && y.newMbox == [] && y.newAlive && !y.newReady
    && y.oldHandled == [] && y.resumed == [] && y.newHandled == [] && y.lost == []
  }

  // In particular with all bytes consumed so far, as messages or by recv/2, handled.
  function Fresh(st: State): Sys {
    Sys(st, Old, Working, [], [], true, false, st.consumed, [], [], [], [], [])
  }

  lemma AnyStreamStarts(st: State)
    requires st.consumed <= |st.rx|
    ensures Start(Fresh(st))
  {
  }

  // ---------------------------------------------------------------- data in mailboxes

  lemma {:induction false} DatasConcat(a: seq<Msg>, b: seq<Msg>)
    ensures Datas(a + b) == Datas(a) + Datas(b)
  {
    if a == [] {
      assert a + b == b;
    } else {
      assert (a + b)[1..] == a[1..] + b;
      DatasConcat(a[1..], b);
    }
  }

  lemma DatasOne(m: Msg)
    ensures Datas([m]) == DataOf(m)
  {
    assert [m][1..] == [];
  }

  lemma DatasSnoc(ms: seq<Msg>, m: Msg)
    ensures Datas(ms + [m]) == Datas(ms) + DataOf(m)
  {
    DatasConcat(ms, [m]);
    DatasOne(m);
  }

  lemma {:induction false} RemoveFirstKeeps(ms: seq<Msg>)
    ensures Datas(RemoveFirst(ms, HandoffDone)) == Datas(ms)
    ensures forall m :: m in RemoveFirst(ms, HandoffDone) ==> m in ms
  {
    if ms != [] && ms[0] != HandoffDone {
      RemoveFirstKeeps(ms[1..]);
      assert ([ms[0]] + RemoveFirst(ms[1..], HandoffDone))[1..] == RemoveFirst(ms[1..], HandoffDone);
    }
  }

  lemma TakeFirst(ms: seq<Msg>)
    requires ms != []
    ensures var k := |DataOf(ms[0])|;
            k <= |Datas(ms)| && Datas(ms)[..k] == DataOf(ms[0]) && Datas(ms)[k..] == Datas(ms[1..])
    ensures ms[0] in ms && forall m :: m in ms[1..] ==> m in ms
  {
  }

  lemma WrapSmall(at: nat, chunk: seq<byte>, flags: nat)
    ensures Datas(Wrap([Data(at, chunk, flags)] + [])) == [DataEvent(chunk, at, |chunk|, flags)]
    ensures Datas(Wrap([Data(at, chunk, flags)] + [PassiveMsg])) == [DataEvent(chunk, at, |chunk|, flags)]
    ensures Datas(Wrap([ContinueMsg])) == [] && Datas(Wrap([])) == []
  {
    var d, p := Stream(Data(at, chunk, flags)), Stream(PassiveMsg);
    assert Wrap([Data(at, chunk, flags)] + []) == [d];
    assert Wrap([Data(at, chunk, flags)] + [PassiveMsg]) == [d] + [p];
    assert Wrap([ContinueMsg]) == [Stream(ContinueMsg)];
    DatasOne(d);
    DatasOne(p);
    DatasOne(Stream(ContinueMsg));
    DatasSnoc([d], p);
  }

  // A RECEIVE event sends at most one data message, with the bytes it consumes and their
  // place, and none in passive mode.
  lemma CallbackSends(s: State, n: nat, flags: nat)
    requires s.consumed <= |s.rx|
    ensures var r := Step(s, Indicate(n, flags));
            && s.consumed <= r.s.consumed <= |s.rx| && r.s.rx == s.rx
            && Datas(Wrap(r.out)) == (if r.s.consumed == s.consumed then [] else
                 [DataEvent(s.rx[s.consumed..r.s.consumed], s.consumed, r.s.consumed - s.consumed, flags)])
            && (s.owner.mode == Passive ==> r.s.consumed == s.consumed && r.s.owner == s.owner)
  {
    var r := Step(s, Indicate(n, flags));
    if Shows(s, Indicate(n, flags)) && s.owner.mode != Passive {
      WrapSmall(s.consumed, s.rx[s.consumed..s.consumed + n], flags);
    } else {
      WrapSmall(0, [], 0);
      assert r.out == [] || r.out == [ContinueMsg];
      assert r.s.consumed == s.consumed;
    }
  }

  // ---------------------------------------------------------------- where the messages are

  const OLD := 0
  const NEW := 1
  const NEW_MAIL := 2
  const LOST := 3
  const RESUMED := 4
  const OLD_MAIL := 5

  // The places of the data messages, in stream order.
  function Row(y: Sys): seq<seq<DataEvent>> {
    [y.oldHandled, y.newHandled, Datas(y.newMbox), y.lost, y.resumed, Datas(y.oldMbox)]
  }

  // No data reaches a new owner that is not to have it yet, nor an old one that no longer
  // forwards; and DOWN waits exactly while a dead new owner is still being forwarded to.
  predicate PhaseInv(y: Sys) {
    && (!y.newReady ==> y.newHandled == [])
    && (!y.newAlive ==> y.newMbox == [])
    && (y.newAlive ==> y.lost == [])
    && (!y.phase.Finished? || y.pid == New ==> y.resumed == [])
    && (y.newReady || HandoffDone in y.newMbox ==> y.pid == New && (y.phase.Signalled? || y.phase.Finished?))
    && HandoffDone !in y.oldMbox
    && (y.pid == New ==> Datas(y.oldMbox) == [])
    && match y.phase
       case Working => y.pid == Old && Datas(y.newMbox) == [] && y.lost == [] && Down !in y.oldMbox
       case GotOpt(saved) =>
         y.pid == Old && (saved.mode == Passive ==> y.st.owner.mode == Passive) && Down !in y.oldMbox
       case Forwarding(_) => y.pid == Old && y.st.owner.mode == Passive && (y.newAlive <==> Down !in y.oldMbox)
       case Forwarded(_) => y.pid == Old && Datas(y.oldMbox) == [] && y.st.owner.mode == Passive
       case Transferred(_) => y.pid == New || !y.newAlive
       case Signalled(_) => y.pid == New || !y.newAlive
       case Failing(_) => y.pid == Old && !y.newAlive
       case Finished(ok) => if y.pid == New then ok else !y.newAlive
  }

  // Each step is a possible move of the messages in the row.
  ghost predicate Simulates(y: Sys, z: Sys, mv: P.Move<DataEvent>) {
    && P.Possible(Row(y), mv) && Row(z) == P.Moved(Row(y), mv)
    && z.sent == if mv.Append? then y.sent + mv.xs else y.sent
  }

  ghost predicate Simulated(y: Sys, z: Sys) {
    PhaseInv(z) && exists mv :: Simulates(y, z, mv)
  }

  // What the moves used below do to a row of six places.
  lemma AppendRow<T>(a: seq<T>, b: seq<T>, c: seq<T>, d: seq<T>, e: seq<T>, f: seq<T>, xs: seq<T>)
    ensures var row := [a, b, c, d, e, f];
            && P.Possible(row, P.Append(OLD_MAIL, xs))
            && P.Moved(row, P.Append(OLD_MAIL, xs)) == [a, b, c, d, e, f + xs]
            && (d == e == f == [] ==>
                  && P.Possible(row, P.Append(NEW_MAIL, xs))
                  && P.Moved(row, P.Append(NEW_MAIL, xs)) == [a, b, c + xs, d, e, f])
            && (e == f == [] ==>
                  && P.Possible(row, P.Append(LOST, xs))
                  && P.Moved(row, P.Append(LOST, xs)) == [a, b, c, d + xs, e, f])
  {
  }

  lemma OldRow<T>(a: seq<T>, b: seq<T>, c: seq<T>, d: seq<T>, e: seq<T>, f: seq<T>, n: nat)
    requires n <= |f|
    ensures var row := [a, b, c, d, e, f];
            && P.Possible(row, P.Advance(RESUMED, OLD_MAIL, n))
            && P.Moved(row, P.Advance(RESUMED, OLD_MAIL, n)) == [a, b, c, d, e + f[..n], f[n..]]
            && (b == c == d == e == [] ==>
                  && P.Possible(row, P.Advance(OLD, OLD_MAIL, n))
                  && P.Moved(row, P.Advance(OLD, OLD_MAIL, n)) == [a + f[..n], b, c, d, e, f[n..]])
  {
  }

  lemma ForwardRow<T>(a: seq<T>, b: seq<T>, c: seq<T>, d: seq<T>, e: seq<T>, f: seq<T>, n: nat)
    requires n <= |f| && e == []
    ensures var row := [a, b, c, d, e, f];
            && P.Possible(row, P.Advance(LOST, OLD_MAIL, n))
            && P.Moved(row, P.Advance(LOST, OLD_MAIL, n)) == [a, b, c, d + f[..n], e, f[n..]]
            && (d == [] ==>
                  && P.Possible(row, P.Advance(NEW_MAIL, OLD_MAIL, n))
                  && P.Moved(row, P.Advance(NEW_MAIL, OLD_MAIL, n)) == [a, b, c + f[..n], d, e, f[n..]])
  {
  }

  lemma NewRow<T>(a: seq<T>, b: seq<T>, c: seq<T>, d: seq<T>, e: seq<T>, f: seq<T>, n: nat)
    requires n <= |c|
    ensures var row := [a, b, c, d, e, f];
            && P.Possible(row, P.Advance(NEW, NEW_MAIL, n))
            && P.Moved(row, P.Advance(NEW, NEW_MAIL, n)) == [a, b + c[..n], c[n..], d, e, f]
            && (d == [] ==>
                  && P.Possible(row, P.Retreat(NEW_MAIL))
                  && P.Moved(row, P.Retreat(NEW_MAIL)) == [a, b, [], c, e, f])
  {
  }

  // Sending changes one mailbox, or what is lost, by the messages sent.
  lemma SendMail(y: Sys, ms: seq<Msg>)
    ensures var z := Send(y, ms);
            if y.pid == Old then z == y.(oldMbox := z.oldMbox) && Datas(z.oldMbox) == Datas(y.oldMbox) + Datas(ms)
            else if y.newAlive then z == y.(newMbox := z.newMbox) && Datas(z.newMbox) == Datas(y.newMbox) + Datas(ms)
            else z == y.(lost := y.lost + Datas(ms))
    ensures forall m :: m in Send(y, ms).oldMbox ==> m in y.oldMbox || m in ms
    ensures forall m :: m in y.oldMbox ==> m in Send(y, ms).oldMbox
    ensures forall m :: m in Send(y, ms).newMbox ==> m in y.newMbox || m in ms
  {
    DatasConcat(y.newMbox, ms);
    DatasConcat(y.oldMbox, ms);
  }

  // A callback changes only the stream's own state, and sends.
  lemma CallbackSpec(y: Sys, n: nat, flags: nat)
    requires y.st.consumed <= |y.st.rx|
    ensures var z, xs := Callback(y, n, flags), Datas(Wrap(Step(y.st, Indicate(n, flags)).out));
            var x := y.(st := z.st, sent := y.sent + xs);
            && (if y.pid == Old then z == x.(oldMbox := z.oldMbox) && Datas(z.oldMbox) == Datas(y.oldMbox) + xs
                else if y.newAlive then z == x.(newMbox := z.newMbox) && Datas(z.newMbox) == Datas(y.newMbox) + xs
                else z == x.(lost := y.lost + xs))
            && (y.st.owner.mode == Passive ==> xs == [] && z.st.owner == y.st.owner)
    ensures forall m: Msg :: !m.Stream? ==> (m in Callback(y, n, flags).oldMbox <==> m in y.oldMbox)
    ensures forall m: Msg :: !m.Stream? && m in Callback(y, n, flags).newMbox ==> m in y.newMbox
  {
    CallbackSends(y.st, n, flags);
    var r := Step(y.st, Indicate(n, flags));
    SendMail(y.(st := r.s, sent := y.sent + Datas(Wrap(r.out))), Wrap(r.out));
    assert forall m :: m in Wrap(r.out) ==> m.Stream?;
  }

  lemma CallbackPhase(y: Sys, n: nat, flags: nat)
    requires y.st.consumed <= |y.st.rx| && PhaseInv(y)
    ensures PhaseInv(Callback(y, n, flags))
  {
    CallbackSpec(y, n, flags);
  }

  // New messages go to the last place that may hold any.
  lemma SendToOld(y: Sys, z: Sys, xs: seq<DataEvent>)
    requires z.sent == y.sent + xs
    requires z.oldHandled == y.oldHandled && z.newHandled == y.newHandled && z.resumed == y.resumed
    requires Datas(z.oldMbox) == Datas(y.oldMbox) + xs && z.newMbox == y.newMbox && z.lost == y.lost
    ensures exists mv :: Simulates(y, z, mv)
  {
    AppendRow(y.oldHandled, y.newHandled, Datas(y.newMbox), y.lost, y.resumed, Datas(y.oldMbox), xs);
    assert Simulates(y, z, P.Append(OLD_MAIL, xs));
  }

  lemma SendToNew(y: Sys, z: Sys, xs: seq<DataEvent>)
    requires y.lost == [] && y.resumed == [] && Datas(y.oldMbox) == [] && z.sent == y.sent + xs
    requires z.oldHandled == y.oldHandled && z.newHandled == y.newHandled && z.resumed == y.resumed
    requires Datas(z.newMbox) == Datas(y.newMbox) + xs && z.oldMbox == y.oldMbox && z.lost == y.lost
    ensures exists mv :: Simulates(y, z, mv)
  {
    AppendRow(y.oldHandled, y.newHandled, Datas(y.newMbox), y.lost, y.resumed, Datas(y.oldMbox), xs);
    assert Simulates(y, z, P.Append(NEW_MAIL, xs));
  }

  lemma SendToNobody(y: Sys, z: Sys, xs: seq<DataEvent>)
    requires y.resumed == [] && Datas(y.oldMbox) == [] && z.sent == y.sent + xs
    requires z.oldHandled == y.oldHandled && z.newHandled == y.newHandled && z.resumed == y.resumed
    requires z.lost == y.lost + xs && z.oldMbox == y.oldMbox && z.newMbox == y.newMbox
    ensures exists mv :: Simulates(y, z, mv)
  {
    AppendRow(y.oldHandled, y.newHandled, Datas(y.newMbox), y.lost, y.resumed, Datas(y.oldMbox), xs);
    assert Simulates(y, z, P.Append(LOST, xs));
  }

  lemma SimulateCallback(y: Sys, n: nat, flags: nat)
    requires y.st.consumed <= |y.st.rx| && PhaseInv(y)
    ensures Simulated(y, Callback(y, n, flags))
  {
    CallbackPhase(y, n, flags);
    CallbackSpec(y, n, flags);
    var z, xs := Callback(y, n, flags), Datas(Wrap(Step(y.st, Indicate(n, flags)).out));
    if y.pid == Old {
      SendToOld(y, z, xs);
    } else if y.newAlive {
      SendToNew(y, z, xs);
    } else {
      SendToNobody(y, z, xs);
    }
  }

  lemma SimulateEvent(y: Sys, id: nat)
    requires PhaseInv(y)
    ensures Simulated(y, Send(y, [Event(id)]))
  {
    SendMail(y, [Event(id)]);
    DatasOne(Event(id));
    assert Datas(y.newMbox) + [] == Datas(y.newMbox) && Datas(y.oldMbox) + [] == Datas(y.oldMbox);
    assert y.lost + [] == y.lost;
    assert Simulates(y, Send(y, [Event(id)]), P.Stay);
  }

  lemma OldHandlesPhase(y: Sys)
    requires PhaseInv(y)
    ensures PhaseInv(OldHandles(y))
  {
    if y.oldMbox != [] {
      TakeFirst(y.oldMbox);
    }
  }

  lemma OldTakes(y: Sys, z: Sys)
    requires y.oldMbox != [] && z.oldMbox == y.oldMbox[1..] && z.sent == y.sent
    requires z.newHandled == y.newHandled && z.newMbox == y.newMbox && z.lost == y.lost
    requires var xs := DataOf(y.oldMbox[0]);
             || (z.oldHandled == y.oldHandled && z.resumed == y.resumed + xs)
             || (z.oldHandled == y.oldHandled + xs && z.resumed == y.resumed == []
                 && y.newHandled == [] && Datas(y.newMbox) == [] && y.lost == [])
    ensures exists mv :: Simulates(y, z, mv)
  {
    TakeFirst(y.oldMbox);
    var n := |DataOf(y.oldMbox[0])|;
    OldRow(y.oldHandled, y.newHandled, Datas(y.newMbox), y.lost, y.resumed, Datas(y.oldMbox), n);
    if z.resumed == y.resumed + DataOf(y.oldMbox[0]) && z.oldHandled == y.oldHandled {
      assert Simulates(y, z, P.Advance(RESUMED, OLD_MAIL, n));
    } else {
      assert Simulates(y, z, P.Advance(OLD, OLD_MAIL, n));
    }
  }

  lemma SimulateOldHandles(y: Sys)
    requires PhaseInv(y)
    ensures Simulated(y, OldHandles(y))
  {
    OldHandlesPhase(y);
    var z := OldHandles(y);
    if y.oldMbox != [] && (y.phase.Working? || y.phase.Finished?) {
      OldTakes(y, z);
    } else {
      assert Simulates(y, z, P.Stay);
    }
  }

  lemma SetActiveFrame(y: Sys, b: bool, v: Opt)
    ensures var z := SetActiveIf(y, b, v);
            && z == y.(st := z.st) && z.st.rx == y.st.rx && z.st.consumed == y.st.consumed
            && (b && v == OptFalse ==> z.st.owner.mode == Passive)
            && (!b ==> z == y)
  {
  }

  lemma SimulateSetFalse(y: Sys)
    requires PhaseInv(y)
    ensures Simulated(y, SetFalse(y))
  {
    if y.phase.GotOpt? {
      SetActiveFrame(y, GetMode(y.phase.saved) != OptFalse, OptFalse);
      DatasSnoc(y.oldMbox, Down);
      assert Datas(y.oldMbox) + [] == Datas(y.oldMbox);
    }
    assert Simulates(y, SetFalse(y), P.Stay);
  }

  lemma InTail(ms: seq<Msg>, m: Msg)
    requires ms != []
    ensures m in ms <==> m == ms[0] || m in ms[1..]
  {
    assert ms == [ms[0]] + ms[1..];
  }

  // What one round of forwarding changes.
  lemma ForwardSpec(y: Sys)
    requires y.phase.Forwarding? && y.oldMbox != [] && y.oldMbox[0] != Down
    ensures var z, m := ForwardNext(y), y.oldMbox[0];
            && z == y.(oldMbox := y.oldMbox[1..], newMbox := z.newMbox, lost := z.lost)
            && Datas(y.oldMbox) == DataOf(m) + Datas(z.oldMbox)
            && (if y.newAlive then z.newMbox == y.newMbox + [m] && Datas(z.newMbox) == Datas(y.newMbox) + DataOf(m)
                else z.newMbox == y.newMbox)
            && z.lost == (if y.newAlive then y.lost else y.lost + DataOf(m))
  {
    var m := y.oldMbox[0];
    DatasSnoc(y.newMbox, m);
    DatasOne(m);
  }

  lemma ForwardPhase(y: Sys)
    requires PhaseInv(y)
    ensures PhaseInv(ForwardNext(y))
  {
    if y.phase.Forwarding? && y.oldMbox != [] {
      InTail(y.oldMbox, Down);
      InTail(y.oldMbox, HandoffDone);
      if y.oldMbox[0] == Down {
        TakeFirst(y.oldMbox);
      } else {
        ForwardSpec(y);
      }
    }
  }

  lemma ForwardTakes(y: Sys, z: Sys, xs: seq<DataEvent>)
    requires Datas(y.oldMbox) == xs + Datas(z.oldMbox) && y.resumed == z.resumed == [] && z.sent == y.sent
    requires z.oldHandled == y.oldHandled && z.newHandled == y.newHandled
    requires || (y.lost == z.lost == [] && Datas(z.newMbox) == Datas(y.newMbox) + xs)
             || (z.newMbox == y.newMbox && z.lost == y.lost + xs)
    ensures exists mv :: Simulates(y, z, mv)
  {
    var n := |xs|;
    assert Datas(y.oldMbox)[..n] == xs && Datas(y.oldMbox)[n..] == Datas(z.oldMbox);
    ForwardRow(y.oldHandled, y.newHandled, Datas(y.newMbox), y.lost, y.resumed, Datas(y.oldMbox), n);
    if z.newMbox == y.newMbox && z.lost == y.lost + xs {
      assert Simulates(y, z, P.Advance(LOST, OLD_MAIL, n));
    } else {
      assert Simulates(y, z, P.Advance(NEW_MAIL, OLD_MAIL, n));
    }
  }

  lemma SimulateForward(y: Sys)
    requires PhaseInv(y)
    ensures Simulated(y, ForwardNext(y))
  {
    ForwardPhase(y);
    var z := ForwardNext(y);
    if y.phase.Forwarding? && y.oldMbox != [] && y.oldMbox[0] != Down {
      ForwardSpec(y);
      ForwardTakes(y, z, DataOf(y.oldMbox[0]));
    } else {
      if y.oldMbox != [] {
        TakeFirst(y.oldMbox);
        assert [] + Datas(y.oldMbox[1..]) == Datas(y.oldMbox[1..]);
      }
      assert Simulates(y, z, P.Stay);
    }
  }

  lemma SimulateTransfer(y: Sys)
    requires PhaseInv(y)
    ensures Simulated(y, Transfer(y))
  {
    assert Simulates(y, Transfer(y), P.Stay);
  }

  lemma SimulateSignal(y: Sys)
    requires PhaseInv(y)
    ensures Simulated(y, Signal(y))
  {
    DatasSnoc(y.newMbox, HandoffDone);
    DatasOne(HandoffDone);
    assert Datas(y.newMbox) + [] == Datas(y.newMbox) && y.lost + [] == y.lost;
    assert Simulates(y, Signal(y), P.Stay);
  }

  lemma SimulateRestore(y: Sys)
    requires PhaseInv(y)
    ensures Simulated(y, Restore(y))
  {
    if y.phase.Signalled? || y.phase.Failing? {
      SetActiveFrame(y, GetMode(y.phase.saved) != OptFalse, GetMode(y.phase.saved));
    }
    assert Simulates(y, Restore(y), P.Stay);
  }

  // Taking `handoff_done` out of the middle of the mailbox leaves the data in it, in order.
  lemma SimulateTakesDone(y: Sys)
    requires PhaseInv(y)
    ensures Simulated(y, NewTakesDone(y)) && Row(NewTakesDone(y)) == Row(y)
  {
    RemoveFirstKeeps(y.newMbox);
    assert Simulates(y, NewTakesDone(y), P.Stay);
  }

  lemma NewHandlesPhase(y: Sys)
    requires PhaseInv(y)
    ensures PhaseInv(NewHandles(y))
  {
    if y.newMbox != [] {
      InTail(y.newMbox, HandoffDone);
      TakeFirst(y.newMbox);
    }
  }

  lemma NewTakes(y: Sys, z: Sys)
    requires y.newMbox != [] && z == y.(newMbox := y.newMbox[1..], newHandled := y.newHandled + DataOf(y.newMbox[0]))
    ensures exists mv :: Simulates(y, z, mv)
  {
    TakeFirst(y.newMbox);
    var n := |DataOf(y.newMbox[0])|;
    NewRow(y.oldHandled, y.newHandled, Datas(y.newMbox), y.lost, y.resumed, Datas(y.oldMbox), n);
    assert Simulates(y, z, P.Advance(NEW, NEW_MAIL, n));
  }

  lemma SimulateNewHandles(y: Sys)
    requires PhaseInv(y)
    ensures Simulated(y, NewHandles(y))
  {
    NewHandlesPhase(y);
    var z := NewHandles(y);
    if y.newAlive && y.newReady && y.newMbox != [] {
      NewTakes(y, z);
    } else {
      assert Simulates(y, z, P.Stay);
    }
  }

  lemma SimulateSets(y: Sys, b: bool, v: Opt)
    requires PhaseInv(y) && (b ==> y.phase.Working? || y.phase.Signalled? || y.phase.Finished?)
    ensures Simulated(y, SetActiveIf(y, b, v))
  {
    SetActiveFrame(y, b, v);
    assert Simulates(y, SetActiveIf(y, b, v), P.Stay);
  }

  lemma NewDiesPhase(y: Sys)
    requires PhaseInv(y)
    ensures PhaseInv(NewDies(y))
  {
    DatasSnoc(y.oldMbox, Down);
    assert Datas(y.oldMbox) + [] == Datas(y.oldMbox);
  }

  lemma NewDiesRow(y: Sys)
    requires y.newAlive
    ensures var z := NewDies(y);
            && z.sent == y.sent && z.oldHandled == y.oldHandled && z.newHandled == y.newHandled
            && Datas(z.newMbox) == [] && z.lost == Datas(y.newMbox) && z.resumed == y.resumed
            && Datas(z.oldMbox) == Datas(y.oldMbox)
  {
    DatasSnoc(y.oldMbox, Down);
    assert Datas(y.oldMbox) + [] == Datas(y.oldMbox);
  }

  lemma SimulateNewDies(y: Sys)
    requires PhaseInv(y)
    ensures Simulated(y, NewDies(y))
  {
    NewDiesPhase(y);
    if y.newAlive {
      NewDiesRow(y);
      NewRow(y.oldHandled, y.newHandled, Datas(y.newMbox), y.lost, y.resumed, Datas(y.oldMbox), 0);
      assert Simulates(y, NewDies(y), P.Retreat(NEW_MAIL));
    } else {
      assert Simulates(y, NewDies(y), P.Stay);
    }
  }

  lemma Simulate(y: Sys, m: Move)
    requires y.st.consumed <= |y.st.rx| && PhaseInv(y)
    ensures Simulated(y, Next(y, m))
  {
    match m {
      case MArrive(bytes) => assert Simulates(y, Next(y, m), P.Stay);
      case MCallback(n, flags) => SimulateCallback(y, n, flags);
      case MOtherEvent(id) => SimulateEvent(y, id);
      case MOldHandles => SimulateOldHandles(y);
      case MGetOpt => assert Simulates(y, Next(y, m), P.Stay);
      case MSetFalse => SimulateSetFalse(y);
      case MForwardNext => SimulateForward(y);
      case MTransfer => SimulateTransfer(y);
      case MSignal => SimulateSignal(y);
      case MRestore => SimulateRestore(y);
      case MNewTakesDone => SimulateTakesDone(y);
      case MNewHandles => SimulateNewHandles(y);
      case MOldSets(v) => SimulateSets(y, OldOwns(y), v);
      case MNewSets(v) => SimulateSets(y, y.newAlive && y.newReady, v);
      case MNewDies => SimulateNewDies(y);
    }
  }

  // ---------------------------------------------------------------- the theorem

  lemma CallbackSent(y: Sys, n: nat, flags: nat)
    ensures var z, r := Callback(y, n, flags), Step(y.st, Indicate(n, flags));
            z.st == r.s && z.sent == y.sent + Datas(Wrap(r.out)) && z.base == y.base
  {
  }

  lemma CallbackTold(y: Sys, n: nat, flags: nat)
    requires Told(y)
    ensures Told(Callback(y, n, flags))
  {
    CallbackSends(y.st, n, flags);
    CallbackSent(y, n, flags);
    var r := Step(y.st, Indicate(n, flags));
    if r.s.consumed == y.st.consumed {
      assert y.sent + [] == y.sent;
    } else {
      SliceJoin(y.st.rx, 0, y.st.consumed, r.s.consumed);
      ConsecutiveSnoc(y.sent, y.st.rx[..y.st.consumed], y.base, y.st.rx[y.st.consumed..r.s.consumed], flags);
    }
  }

  lemma OthersSendNothing(y: Sys, m: Move)
    requires !m.MArrive? && !m.MCallback?
    ensures var z := Next(y, m); z.sent == y.sent && z.st.rx == y.st.rx && z.st.consumed == y.st.consumed
  {
    match m
    case MSetFalse => if y.phase.GotOpt? { SetActiveFrame(y, GetMode(y.phase.saved) != OptFalse, OptFalse); }
    case MRestore =>
      if y.phase.Signalled? || y.phase.Failing? {
        SetActiveFrame(y, GetMode(y.phase.saved) != OptFalse, GetMode(y.phase.saved));
      }
    case MNewSets(v) => SetActiveFrame(y, y.newAlive && y.newReady, v);
    case MOldSets(v) => SetActiveFrame(y, OldOwns(y), v);
    case MForwardNext => assert ForwardNext(y).sent == y.sent && ForwardNext(y).st == y.st;
    case _ =>
  }

  lemma NextTold(y: Sys, m: Move)
    requires Told(y)
    ensures Told(Next(y, m))
  {
    if m.MCallback? {
      CallbackTold(y, m.n, m.flags);
    } else if m.MArrive? {
      assert (y.st.rx + m.bytes)[..y.st.consumed] == y.st.rx[..y.st.consumed];
    } else {
      OthersSendNothing(y, m);
    }
  }

  ghost predicate HandoffInv(y: Sys) {
    P.Flat(Row(y)) == y.sent && PhaseInv(y) && Told(y)
  }

  lemma NextKeeps(y: Sys, m: Move)
    requires HandoffInv(y)
    ensures HandoffInv(Next(y, m))
  {
    NextTold(y, m);
    Simulate(y, m);
    var mv :| Simulates(y, Next(y, m), mv);
    P.MovedKeeps(Row(y), mv);
  }

  lemma FlatCons<T>(a: seq<T>, row: seq<seq<T>>)
    ensures P.Flat([a] + row) == a + P.Flat(row)
  {
    assert ([a] + row)[1..] == row;
  }

  lemma FlatSix<T>(a: seq<T>, b: seq<T>, c: seq<T>, d: seq<T>, e: seq<T>, f: seq<T>)
    ensures P.Flat([a, b, c, d, e, f]) == a + b + c + d + e + f
  {
    FlatCons(a, [b, c, d, e, f]);
    FlatCons(b, [c, d, e, f]);
    FlatCons(c, [d, e, f]);
    FlatCons(d, [e, f]);
    FlatCons(e, [f]);
    FlatCons(f, []);
  }

  lemma StartInv(y: Sys)
    requires Start(y)
    ensures HandoffInv(y)
  {
    var d := Datas(y.oldMbox);
    FlatSix([], [], [], [], [], d);
    assert [] + [] + [] + [] + [] + d == d;
  }

  lemma {:induction false} PlayInv(y: Sys, ms: Trace<Move>)
    requires HandoffInv(y)
    ensures HandoffInv(Play(y, ms))
  {
    if ms.Then? {
      PlayInv(y, ms.before);
      NextKeeps(Play(y, ms.before), ms.step);
    }
  }

  lemma NextBase(y: Sys, m: Move)
    ensures Next(y, m).base == y.base
  {
  }

  lemma {:induction false} PlayBase(y: Sys, ms: Trace<Move>)
    ensures Play(y, ms).base == y.base
  {
    if ms.Then? {
      PlayBase(y, ms.before);
      NextBase(Play(y, ms.before), ms.step);
    }
  }

  // In every interleaving, also when the new owner dies: every data message sent is in
  // exactly one place, and the places, in this order, hold them in stream order; together
  // they carry the bytes that MsQuic has consumed, from the start of the run on. Nothing is
  // lost while the new owner lives.
  lemma NothingVanishes(y: Sys, ms: Trace<Move>)
    requires Start(y)
    ensures var z := Play(y, ms);
            && z.oldHandled + z.newHandled + Datas(z.newMbox) + z.lost + z.resumed + Datas(z.oldMbox) == z.sent
            && z.st.consumed <= |z.st.rx| && Consecutive(z.sent, z.st.rx[..z.st.consumed], y.base)
            && (z.newAlive ==> z.lost == [])
  {
    StartInv(y);
    PlayInv(y, ms);
    PlayBase(y, ms);
    var z := Play(y, ms);
    FlatSix(z.oldHandled, z.newHandled, Datas(z.newMbox), z.lost, z.resumed, Datas(z.oldMbox));
  }

  // ---------------------------------------------------------------- the new owner lives

  // What the new owner gets: the stream from exactly where the old owner stopped, which
  // itself went on from `base`.
  ghost predicate TakesOver(z: Sys, base: nat)
    requires z.st.consumed <= |z.st.rx|
  {
    var at, all := base + |AppBytes(z.oldHandled)|, z.st.rx[..z.st.consumed];
    && at <= z.st.consumed
    && AppBytes(z.oldHandled) == all[base..at]
    && (z.newReady ==>
          && Consecutive(z.newHandled + Datas(z.newMbox), all, at)
          && AppBytes(z.newHandled + Datas(z.newMbox)) == all[at..]
          && Datas(z.oldMbox) == [] && z.resumed == [])
  }

  lemma PrefixBytes(a: seq<DataEvent>, b: seq<DataEvent>, stream: seq<byte>, base: nat)
    requires Consecutive(a + b, stream, base)
    ensures var mid := base + |AppBytes(a)|;
            && mid <= |stream| && AppBytes(a) == stream[base..mid]
            && Consecutive(b, stream, mid) && AppBytes(b) == stream[mid..]
  {
    var mid := ConsecutiveSplit(a, b, stream, base);
    ConsecutiveBytes(a, stream[..mid], base);
    assert stream[..mid][base..] == stream[base..mid];
    ConsecutiveBytes(b, stream, mid);
  }

  lemma SixInTwo<T>(a: seq<T>, b: seq<T>, c: seq<T>, d: seq<T>, e: seq<T>, f: seq<T>)
    ensures a + b + c + d + e + f == a + (b + c + d + e + f)
    ensures d == e == f == [] ==> b + c + d + e + f == b + c
  {
    if d == [] && e == [] && f == [] {
      assert b + c + [] + [] + [] == b + c;
    }
  }

  lemma OldHasNothingLeft(z: Sys)
    requires PhaseInv(z) && z.newAlive
    ensures z.newReady ==> Datas(z.oldMbox) == [] && z.resumed == [] && z.lost == []
  {
  }

  lemma FromSixPlaces(z: Sys, base: nat)
    requires z.oldHandled + z.newHandled + Datas(z.newMbox) + z.lost + z.resumed + Datas(z.oldMbox) == z.sent
    requires z.st.consumed <= |z.st.rx| && Consecutive(z.sent, z.st.rx[..z.st.consumed], base)
    requires z.newReady ==> Datas(z.oldMbox) == [] && z.resumed == [] && z.lost == []
    ensures TakesOver(z, base)
  {
    SixInTwo(z.oldHandled, z.newHandled, Datas(z.newMbox), z.lost, z.resumed, Datas(z.oldMbox));
    PrefixBytes(z.oldHandled, z.newHandled + Datas(z.newMbox) + z.lost + z.resumed + Datas(z.oldMbox),
                z.st.rx[..z.st.consumed], base);
  }

  // In every interleaving in which the new owner lives: what it has handled and what waits
  // in its mailbox are the messages of the stream from exactly where the old owner stopped,
  // in order, without a gap or a repeat; and nothing is left behind.
  lemma HandoffPreservesOrder(y: Sys, ms: Trace<Move>)
    requires Start(y) && Play(y, ms).newAlive
    ensures Play(y, ms).st.consumed <= |Play(y, ms).st.rx| && TakesOver(Play(y, ms), y.base)
  {
    NothingVanishes(y, ms);
    StartInv(y);
    PlayInv(y, ms);
    OldHasNothingLeft(Play(y, ms));
    FromSixPlaces(Play(y, ms), y.base);
  }

  lemma OldHandledFrame(y: Sys, m: Move)
    requires !y.phase.Working?
    ensures Next(y, m).oldHandled == y.oldHandled
  {
  }

  lemma ResumesOnlyAfterDeath(y: Sys)
    requires PhaseInv(y) && y.newAlive
    ensures y.resumed == []
  {
  }

  // From getopt on, the old owner handles no more data, so the place where the new owner
  // takes over is the one at which the handoff began.
  lemma OldOwnerStops(y: Sys, ms: Trace<Move>, m: Move)
    requires Start(y)
    requires var p := Play(y, ms); p.newAlive && !p.phase.Working?
    ensures var p, z := Play(y, ms), Next(Play(y, ms), m);
            z.oldHandled == p.oldHandled && p.resumed == [] && (z.newAlive ==> z.resumed == [])
  {
    StartInv(y);
    PlayInv(y, ms);
    var p := Play(y, ms);
    NextKeeps(p, m);
    OldHandledFrame(p, m);
    ResumesOnlyAfterDeath(p);
    if Next(p, m).newAlive {
      ResumesOnlyAfterDeath(Next(p, m));
    }
  }

  // ---------------------------------------------------------------- the new owner dies

  // The data messages that do_forward_stream_msgs passes on in one move, and in a run.
  function ForwardedBy(y: Sys, m: Move): seq<DataEvent> {
    if m.MForwardNext? && y.phase.Forwarding? && y.oldMbox != [] then DataOf(y.oldMbox[0]) else []
  }

  function ForwardedIn(y: Sys, ms: Trace<Move>): seq<DataEvent> {
    match ms
    case Begin => []
    case Then(before, m) => ForwardedIn(y, before) + ForwardedBy(Play(y, before), m)
  }

  // Until the stream is transferred, the new owner has been sent what was forwarded.
  ghost predicate HasForwarded(z: Sys, fwd: seq<DataEvent>) {
    z.pid == Old ==> Datas(z.newMbox) + z.lost == fwd
  }

  lemma ForwardIsForwarded(y: Sys)
    requires PhaseInv(y) && y.pid == Old && y.phase.Forwarding?
    ensures var z := ForwardNext(y);
            Datas(z.newMbox) + z.lost == Datas(y.newMbox) + y.lost + ForwardedBy(y, MForwardNext)
  {
    if y.oldMbox != [] && y.oldMbox[0] != Down {
      ForwardSpec(y);
      if y.newAlive {
        assert Datas(y.newMbox) + [] == Datas(y.newMbox);
      } else {
        assert Datas(y.newMbox) == [];
      }
    }
  }

  lemma SignalForwardsNothing(y: Sys)
    ensures var z := Signal(y); Datas(z.newMbox) == Datas(y.newMbox) && z.lost == y.lost
  {
    DatasSnoc(y.newMbox, HandoffDone);
    DatasOne(HandoffDone);
    assert Datas(y.newMbox) + [] == Datas(y.newMbox) && y.lost + [] == y.lost;
  }

  lemma OthersForwardNothing(y: Sys, m: Move)
    requires PhaseInv(y) && y.pid == Old && !m.MForwardNext? && !m.MCallback?
    ensures var z := Next(y, m);
            z.pid == Old ==> Datas(z.newMbox) + z.lost == Datas(y.newMbox) + y.lost
  {
    match m
    case MNewTakesDone => RemoveFirstKeeps(y.newMbox);
    case MNewDies => assert y.newAlive ==> y.lost == [] && [] + Datas(y.newMbox) == Datas(y.newMbox) + [];
    case MSignal => SignalForwardsNothing(y);
    case MOtherEvent(id) => assert Send(y, [Event(id)]).newMbox == y.newMbox && Send(y, [Event(id)]).lost == y.lost;
    case MOldHandles => assert OldHandles(y).newMbox == y.newMbox && OldHandles(y).lost == y.lost;
    case MNewHandles => assert !y.newReady;
    case _ =>
  }

  lemma NewKeepsStream(y: Sys, m: Move)
    requires PhaseInv(y) && y.pid == New
    ensures Next(y, m).pid == New
  {
  }

  lemma NextForwards(y: Sys, m: Move, fwd: seq<DataEvent>)
    requires y.st.consumed <= |y.st.rx| && PhaseInv(y) && HasForwarded(y, fwd)
    ensures HasForwarded(Next(y, m), fwd + ForwardedBy(y, m))
  {
    assert fwd + [] == fwd;
    if y.pid == Old {
      if m.MCallback? {
        CallbackSpec(y, m.n, m.flags);
      } else if m.MForwardNext? {
        if y.phase.Forwarding? {
          ForwardIsForwarded(y);
        }
      } else {
        OthersForwardNothing(y, m);
      }
    } else {
      NewKeepsStream(y, m);
    }
  }

  lemma {:induction false} PlayForwards(y: Sys, ms: Trace<Move>)
    requires Start(y)
    ensures HasForwarded(Play(y, ms), ForwardedIn(y, ms))
  {
    if ms.Then? {
      PlayForwards(y, ms.before);
      StartInv(y);
      PlayInv(y, ms.before);
      NextForwards(Play(y, ms.before), ms.step, ForwardedIn(y, ms.before));
    }
  }

  lemma DeadLeavesNothing<T>(a: seq<T>, d: seq<T>, e: seq<T>, f: seq<T>)
    ensures a + [] + [] + d + e + f == a + (d + (e + f))
    ensures [] + d == d
  {
  }

  lemma {:induction false} AppBytesConcat(a: seq<DataEvent>, b: seq<DataEvent>)
    ensures AppBytes(a + b) == AppBytes(a) + AppBytes(b)
  {
    if b == [] {
      assert a + b == a;
    } else {
      var last := |b| - 1;
      assert (a + b)[..|a| + last] == a + b[..last];
      AppBytesConcat(a, b[..last]);
    }
  }

  // Leaving messages out of the middle shows in the bytes.
  lemma KeptIff(a: seq<DataEvent>, gap: seq<DataEvent>, b: seq<DataEvent>, stream: seq<byte>, base: nat)
    requires Consecutive(a + (gap + b), stream, base)
    ensures base <= |stream| && (AppBytes(a + b) == stream[base..] <==> gap == [])
  {
    AppBytesConcat(a, gap + b);
    AppBytesConcat(gap, b);
    AppBytesConcat(a, b);
    ConsecutiveBytes(a + (gap + b), stream, base);
    if gap == [] {
      assert gap + b == b;
    } else {
      var mid := ConsecutiveSplit(a, gap + b, stream, base);
      var end := ConsecutiveSplit(gap, b, stream, mid);
      assert gap[|gap| - 1].bin != [];
    }
  }

  // Whenever the new owner has died and the old one still has the stream, whatever
  // handoff_stream returns: the messages lost are exactly those that were forwarded, and
  // the old owner has or gets all others. It gets the whole of the consumed bytes if and
  // only if nothing was forwarded.
  lemma FailedHandoffLosesForwarded(y: Sys, ms: Trace<Move>)
    requires Start(y) && !Play(y, ms).newAlive && Play(y, ms).pid == Old
    ensures var z := Play(y, ms);
            var kept := z.oldHandled + (z.resumed + Datas(z.oldMbox));
            && z.lost == ForwardedIn(y, ms)
            && z.oldHandled + (z.lost + (z.resumed + Datas(z.oldMbox))) == z.sent
            && y.base <= z.st.consumed <= |z.st.rx|
            && (AppBytes(kept) == z.st.rx[y.base..z.st.consumed] <==> z.lost == [])
  {
    StartInv(y);
    PlayInv(y, ms);
    PlayForwards(y, ms);
    NothingVanishes(y, ms);
    var z := Play(y, ms);
    DeadLeavesNothing(z.oldHandled, z.lost, z.resumed, Datas(z.oldMbox));
    KeptIff(z.oldHandled, z.lost, z.resumed + Datas(z.oldMbox), z.st.rx[..z.st.consumed], y.base);
    assert z.st.rx[..z.st.consumed][y.base..] == z.st.rx[y.base..z.st.consumed];
  }

  // The part of a mailbox that DOWN is queued behind.
  function AheadOfDown(ms: seq<Msg>): seq<Msg> {
    if ms == [] || ms[0] == Down then [] else [ms[0]] + AheadOfDown(ms[1..])
  }

  lemma {:induction false} AheadAppend(ms: seq<Msg>, more: seq<Msg>)
    requires Down in ms
    ensures AheadOfDown(ms + more) == AheadOfDown(ms)
  {
    if ms[0] != Down {
      assert (ms + more)[1..] == ms[1..] + more;
      AheadAppend(ms[1..], more);
    }
  }

  // The new owner is found dead: what will be lost is settled.
  ghost predicate Sealed(z: Sys, loss: seq<DataEvent>) {
    && !z.newAlive && z.pid == Old
    && if z.phase.Forwarding? then Down in z.oldMbox && z.lost + Datas(AheadOfDown(z.oldMbox)) == loss
       else (z.phase.Failing? || z.phase == Finished(false)) && z.lost == loss
  }

  lemma AheadFirst(ms: seq<Msg>)
    requires ms != [] && ms[0] != Down
    ensures Datas(AheadOfDown(ms)) == DataOf(ms[0]) + Datas(AheadOfDown(ms[1..]))
    ensures Down in ms ==> Down in ms[1..]
  {
    var ahead := AheadOfDown(ms[1..]);
    assert ([ms[0]] + ahead)[1..] == ahead;
    InTail(ms, Down);
  }

  lemma SealedForward(y: Sys, loss: seq<DataEvent>)
    requires Sealed(y, loss) && y.phase.Forwarding?
    ensures Sealed(ForwardNext(y), loss)
  {
    var m := y.oldMbox[0];
    if m == Down {
      assert y.lost + [] == y.lost;
    } else {
      AheadFirst(y.oldMbox);
      DatasOne(m);
    }
  }

  lemma SealedNext(y: Sys, m: Move, loss: seq<DataEvent>)
    requires y.st.consumed <= |y.st.rx| && Sealed(y, loss)
    ensures Sealed(Next(y, m), loss)
  {
    match m {
      case MForwardNext => if y.phase.Forwarding? { SealedForward(y, loss); }
      case MCallback(n, flags) =>
        if y.phase.Forwarding? { AheadAppend(y.oldMbox, Wrap(Step(y.st, Indicate(n, flags)).out)); }
      case MOtherEvent(id) => if y.phase.Forwarding? { AheadAppend(y.oldMbox, [Event(id)]); }
      case _ =>
    }
  }

  lemma {:induction false} SealedPlay(y: Sys, ms: Trace<Move>, loss: seq<DataEvent>)
    requires HandoffInv(y) && Sealed(y, loss)
    ensures Sealed(Play(y, ms), loss)
  {
    if ms.Then? {
      SealedPlay(y, ms.before, loss);
      PlayInv(y, ms.before);
      SealedNext(Play(y, ms.before), ms.step, loss);
    }
  }

  // Once the new owner is dead while messages are being forwarded, the handoff can only
  // fail, and it loses what was forwarded before and every data message that DOWN is queued
  // behind, whatever else happens: nothing if and only if there is neither.
  lemma LossIsSealed(y: Sys, ms: Trace<Move>, more: Trace<Move>)
    requires Start(y)
    requires Play(y, ms).phase.Forwarding? && !Play(y, ms).newAlive
    requires !Play(Play(y, ms), more).phase.Forwarding?
    ensures var p, z := Play(y, ms), Play(Play(y, ms), more);
            && (z.phase.Failing? || z.phase == Finished(false)) && z.pid == Old
            && z.lost == p.lost + Datas(AheadOfDown(p.oldMbox))
            && (z.lost == [] <==> ForwardedIn(y, ms) == [] && Datas(AheadOfDown(p.oldMbox)) == [])
  {
    StartInv(y);
    PlayInv(y, ms);
    var p := Play(y, ms);
    PlayForwards(y, ms);
    assert Datas(p.newMbox) + p.lost == p.lost;
    SealedPlay(p, more, p.lost + Datas(AheadOfDown(p.oldMbox)));
  }

  // Such a run: bytes arrive and are sent, the new owner dies, the handoff fails.
  function LosingRun(bytes: seq<byte>): Trace<Move> {
    var sent := Then(Then(Begin, MArrive(bytes)), MCallback(|bytes|, 0));
    var found := Then(Then(Then(sent, MNewDies), MGetOpt), MSetFalse);
    Then(Then(Then(found, MForwardNext), MForwardNext), MRestore)
  }

  // An active owner that has handled all there was.
  predicate Idling(y: Sys) {
    y.st.owner.mode == Active && y.st.lent == 0 && y.st.consumed == |y.st.rx| && y.oldMbox == []
  }

  lemma LosingSends(y: Sys, bytes: seq<byte>)
    requires Start(y) && Idling(y) && bytes != []
    ensures var y1, at := Next(Next(y, MArrive(bytes)), MCallback(|bytes|, 0)), y.st.consumed;
            && y1 == y.(st := y1.st, sent := y1.sent, oldMbox := [Stream(Data(at, bytes, 0))])
            && y1.st.consumed == at + |bytes|
  {
    var d := Data(y.st.consumed, bytes, 0);
    assert (y.st.rx + bytes)[|y.st.rx|..|y.st.rx| + |bytes|] == bytes;
    assert [d] + [] == [d] && [] + [Stream(d)] == [Stream(d)];
    assert Wrap([d]) == [Stream(d)];
  }

  lemma LosingFinds(y: Sys)
    requires y.phase.Working? && y.newAlive && y.newMbox == []
    ensures var z := Next(Next(Next(y, MNewDies), MGetOpt), MSetFalse);
            && z == y.(newAlive := false, lost := [], phase := z.phase, st := z.st, oldMbox := y.oldMbox + [Down])
            && z.phase.Forwarding? && z.st.consumed == y.st.consumed
  {
  }

  lemma LosingForwards(y: Sys, m: Msg)
    requires y.phase.Forwarding? && !y.newAlive && y.oldMbox == [m] + [Down] && m != Down && y.lost == []
    ensures var z := Next(Next(Next(y, MForwardNext), MForwardNext), MRestore);
            && z == y.(oldMbox := [], lost := DataOf(m), phase := Finished(false), st := z.st)
            && z.st.consumed == y.st.consumed
  {
    assert ([m] + [Down])[1..] == [Down] && [Down][1..] == [];
    DatasOne(m);
    assert [] + DataOf(m) == DataOf(m);
    var z1 := Next(y, MForwardNext);
    assert z1 == y.(oldMbox := [Down], lost := DataOf(m));
    var z2 := Next(z1, MForwardNext);
    assert z2 == z1.(oldMbox := [], phase := Failing(y.phase.saved));
    SetActiveFrame(z2, GetMode(y.phase.saved) != OptFalse, GetMode(y.phase.saved));
  }

  lemma PlayTwo(y: Sys, m1: Move, m2: Move)
    ensures Play(y, Then(Then(Begin, m1), m2)) == Next(Next(y, m1), m2)
  {
    assert Play(y, Then(Begin, m1)) == Next(Play(y, Begin), m1);
  }

  lemma PlayThree(y: Sys, ms: Trace<Move>, m1: Move, m2: Move, m3: Move)
    ensures Play(y, Then(Then(Then(ms, m1), m2), m3)) == Next(Next(Next(Play(y, ms), m1), m2), m3)
  {
    assert Play(y, Then(Then(ms, m1), m2)) == Next(Play(y, Then(ms, m1)), m2);
  }

  lemma PlayLosingRun(y: Sys, bytes: seq<byte>)
    ensures
      var y1 := Next(Next(y, MArrive(bytes)), MCallback(|bytes|, 0));
      var y2 := Next(Next(Next(y1, MNewDies), MGetOpt), MSetFalse);
      Play(y, LosingRun(bytes)) == Next(Next(Next(y2, MForwardNext), MForwardNext), MRestore)
  {
    var sent := Then(Then(Begin, MArrive(bytes)), MCallback(|bytes|, 0));
    PlayThree(y, sent, MNewDies, MGetOpt, MSetFalse);
    var found := Then(Then(Then(sent, MNewDies), MGetOpt), MSetFalse);
    PlayThree(y, found, MForwardNext, MForwardNext, MRestore);
    PlayTwo(y, MArrive(bytes), MCallback(|bytes|, 0));
  }

  lemma FailedHandoffLosesData(y: Sys, bytes: seq<byte>)
    requires Start(y) && Idling(y) && bytes != []
    ensures var z, at := Play(y, LosingRun(bytes)), y.st.consumed;
            && z.phase == Finished(false) && z.pid == Old
            && z.st.consumed == at + |bytes| && z.lost == [DataEvent(bytes, at, |bytes|, 0)]
            && z.oldHandled == [] && z.resumed == [] && z.oldMbox == []
  {
    PlayLosingRun(y, bytes);
    LosingSends(y, bytes);
    var y1 := Next(Next(y, MArrive(bytes)), MCallback(|bytes|, 0));
    LosingFinds(y1);
    LosingForwards(Next(Next(Next(y1, MNewDies), MGetOpt), MSetFalse), Stream(Data(y.st.consumed, bytes, 0)));
  }

  // ---------------------------------------------------------------- the mode

  predicate NewNeverSets(ms: Trace<Move>) {
    ms.Begin? || (NewNeverSets(ms.before) && !ms.step.MNewSets?)
  }

  // An owner record that getopt and setopt carry over.
  predicate Portable(o: Owner) {
    match o.mode
    case Passive => true
    case Multi => o.count <= INT16_MAX
    case _ => o.count == 0
  }

  // Between getopt and the restoring setopt.
  predicate ModeInv(y: Sys, saved: Owner) {
    match y.phase
    case Working => false
    case GotOpt(o) => o == saved && (saved.mode == Passive ==> y.st.owner == saved)
    case Finished(_) => true
    case _ => y.phase.saved == saved && y.st.owner == if saved.mode == Passive then saved else Owner(Passive, 0)
  }

  lemma NextModeInv(y: Sys, m: Move, saved: Owner)
    requires ModeInv(y, saved) && !m.MNewSets?
    ensures ModeInv(Next(y, m), saved)
  {
    match m {
      case MCallback(n, flags) => StepKinds(y.st, Indicate(n, flags));
      case _ =>
    }
  }

  lemma {:induction false} PlayModeInv(y: Sys, ms: Trace<Move>, saved: Owner)
    requires ModeInv(y, saved) && NewNeverSets(ms)
    ensures ModeInv(Play(y, ms), saved)
  {
    if ms.Then? {
      PlayModeInv(y, ms.before, saved);
      NextModeInv(Play(y, ms.before), ms.step, saved);
    }
  }

  // From any state, and however the handoff ends: the stream gets back exactly the mode and
  // budget that getopt read if and only if setopt can carry them, unless the new owner
  // changes the mode itself.
  lemma HandoffRestoresMode(y: Sys, ms: Trace<Move>)
    requires y.phase.Working? && NewNeverSets(ms)
    requires var z := Play(Next(y, MGetOpt), ms); z.phase.Signalled? || z.phase.Failing?
    ensures Next(Play(Next(y, MGetOpt), ms), MRestore).st.owner == y.st.owner <==> Portable(y.st.owner)
  {
    PlayModeInv(Next(y, MGetOpt), ms, y.st.owner);
    ReadSetRestores(y.st.owner);
  }

  // The RECEIVE events with data in a run.
  function ShownIn(y: Sys, ms: Trace<Move>): nat {
    match ms
    case Begin => 0
    case Then(before, m) =>
      ShownIn(y, before) +
      if m.MCallback? && Shows(Play(y, before).st, Indicate(m.n, m.flags)) then 1 else 0
  }

  // After getopt, callbacks alone change the mode, until setopt(false).
  ghost predicate InWindow(z: Sys, saved: Owner, shown: nat) {
    if z.phase.GotOpt? then z.phase.saved == saved && z.st.owner == Expected(saved, shown).1 else !z.phase.Working?
  }

  lemma WindowCallback(y: Sys, n: nat, flags: nat, saved: Owner, shown: nat)
    requires !AssertFails(saved) && InWindow(y, saved, shown)
    ensures InWindow(Callback(y, n, flags), saved, if Shows(y.st, Indicate(n, flags)) then shown + 1 else shown)
  {
    StepKinds(y.st, Indicate(n, flags));
    ExpectedNext(saved, shown);
  }

  lemma WindowOther(y: Sys, m: Move, saved: Owner, shown: nat)
    requires PhaseInv(y) && InWindow(y, saved, shown) && !m.MCallback?
    ensures InWindow(Next(y, m), saved, shown)
  {
  }

  lemma {:induction false} WindowPlay(y: Sys, ms: Trace<Move>)
    requires HandoffInv(y) && y.phase == GotOpt(y.st.owner) && !AssertFails(y.st.owner)
    ensures InWindow(Play(y, ms), y.st.owner, ShownIn(y, ms))
  {
    if ms.Then? {
      WindowPlay(y, ms.before);
      PlayInv(y, ms.before);
      var p := Play(y, ms.before);
      if ms.step.MCallback? {
        WindowCallback(p, ms.step.n, ms.step.flags, y.st.owner, ShownIn(y, ms.before));
      } else {
        WindowOther(p, ms.step, y.st.owner, ShownIn(y, ms.before));
      }
    }
  }

  lemma ExpectedSame(o: Owner, m: nat)
    requires !AssertFails(o)
    ensures Expected(o, m).1 == o <==> o.mode in {Passive, Active} || m == 0
  {
  }

  lemma WindowFrom(p: Sys, more: Trace<Move>)
    requires HandoffInv(p) && p.phase.Working? && !AssertFails(p.st.owner)
    ensures var q := Next(p, MGetOpt); InWindow(Play(q, more), p.st.owner, ShownIn(q, more))
  {
    NextKeeps(p, MGetOpt);
    WindowPlay(Next(p, MGetOpt), more);
  }

  lemma WindowOfRun(y: Sys, ms: Trace<Move>, more: Trace<Move>)
    requires Start(y) && Play(y, ms).phase.Working? && !AssertFails(Play(y, ms).st.owner)
    ensures var q := Next(Play(y, ms), MGetOpt);
            InWindow(Play(q, more), Play(y, ms).st.owner, ShownIn(q, more))
  {
    StartInv(y);
    PlayInv(y, ms);
    WindowFrom(Play(y, ms), more);
  }

  // That is the mode at getopt, not at setopt(false). In every run: the two differ if and
  // only if data was sent in between in `once` or {active, N}; and that change is undone.
  lemma WindowMessageIsForgotten(y: Sys, ms: Trace<Move>, more: Trace<Move>)
    requires Start(y) && Play(y, ms).phase.Working? && !AssertFails(Play(y, ms).st.owner)
    requires Play(Next(Play(y, ms), MGetOpt), more).phase.GotOpt?
    ensures var q := Next(Play(y, ms), MGetOpt);
            var z := Play(q, more);
            && z.phase.saved == Play(y, ms).st.owner
            && (z.st.owner == z.phase.saved <==> z.phase.saved.mode in {Passive, Active} || ShownIn(q, more) == 0)
  {
    WindowOfRun(y, ms, more);
    ExpectedSame(Play(y, ms).st.owner, ShownIn(Next(Play(y, ms), MGetOpt), more));
  }
}
