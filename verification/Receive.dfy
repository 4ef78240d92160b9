/** The receive path of a stream (c_src/quicer_stream.c, c_src/quicer_config.c), one
    step per critical section of the stream lock, with MsQuic as the environment.

    MsQuic holds the peer's bytes `rx` in order; `consumed` of them are done with. An
    application that answers a RECEIVE with PENDING borrows `lent` bytes until it calls
    StreamReceiveComplete; without a pending receive that call has no effect. */
module Receive {
  import opened Bytes
  import opened RecvMode
  import opened Runs

  datatype State = State(
    // fields of QuicerStreamCTX
    owner: Owner,
    data: seq<byte>,        // what Buffers point to; TotalBufferLength is its length
    recvPending: bool,      // is_recv_pending
    waiting: bool,          // is_wait_for_data
    // MsQuic
    rx: seq<byte>,
    consumed: nat,
    lent: nat,
    enabled: bool)

  function Init(owner: Owner): State {
    State(owner, [], false, false, [], 0, 0, true)
  }

  // Messages to the owner, and answers of recv/2.
  datatype Output =
    | Data(offset: nat, bytes: seq<byte>, flags: nat)   // {quic, Bin, Stream, Props}
    | PassiveMsg                                        // {quic, passive, Stream, undefined}
    | ContinueMsg                                       // {quic, continue, Stream, undefined}
    | Got(bytes: seq<byte>)                             // {ok, Bin}
    | NotReady                                          // {ok, not_ready}
    | Einval                                            // {error, einval}
    | EnableFailed                                      // {error, Status}

  datatype Op =
    | Arrive(bytes: seq<byte>)        // the peer's next bytes reach MsQuic
    | Indicate(n: nat, flags: nat)    // RECEIVE event showing the next n bytes
    | Reuse(bytes: seq<byte>)         // MsQuic writes over memory that is not on loan
    | Read(req: nat, enableOk: bool)  // recv(Stream, req); outcome of ReceiveSetEnabled
    | SetActive(v: Opt)               // setopt(Stream, active, v)

  datatype Result = Result(s: State, out: seq<Output>)

  // MsQuic->StreamReceiveComplete: a partial completion disables receiving.
  function Complete(s: State, k: nat): State {
    if s.lent == 0 then s
    else s.(consumed := s.consumed + k, lent := 0, enabled := s.enabled && k == s.lent)
  }

  // handle_stream_event_recv
  function OnReceive(s: State, chunk: seq<byte>, flags: nat): Result {
    var s1 := s.(data := chunk);
    if chunk == [] then Result(s1, [])
    else if s.owner.mode == Passive then
      Result(s1.(recvPending := true, lent := |chunk|), if s.waiting then [ContinueMsg] else [])
    else
      var r := AfterData(s.owner);
      Result(s1.(owner := r.owner,
                 consumed := s.consumed + |chunk|,
                 enabled := s.enabled && !r.reportPassive),
             [Data(s.consumed, chunk, flags)] + if r.reportPassive then [PassiveMsg] else [])
  }

  // How many bytes recv2 takes out of a ready buffer: 0 asks for all of it.
  function FlushSize(total: nat, req: nat): nat {
    var want := if req > total then total else req;
    if want == 0 then total else want
  }

  predicate Ready(s: State) {
    s.recvPending && |s.data| > 0
  }

  // recv2
  function OnRead(s: State, req: nat, enableOk: bool): Result {
    if s.owner.mode != Passive then Result(s, [Einval])
    else if Ready(s) then
      var size := FlushSize(|s.data|, req);
      var s1 := s.(data := [], recvPending := false, waiting := false);
      Result(Complete(s1, size), [Got(s.data[..size])])
    else
      var s1 := s.(waiting := true);
      var s2 := if s.recvPending then Complete(s1, 0) else s1;
      if enableOk then Result(s2.(enabled := true), [NotReady]) else Result(s2, [EnableFailed])
  }

  // set_stream_opt for `active`
  function OnSetActive(s: State, v: Opt): Result {
    var s1 :=
      if s.owner.mode == Passive && v != OptFalse && |s.data| > 0 then
        (if s.recvPending then Complete(s, 0) else s).(enabled := true)
      else s;
    Result(s1.(owner := SetMode(s.owner, v).owner), [])
  }

  // A RECEIVE shows bytes that have arrived, and only while none are lent. Whether
  // receiving is enabled is not asked: disabling is asynchronous.
  predicate CanIndicate(s: State, n: nat) {
    s.lent == 0 && s.consumed + n <= |s.rx|
  }

  function Step(s: State, op: Op): Result {
    match op
    case Arrive(bytes) => Result(s.(rx := s.rx + bytes), [])
    case Indicate(n, flags) =>
      if CanIndicate(s, n) then OnReceive(s, s.rx[s.consumed..s.consumed + n], flags) else Result(s, [])
    case Reuse(bytes) =>
      if s.lent == 0 && |bytes| == |s.data| then Result(s.(data := bytes), []) else Result(s, [])
    case Read(req, enableOk) => OnRead(s, req, enableOk)
    case SetActive(v) => OnSetActive(s, v)
  }

  // A RECEIVE event with data.
  predicate Shows(s: State, op: Op) {
    op.Indicate? && op.n > 0 && CanIndicate(s, op.n)
  }

  function Extend(p: Result, op: Op): Result {
    var r := Step(p.s, op);
    Result(r.s, p.out + r.out)
  }

  function Run(s: State, t: Trace<Op>): Result {
    match t
    case Begin => Result(s, [])
    case Then(before, op) => Extend(Run(s, before), op)
  }

  // ---------------------------------------------------------------- what the owner gets

  // The bytes the application has received, as messages or answers, in order.
  function Delivered(out: seq<Output>): seq<byte> {
    if out == [] then []
    else
      var last := |out| - 1;
      Delivered(out[..last]) +
      match out[last]
      case Data(_, bytes, _) => bytes
      case Got(bytes) => bytes
      case _ => []
  }

  lemma {:induction false} DeliveredConcat(a: seq<Output>, b: seq<Output>)
    ensures Delivered(a + b) == Delivered(a) + Delivered(b)
  {
    if b == [] {
      assert a + b == a;
    } else {
      var last := |b| - 1;
      assert (a + b)[..|a| + last] == a + b[..last];
      DeliveredConcat(a, b[..last]);
    }
  }

  // What every step keeps: a loan is of the next bytes, taken in passive mode.
  predicate Inv(s: State) {
    && s.consumed + s.lent <= |s.rx|
    && (s.lent > 0 ==>
          && s.recvPending
          && s.owner.mode == Passive
          && s.data == s.rx[s.consumed..s.consumed + s.lent])
  }

  lemma IndicateInv(s: State, n: nat, flags: nat)
    requires Inv(s)
    ensures Inv(Step(s, Indicate(n, flags)).s)
  {
  }

  lemma ReadInv(s: State, req: nat, enableOk: bool)
    requires Inv(s)
    ensures Inv(OnRead(s, req, enableOk).s)
    ensures OnRead(s, req, enableOk).s.lent == if s.owner.mode == Passive then 0 else s.lent
  {
  }

  lemma SetActiveInv(s: State, v: Opt)
    requires Inv(s)
    ensures Inv(OnSetActive(s, v).s)
  {
  }

  lemma StepInv(s: State, op: Op)
    requires Inv(s)
    ensures Inv(Step(s, op).s)
  {
    match op {
      case Arrive(bytes) =>
        assert (s.rx + bytes)[s.consumed..s.consumed + s.lent] == s.rx[s.consumed..s.consumed + s.lent];
      case Indicate(n, flags) => IndicateInv(s, n, flags);
      case Read(req, enableOk) => ReadInv(s, req, enableOk);
      case SetActive(v) => SetActiveInv(s, v);
      case Reuse(_) =>
    }
  }

  lemma {:induction false} RunInv(owner: Owner, t: Trace<Op>)
    ensures Inv(Run(Init(owner), t).s)
  {
    if t.Then? {
      RunInv(owner, t.before);
      StepInv(Run(Init(owner), t.before).s, t.step);
    }
  }

  // ---------------------------------------------------------------- answers of recv/2

  predicate IsAnswer(o: Output) {
    o.Got? || o.NotReady? || o.Einval? || o.EnableFailed?
  }

  function Answers(out: seq<Output>): nat {
    if out == [] then 0 else Answers(out[..|out| - 1]) + if IsAnswer(out[|out| - 1]) then 1 else 0
  }

  function Reads(t: Trace<Op>): nat {
    match t
    case Begin => 0
    case Then(before, op) => Reads(before) + if op.Read? then 1 else 0
  }

  // Whether the last answer of recv/2 to a passive read, if any, left the reader waiting.
  predicate Registered(out: seq<Output>) {
    out != [] &&
    match out[|out| - 1]
    case NotReady => true
    case EnableFailed => true
    case Got(_) => false
    case _ => Registered(out[..|out| - 1])
  }

  lemma {:induction false} NoAnswers(a: seq<Output>, b: seq<Output>)
    requires forall o :: o in b ==> !IsAnswer(o)
    ensures Answers(a + b) == Answers(a) && Registered(a + b) == Registered(a)
  {
    if b == [] {
      assert a + b == a;
    } else {
      var last := |b| - 1;
      assert (a + b)[..|a| + last] == a + b[..last];
      assert b[last] in b;
      NoAnswers(a, b[..last]);
    }
  }

  lemma OneAnswer(a: seq<Output>, o: Output)
    ensures Answers(a + [o]) == Answers(a) + if IsAnswer(o) then 1 else 0
    ensures Registered(a + [o]) == if IsAnswer(o) && !o.Einval? then !o.Got? else Registered(a)
  {
    assert (a + [o])[..|a|] == a;
  }

  // Only a read is answered, and every read is, once: with {error, einval}, changing nothing,
  // exactly when the mode that getopt returns is not `false`; with bytes exactly when a
  // passive receive is ready.
  lemma ReadAnswers(s: State, op: Op)
    ensures var r := Step(s, op);
            if !op.Read? then forall o :: o in r.out ==> !IsAnswer(o)
            else
              && |r.out| == 1 && IsAnswer(r.out[0])
              && (r.out[0] == Einval <==> GetMode(s.owner) != OptFalse)
              && (r.out[0] == Einval ==> r.s == s)
              && (r.out[0].Got? <==> s.owner.mode == Passive && Ready(s))
              && (r.out[0] == EnableFailed ==> !op.enableOk) && (r.out[0] == NotReady ==> op.enableOk)
  {
  }

  lemma StepRegisters(s: State, op: Op)
    ensures var r := Step(s, op);
            r.s.waiting ==
            if op.Read? && r.out[0] != Einval then !r.out[0].Got? else s.waiting
  {
    ReadAnswers(s, op);
  }

  // Over every run: each read has been answered, and a reader is registered if and only if
  // the last passive read was not given bytes.
  lemma {:induction false} WaitingIffUnanswered(owner: Owner, t: Trace<Op>)
    ensures var r := Run(Init(owner), t);
            Answers(r.out) == Reads(t) && (r.s.waiting <==> Registered(r.out))
  {
    if t.Then? {
      WaitingIffUnanswered(owner, t.before);
      var p := Run(Init(owner), t.before);
      var out := Step(p.s, t.step).out;
      ReadAnswers(p.s, t.step);
      StepRegisters(p.s, t.step);
      if t.step.Read? {
        assert out == [out[0]];
        OneAnswer(p.out, out[0]);
      } else {
        NoAnswers(p.out, out);
      }
    }
  }

  // ---------------------------------------------------------------- the buffer

  // What the latest RECEIVE event has shown, if no read has been given bytes since.
  function Buffered(s: State, t: Trace<Op>): nat {
    match t
    case Begin => |s.data|
    case Then(before, op) =>
      var p := Run(s, before).s;
      match op
      case Indicate(n, _) => if CanIndicate(p, n) then n else Buffered(s, before)
      case Read(_, _) => if Step(p, op).out[0].Got? then 0 else Buffered(s, before)
      case _ => Buffered(s, before)
  }

  lemma StepBuffers(s: State, op: Op)
    ensures var r := Step(s, op);
            |r.s.data| ==
            if op.Indicate? && CanIndicate(s, op.n) then op.n
            else if op.Read? && r.out[0].Got? then 0
            else |s.data|
  {
  }

  // Over every run, that is the length of the buffer: an empty RECEIVE empties it.
  lemma {:induction false} BufferIsLatest(s: State, t: Trace<Op>)
    ensures |Run(s, t).s.data| == Buffered(s, t)
  {
    if t.Then? {
      BufferIsLatest(s, t.before);
      StepBuffers(Run(s, t.before).s, t.step);
    }
  }

  // ---------------------------------------------------------------- whether bytes are shown

  // A read that takes less than it was shown.
  predicate PartialRead(s: State, out: seq<Output>) {
    out != [] && out[0].Got? && |out[0].bytes| < s.lent
  }

  // A setopt call, other than of `false`, on a passive stream with a buffer.
  predicate Rearms(s: State, op: Op) {
    op.SetActive? && GetMode(s.owner) == OptFalse && op.v != OptFalse && s.data != []
  }

  // Receiving is on until a `passive` message or a partial read, and on again after a
  // not_ready answer or a setopt call that finds a buffer.
  predicate Flows(s: State, t: Trace<Op>) {
    match t
    case Begin => s.enabled
    case Then(before, op) =>
      var p := Run(s, before).s;
      var out := Step(p, op).out;
      if PassiveMsg in out then false
      else if NotReady in out || Rearms(p, op) then true
      else Flows(s, before) && !PartialRead(p, out)
  }

  lemma ReadEnables(s: State, req: nat, enableOk: bool)
    requires Inv(s)
    ensures var r := OnRead(s, req, enableOk);
            && !(PassiveMsg in r.out)
            && (r.s.enabled <==> NotReady in r.out || (s.enabled && !PartialRead(s, r.out)))
  {
  }

  lemma StepEnables(s: State, op: Op)
    requires Inv(s)
    ensures var r := Step(s, op);
            r.s.enabled <==>
            !(PassiveMsg in r.out) && (NotReady in r.out || Rearms(s, op) || (s.enabled && !PartialRead(s, r.out)))
  {
    match op {
      case Read(req, enableOk) => ReadEnables(s, req, enableOk);
      case _ =>
    }
  }

  // Over every run, receiving is enabled in MsQuic exactly when these events say so.
  lemma {:induction false} EnabledIff(owner: Owner, t: Trace<Op>)
    ensures Run(Init(owner), t).s.enabled <==> Flows(Init(owner), t)
  {
    if t.Then? {
      EnabledIff(owner, t.before);
      RunInv(owner, t.before);
      StepEnables(Run(Init(owner), t.before).s, t.step);
    }
  }

  // Leaving the passive mode, whatever the outcome of the call, gives an outstanding receive
  // back unread and lets MsQuic show its bytes again.
  lemma LeavingPassiveGivesBack(s: State, v: Opt)
    requires Inv(s) && s.lent > 0 && v != OptFalse
    ensures var q := Step(s, SetActive(v)).s;
            q.enabled && q.lent == 0 && q.consumed == s.consumed && q.rx == s.rx
  {
  }

  // ---------------------------------------------------------------- stale buffers

  // Whether the last ready receive was handed back by a setopt(active, V), V other than
  // false, and not replaced since: seen from the calls and events alone. A receive is
  // outstanding from its passive RECEIVE until the read that takes it.
  datatype History = Idle | Outstanding | Revoked

  function Track(h: History, s: State, op: Op): History {
    match op
    case Arrive(_) => h
    case Reuse(_) => h
    case Indicate(n, _) =>
      if CanIndicate(s, n) && n > 0 && s.owner.mode == Passive then Outstanding else h
    case Read(_, _) =>
      if s.owner.mode == Passive && h != Idle && s.data != [] then Idle else h
    case SetActive(v) =>
      if s.owner.mode == Passive && v != OptFalse && h == Outstanding then Revoked else h
  }

  function Past(s: State, t: Trace<Op>): History {
    match t
    case Begin => Idle
    case Then(before, op) => Track(Past(s, before), Run(s, before).s, op)
  }

  // A passive read of a non-empty buffer whose receive was revoked.
  predicate Hazard(h: History, s: State, op: Op) {
    op.Read? && h == Revoked && s.owner.mode == Passive && s.data != []
  }

  predicate HazardFree(s: State, t: Trace<Op>) {
    match t
    case Begin => true
    case Then(before, op) => HazardFree(s, before) && !Hazard(Past(s, before), Run(s, before).s, op)
  }

  // The history is what the flags say: pending without a loan means revoked.
  predicate Tracks(h: History, s: State) {
    && (h == Idle <==> !s.recvPending)
    && (h == Outstanding <==> s.lent > 0)
  }

  lemma TrackStep(h: History, s: State, op: Op)
    requires Inv(s) && Tracks(h, s)
    ensures Tracks(Track(h, s, op), Step(s, op).s)
  {
  }

  // One step delivers exactly the bytes it consumes, unless it is a hazardous read: that
  // one consumes nothing and delivers whatever is in memory that MsQuic has taken back.
  ghost predicate DeliversConsumed(h: History, s: State, op: Op) {
    var r := Step(s, op);
    if Hazard(h, s, op) then r.s.consumed == s.consumed && |Delivered(r.out)| > 0
    else s.consumed <= r.s.consumed <= |r.s.rx| && Delivered(r.out) == r.s.rx[s.consumed..r.s.consumed]
  }

  lemma DeliveredData(offset: nat, bytes: seq<byte>, flags: nat)
    ensures Delivered([Data(offset, bytes, flags)]) == bytes
    ensures Delivered([Data(offset, bytes, flags)] + []) == bytes
    ensures Delivered([Data(offset, bytes, flags)] + [PassiveMsg]) == bytes
  {
    var one := [Data(offset, bytes, flags)];
    assert one[..0] == [] && one + [] == one;
    assert (one + [PassiveMsg])[..1] == one;
  }

  lemma DeliveredNone(out: seq<Output>)
    requires |out| == 1 && !out[0].Data? && !out[0].Got?
    ensures Delivered(out) == []
  {
    assert out[..0] == [];
  }

  lemma IndicateDelivers(h: History, s: State, n: nat, flags: nat)
    requires Inv(s)
    ensures DeliversConsumed(h, s, Indicate(n, flags))
  {
    var r := Step(s, Indicate(n, flags));
    if Shows(s, Indicate(n, flags)) && s.owner.mode != Passive {
      DeliveredData(s.consumed, s.rx[s.consumed..s.consumed + n], flags);
    } else {
      if r.out != [] {
        DeliveredNone(r.out);
      }
      assert r.s.consumed == s.consumed && r.s.rx[s.consumed..s.consumed] == [];
    }
  }

  lemma DeliveredGot(bytes: seq<byte>)
    ensures Delivered([Got(bytes)]) == bytes
  {
    assert [Got(bytes)][..0] == [];
  }

  lemma ReadDelivers(h: History, s: State, req: nat, enableOk: bool)
    requires Inv(s) && Tracks(h, s)
    ensures DeliversConsumed(h, s, Read(req, enableOk))
  {
    if s.owner.mode == Passive && Ready(s) {
      var size := FlushSize(|s.data|, req);
      DeliveredGot(s.data[..size]);
      var r := Step(s, Read(req, enableOk));
      assert r.out == [Got(s.data[..size])];
      if s.lent > 0 {
        assert h == Outstanding && r.s.consumed == s.consumed + size && r.s.rx == s.rx;
        SliceTake(s.rx, s.consumed, s.consumed + s.lent, size);
      }
    } else {
      DeliveredNone(Step(s, Read(req, enableOk)).out);
    }
  }

  lemma StepDelivers(h: History, s: State, op: Op)
    requires Inv(s) && Tracks(h, s)
    ensures DeliversConsumed(h, s, op)
    ensures s.rx <= Step(s, op).s.rx
  {
    match op {
      case Indicate(n, flags) => IndicateDelivers(h, s, n, flags);
      case Read(req, enableOk) => ReadDelivers(h, s, req, enableOk);
      case _ =>
    }
  }

  lemma PrefixGrows(rx: seq<byte>, rx': seq<byte>, a: nat, b: nat)
    requires rx <= rx' && a <= |rx| && a <= b <= |rx'|
    ensures rx[..a] + rx'[a..b] == rx'[..b]
  {
  }

  // Over every run, the bytes delivered as messages and by recv/2 are exactly the
  // consumed prefix of the peer's stream if and only if no revoked receive is read.
  lemma {:induction false} DeliversExactlyPrefix(owner: Owner, t: Trace<Op>)
    ensures var r := Run(Init(owner), t);
            && r.s.consumed <= |r.s.rx| && r.s.consumed <= |Delivered(r.out)|
            && (HazardFree(Init(owner), t) <==> Delivered(r.out) == r.s.rx[..r.s.consumed])
            && (!HazardFree(Init(owner), t) ==> |Delivered(r.out)| > r.s.consumed)
            && Tracks(Past(Init(owner), t), r.s)
  {
    RunInv(owner, t);
    if t.Then? {
      var s := Init(owner);
      DeliversExactlyPrefix(owner, t.before);
      RunInv(owner, t.before);
      var p := Run(s, t.before);
      TrackStep(Past(s, t.before), p.s, t.step);
      StepDelivers(Past(s, t.before), p.s, t.step);
      DeliveredConcat(p.out, Step(p.s, t.step).out);
      var q := Step(p.s, t.step).s;
      if HazardFree(s, t) {
        PrefixGrows(p.s.rx, q.rx, p.s.consumed, q.consumed);
      }
    }
  }

  // A run that sets the option only to false while a receive is outstanding is free of
  // the hazard.
  predicate NeverRevokes(s: State, t: Trace<Op>) {
    match t
    case Begin => true
    case Then(before, op) =>
      && NeverRevokes(s, before)
      && (op.SetActive? && Past(s, before) == Outstanding ==> op.v == OptFalse)
  }

  lemma {:induction false} NoRevocationNoHazard(s: State, t: Trace<Op>)
    requires NeverRevokes(s, t)
    ensures HazardFree(s, t) && Past(s, t) != Revoked
  {
    if t.Then? {
      NoRevocationNoHazard(s, t.before);
    }
  }

  // The hazard is real, from any state with an outstanding receive. After the `once`
  // message MsQuic may use the memory again, so the read that follows returns whatever is
  // there: anything at all of the old length,
  lemma RevokedReadReadsAnything(s: State, flags: nat, junk: seq<byte>)
    requires Inv(s) && s.lent > 0 && |junk| == |s.data|
    ensures var r1 := Step(s, SetActive(OptOnce));
            var r2 := Step(r1.s, Indicate(|s.data|, flags));
            var r3 := Step(Step(r2.s, Reuse(junk)).s, Read(0, true));
            r2.out == [Data(s.consumed, s.data, flags)] && r3.out == [Got(junk)]
  {
    var r2 := Step(Step(s, SetActive(OptOnce)).s, Indicate(|s.data|, flags));
    assert [Data(s.consumed, s.data, flags)] + [] == [Data(s.consumed, s.data, flags)];
    assert junk[..|junk|] == junk;
  }

  // the bytes of the message once more if the memory is still as it was, as also after a
  // setopt call that fails.
  lemma FailedSetRepeats(s: State, flags: nat)
    requires Inv(s) && s.lent > 0
    ensures !SetMode(s.owner, OptOther).ok
    ensures var r1 := Step(s, SetActive(OptOther));
            var r2 := Step(r1.s, Read(0, true));
            var r3 := Step(r2.s, Indicate(|s.data|, flags));
            var r4 := Step(r3.s, Read(0, true));
            r2.out == [Got(s.data)] && r4.out == [Got(s.data)]
  {
    assert s.data[..|s.data|] == s.data;
  }

  // ---------------------------------------------------------------- labels

  // A data message carries the offset of its first byte in the stream.
  predicate OffsetsRight(out: seq<Output>) {
    out == [] ||
    var last := |out| - 1;
    OffsetsRight(out[..last]) && (out[last].Data? ==> out[last].offset == |Delivered(out[..last])|)
  }

  // A step sends at most one data message, first, with the next bytes.
  lemma StepData(s: State, op: Op)
    ensures var out := Step(s, op).out;
            forall i :: 0 <= i < |out| && out[i].Data? ==>
                          && i == 0 && out[i].offset == s.consumed && out[i].bytes != []
                          && op.Indicate? && out[i].flags == op.flags
  {
  }

  lemma {:induction false} AppendLabelled(a: seq<Output>, b: seq<Output>)
    requires OffsetsRight(a)
    requires b != [] && b[0].Data? ==> b[0].offset == |Delivered(a)|
    requires forall i :: 0 < i < |b| ==> !b[i].Data?
    ensures OffsetsRight(a + b)
  {
    if b == [] {
      assert a + b == a;
    } else {
      var last := |b| - 1;
      assert (a + b)[..|a| + last] == a + b[..last];
      assert last == 0 ==> a + b[..last] == a;
      AppendLabelled(a, b[..last]);
    }
  }

  lemma {:induction false} MessagesLabelled(owner: Owner, t: Trace<Op>)
    requires HazardFree(Init(owner), t)
    ensures OffsetsRight(Run(Init(owner), t).out)
  {
    if t.Then? {
      MessagesLabelled(owner, t.before);
      DeliversExactlyPrefix(owner, t.before);
      var p := Run(Init(owner), t.before);
      StepData(p.s, t.step);
      AppendLabelled(p.out, Step(p.s, t.step).out);
    }
  }

  // ---------------------------------------------------------------- granted messages

  datatype Kind = D | P

  function Kinds(out: seq<Output>): seq<Kind> {
    if out == [] then []
    else
      var last := |out| - 1;
      Kinds(out[..last]) + match out[last]
                           case Data(_, _, _) => [D]
                           case PassiveMsg => [P]
                           case _ => []
  }

  lemma {:induction false} KindsConcat(a: seq<Output>, b: seq<Output>)
    ensures Kinds(a + b) == Kinds(a) + Kinds(b)
  {
    if b == [] {
      assert a + b == a;
    } else {
      var last := |b| - 1;
      assert (a + b)[..|a| + last] == a + b[..last];
      KindsConcat(a, b[..last]);
    }
  }

  function Receives(s: State, t: Trace<Op>): nat {
    match t
    case Begin => 0
    case Then(before, op) => Receives(s, before) + if Shows(Run(s, before).s, op) then 1 else 0
  }

  predicate NoSetActive(t: Trace<Op>) {
    t.Begin? || (NoSetActive(t.before) && !t.step.SetActive?)
  }

  function Ds(n: nat): seq<Kind> {
    seq(n, _ => D)
  }

  // What an owner gets for m non-empty receives, and the mode it is left in.
  function Expected(o: Owner, m: nat): (seq<Kind>, Owner) {
    match o.mode
    case Passive => ([], o)
    case Active => (Ds(m), o)
    case Once => if m == 0 then ([], o) else ([D], Owner(Passive, 0))
    case Multi => if m < o.count then (Ds(m), Owner(Multi, o.count - m)) else (Ds(o.count) + [P], Owner(Passive, 0))
  }

  predicate GrantedFor(o: Owner, m: nat, r: Result) {
    (Kinds(r.out), r.s.owner) == Expected(o, m)
  }

  // What one data message tells the owner beyond itself.
  function MessageKinds(o: Owner): seq<Kind> {
    if AfterData(o).reportPassive then [D, P] else [D]
  }

  lemma KindsOfMessage(offset: nat, bytes: seq<byte>, flags: nat)
    ensures Kinds([Data(offset, bytes, flags)] + []) == [D]
    ensures Kinds([Data(offset, bytes, flags)] + [PassiveMsg]) == [D, P]
  {
    var one := [Data(offset, bytes, flags)];
    assert one[..0] == [] && one + [] == one;
    assert (one + [PassiveMsg])[..1] == one;
  }

  lemma KindsOfAnswer(out: seq<Output>)
    requires |out| <= 1 && forall o :: o in out ==> !o.Data? && !o.PassiveMsg?
    ensures Kinds(out) == []
  {
    if out != [] {
      assert out[..0] == [] && out[0] in out;
    }
  }

  lemma QuietStep(s: State, op: Op)
    requires !op.SetActive? && !(Shows(s, op) && s.owner.mode != Passive)
    ensures var r := Step(s, op);
            r.s.owner == s.owner && |r.out| <= 1 && forall o :: o in r.out ==> !o.Data? && !o.PassiveMsg?
  {
  }

  // What one step other than setopt tells the owner.
  lemma StepKinds(s: State, op: Op)
    requires !op.SetActive?
    ensures var r := Step(s, op);
            if Shows(s, op) && s.owner.mode != Passive
            then r.s.owner == AfterData(s.owner).owner && Kinds(r.out) == MessageKinds(s.owner)
            else r.s.owner == s.owner && Kinds(r.out) == []
  {
    if Shows(s, op) && s.owner.mode != Passive {
      KindsOfMessage(s.consumed, s.rx[s.consumed..s.consumed + op.n], op.flags);
    } else {
      QuietStep(s, op);
      KindsOfAnswer(Step(s, op).out);
    }
  }

  lemma ExpectedNext(o: Owner, m: nat)
    requires !AssertFails(o)
    ensures var e := Expected(o, m);
            Expected(o, m + 1) ==
            if e.1.mode == Passive then e else (e.0 + MessageKinds(e.1), AfterData(e.1).owner)
  {
    assert Ds(m + 1) == Ds(m) + [D];
    assert Ds(m) + [D, P] == Ds(m) + [D] + [P];
    assert [D] == [] + [D];
  }

  lemma GrantNext(o: Owner, m: nat, p: Result, op: Op)
    requires !AssertFails(o) && !op.SetActive? && GrantedFor(o, m, p)
    ensures GrantedFor(o, if Shows(p.s, op) then m + 1 else m, Extend(p, op))
  {
    KindsConcat(p.out, Step(p.s, op).out);
    StepKinds(p.s, op);
    ExpectedNext(o, m);
    assert Kinds(p.out) + [] == Kinds(p.out);
  }

  // Until the next setopt call: {active, N} yields exactly N data messages, then exactly
  // one `passive` and no further data; `once` yields one data message and no `passive`;
  // `true` yields one message per receive; `false` yields none.
  lemma {:induction false} GrantIsExact(s: State, t: Trace<Op>)
    requires !AssertFails(s.owner) && NoSetActive(t)
    ensures GrantedFor(s.owner, Receives(s, t), Run(s, t))
  {
    if t.Then? {
      GrantIsExact(s, t.before);
      var p, m := Run(s, t.before), Receives(s, t.before);
      GrantNext(s.owner, m, p, t.step);
      assert Run(s, t) == Extend(p, t.step);
      assert Receives(s, t) == if Shows(p.s, t.step) then m + 1 else m;
    }
  }

  // What setopt(Stream, active, V) promises an owner for the m non-empty receives after it.
  function Promised(o: Owner, v: Opt, m: nat): seq<Kind> {
    match v
    case OptFalse => []
    case OptTrue => Ds(m)
    case OptOnce => if m == 0 then [] else [D]
    case OptInt(i) =>
      var sum := o.count + i;
      if sum < 0 then [] else if m < sum then Ds(m) else Ds(sum) + [P]
    case OptOther => []
  }

  // Every accepted call keeps its promise until the next one, unless it cancels the budget
  // exactly; a refused one leaves what the owner had; and the call itself sends nothing.
  lemma GrantAfterSet(s: State, v: Opt, t: Trace<Op>)
    requires NoSetActive(t) && !AssertFails(SetMode(s.owner, v).owner)
    ensures var q := Step(s, SetActive(v));
            var m := Receives(q.s, t);
            && q.out == []
            && Kinds(Run(q.s, t).out) ==
               if SetMode(s.owner, v).ok then Promised(s.owner, v, m) else Expected(s.owner, m).0
  {
    var q := Step(s, SetActive(v)).s;
    GrantIsExact(q, t);
    SetModeIsRead(s.owner, v);
  }

  // ---------------------------------------------------------------- the budget of a run

  // What a run does to the owner record.
  function ModeSteps(s: State, t: Trace<Op>): seq<ModeStep> {
    match t
    case Begin => []
    case Then(before, op) =>
      ModeSteps(s, before) +
      if op.SetActive? then [Set(op.v)] else if Shows(Run(s, before).s, op) then [Message] else []
  }

  lemma {:induction false} ApplyAllSnoc(o: Owner, steps: seq<ModeStep>, step: ModeStep)
    ensures ApplyAll(o, steps + [step]) == Apply(ApplyAll(o, steps), step)
    decreases |steps|
  {
    if steps == [] {
      assert [step][1..] == [];
    } else {
      assert (steps + [step])[1..] == steps[1..] + [step];
      ApplyAllSnoc(Apply(o, steps[0]), steps[1..], step);
    }
  }

  lemma {:induction false} OwnerOfRun(s: State, t: Trace<Op>)
    ensures Run(s, t).s.owner == ApplyAll(s.owner, ModeSteps(s, t))
  {
    if t.Then? {
      OwnerOfRun(s, t.before);
      var p := Run(s, t.before).s;
      var steps := ModeSteps(s, t.before);
      if t.step.SetActive? {
        ApplyAllSnoc(s.owner, steps, Set(t.step.v));
      } else {
        StepKinds(p, t.step);
        ApplyAllSnoc(s.owner, steps, Message);
        assert steps + [] == steps;
      }
    }
  }

  // Over every run of the stream from a good owner, such as that of a stream started here
  // or taken by an acceptor, in which no setopt cancels the budget exactly: it fits an
  // int16_t, it is positive exactly in MULTI, and it is what the ledger says.
  lemma BudgetOfRun(owner: Owner, t: Trace<Op>)
    requires Good(owner) && NeverZeroed(owner, ModeSteps(Init(owner), t))
    ensures var o := Run(Init(owner), t).s.owner;
            && 0 <= o.count <= INT16_MAX && (o.mode == Multi <==> o.count > 0)
            && o.count == owner.count + Ledger(owner, ModeSteps(Init(owner), t))
  {
    OwnerOfRun(Init(owner), t);
    BudgetConserved(owner, ModeSteps(Init(owner), t));
  }
}
