/** From MsQuic to the callback module: the data messages of a stream, sent by
    `handle_stream_event_recv` and handled by a quicer_stream process with its own
    reassembly buffer. */
module EndToEnd {
  import opened Bytes
  import opened FpBuffer
  import opened Reassembly
  import opened RecvMode
  import opened Messages
  import opened Runs
  import H = Handoff
  import R = Receive

  predicate NoAnswers(out: seq<R.Output>) {
    forall o :: o in out ==> !o.Got?
  }

  // Every data message of a run carries bytes.
  lemma {:induction false} DataNotEmpty(owner: Owner, t: Trace<R.Op>)
    ensures forall o :: o in R.Run(R.Init(owner), t).out && o.Data? ==> o.bytes != []
  {
    if t.Then? {
      DataNotEmpty(owner, t.before);
      var p := R.Run(R.Init(owner), t.before);
      R.StepData(p.s, t.step);
    }
  }

  // Labelled outputs without read answers are consecutive messages from the start.
  lemma {:induction false} OutputsConsecutive(out: seq<R.Output>)
    requires R.OffsetsRight(out) && NoAnswers(out)
    requires forall o :: o in out && o.Data? ==> o.bytes != []
    ensures Consecutive(Events(out), R.Delivered(out), 0)
  {
    if out == [] {
    } else {
      var last := |out| - 1;
      OutputsConsecutive(out[..last]);
      assert out[last] in out;
      if out[last].Data? {
        ConsecutiveSnoc(Events(out[..last]), R.Delivered(out[..last]), 0, out[last].bytes, out[last].flags);
      } else {
        assert Events(out) == Events(out[..last]);
        assert R.Delivered(out) == R.Delivered(out[..last]);
      }
    }
  }

  // A hazardous read is a read that returns bytes.
  lemma HazardAnswers(h: R.History, s: R.State, op: R.Op)
    requires h != R.Idle ==> s.recvPending
    ensures R.Hazard(h, s, op) ==> !NoAnswers(R.Step(s, op).out)
  {
    if R.Hazard(h, s, op) {
      assert R.Step(s, op).out[0].Got?;
    }
  }

  lemma {:induction false} NoAnswersNoHazard(s: R.State, t: Trace<R.Op>)
    requires NoAnswers(R.Run(s, t).out)
    ensures R.HazardFree(s, t)
    ensures R.Past(s, t) != R.Idle ==> R.Run(s, t).s.recvPending
  {
    if t.Then? {
      var p := R.Run(s, t.before);
      var out := R.Step(p.s, t.step).out;
      assert forall o :: o in p.out || o in out ==> o in p.out + out;
      NoAnswersNoHazard(s, t.before);
      HazardAnswers(R.Past(s, t.before), p.s, t.step);
    }
  }

  // What a run sends are consecutive messages carrying the consumed bytes.
  lemma RunConsecutive(owner: Owner, t: Trace<R.Op>)
    requires NoAnswers(R.Run(R.Init(owner), t).out)
    ensures var r := R.Run(R.Init(owner), t);
            r.s.consumed <= |r.s.rx| && Consecutive(Events(r.out), r.s.rx[..r.s.consumed], 0)
  {
    NoAnswersNoHazard(R.Init(owner), t);
    R.DeliversExactlyPrefix(owner, t);
    R.MessagesLabelled(owner, t);
    DataNotEmpty(owner, t);
    OutputsConsecutive(R.Run(R.Init(owner), t).out);
  }

  lemma ConsecutiveIsCut(es: seq<DataEvent>, stream: seq<byte>)
    requires Consecutive(es, stream, 0)
    ensures Cut(es, stream, 0)
  {
    ConsecutiveChain(es, stream, 0);
    forall i | 0 <= i < |es| ensures es[i].len > 0 && Holds(ToQuicData(es[i]), stream, 0) {
      assert es[i] in es;
    }
  }

  lemma ConsecutiveDelivers(sent: seq<DataEvent>, es: seq<DataEvent>, stream: seq<byte>)
    requires Consecutive(sent, stream, 0) && multiset(es) == multiset(sent)
    ensures var r := HandleAll(es, Enabled(NewBuffer(0)));
            && r.Served? && AppBytes(r.apps) == stream && r.fp == Enabled(Buffer(|stream|, []))
            && WellLabelled(r.apps, 0)
  {
    ConsecutiveIsCut(sent, stream);
    AnyOrderDelivers(sent, es, stream, 0);
  }

  // The peer's bytes reach the callback module: over every run without recv/2 answers, in
  // whatever order the messages of the run are handled, the callback gets exactly the
  // bytes that MsQuic has consumed, in stream order and correctly labelled; and it sees the
  // RECEIVE flags, such as FIN, that came with them.
  lemma StreamReachesCallback(owner: Owner, t: Trace<R.Op>, es: seq<DataEvent>)
    requires NoAnswers(R.Run(R.Init(owner), t).out)
    requires multiset(es) == multiset(Events(R.Run(R.Init(owner), t).out))
    ensures var s := R.Run(R.Init(owner), t).s;
            var r := HandleAll(es, Enabled(NewBuffer(0)));
            && s.consumed <= |s.rx|
            && r.Served? && AppBytes(r.apps) == s.rx[..s.consumed]
            && r.fp == Enabled(Buffer(s.consumed, []))
            && WellLabelled(r.apps, 0)
            && forall k: nat :: FlagSeen(r.apps, k) <==> FlagSeen(es, k)
  {
    RunConsecutive(owner, t);
    var r := R.Run(R.Init(owner), t);
    ConsecutiveDelivers(Events(r.out), es, r.s.rx[..r.s.consumed]);
    forall k: nat ensures FlagSeen(HandleAll(es, Enabled(NewBuffer(0))).apps, k) <==> FlagSeen(es, k) {
      FlagsDelivered(es, 0, k);
    }
  }

  // ---------------------------------------------------------------- after a handoff

  lemma ConsecutiveArrive(es: seq<DataEvent>, stream: seq<byte>, at: nat)
    requires ChainOf(es, stream, at)
    ensures Arrivals(es, stream, 0)
    ensures forall d :: d in Records(es) ==> d.size > 0
  {
    forall d | d in Records(es) ensures d.size > 0 {
      var i :| 0 <= i < |es| && Records(es)[i] == d;
      assert es[i] in es;
    }
    ChainDisjoint(Records(es), at);
    forall i | 0 <= i < |es| ensures Holds(ToQuicData(es[i]), stream, 0) {
      assert es[i] in es;
    }
  }

  // A buffer that starts at 0 and gets consecutive messages from `at` on.
  lemma BufferFrom(es: seq<DataEvent>, stream: seq<byte>, at: nat)
    requires at <= |stream| && Consecutive(es, stream, at)
    ensures var r := HandleAll(es, Enabled(NewBuffer(0)));
            r.Served? && AppBytes(r.apps) == if at == 0 then stream else []
  {
    ConsecutiveChain(es, stream, at);
    ConsecutiveArrive(es, stream, at);
    DeliversPrefix(es, stream, 0);
    FeedInvariant(Records(es), 0);
    var f := Feed(Records(es), 0);
    var all := Records(es);
    ChainCovers(all, at);
    if at == 0 {
      assert forall x: nat :: x < |stream| ==> Covered(all, x);
      assert stream[..|stream|] == stream;
    } else {
      assert !Covered(all, 0);
    }
  }

  // What the callback of an owner that takes over at byte `at` gets for the messages handled
  // so far, with a buffer that starts at offset 0 and without one. `stream` is what MsQuic
  // has consumed.
  ghost predicate CallbackGets(handled: seq<DataEvent>, stream: seq<byte>, at: nat) {
    var end := at + |AppBytes(handled)|;
    var r := HandleAll(handled, Enabled(NewBuffer(0)));
    && end <= |stream| && AppBytes(handled) == stream[at..end]
    && r.Served? && AppBytes(r.apps) == (if at == 0 then stream[..end] else [])
    && HandleAll(handled, Disabled) == Served(handled, Disabled)
  }

  lemma SliceAfter<T>(s: seq<T>, a: nat, b: nat)
    requires a <= b <= |s|
    ensures s[..b][a..] == s[a..b]
  {
  }

  lemma TakenOver(handled: seq<DataEvent>, waiting: seq<DataEvent>, stream: seq<byte>, at: nat)
    requires Consecutive(handled + waiting, stream, at)
    ensures CallbackGets(handled, stream, at)
  {
    var mid := ConsecutiveSplit(handled, waiting, stream, at);
    ConsecutiveBytes(handled, stream[..mid], at);
    BufferFrom(handled, stream[..mid], at);
    DisabledPassesThrough(handled);
    SliceAfter(stream, at, mid);
  }

  // The same for the new owner of a handoff that started at byte `base`.
  ghost predicate NewOwnerGets(z: H.Sys, base: nat)
    requires z.st.consumed <= |z.st.rx|
  {
    CallbackGets(z.newHandled, z.st.rx[..z.st.consumed], base + |AppBytes(z.oldHandled)|)
  }

  lemma TakesOverGets(z: H.Sys, base: nat)
    requires z.st.consumed <= |z.st.rx| && H.TakesOver(z, base) && z.newReady
    ensures NewOwnerGets(z, base)
  {
    TakenOver(z.newHandled, H.Datas(z.newMbox), z.st.rx[..z.st.consumed], base + |AppBytes(z.oldHandled)|);
  }

  // A quicer_stream process always starts its buffer at offset 0. In every run of a
  // handoff: if no byte had been handled or read before, the new owner's callback gets
  // exactly the bytes of the messages the new owner has handled, from the start of the
  // stream; otherwise none at all, since every message waits for bytes already gone. With
  // the buffer disabled, the callback gets those messages as they are.
  lemma BufferAfterHandoff(y: H.Sys, ms: Trace<H.Move>)
    requires H.Start(y) && H.Play(y, ms).newAlive && H.Play(y, ms).newReady
    ensures H.Play(y, ms).st.consumed <= |H.Play(y, ms).st.rx| && NewOwnerGets(H.Play(y, ms), y.base)
  {
    H.HandoffPreservesOrder(y, ms);
    TakesOverGets(H.Play(y, ms), y.base);
  }
}
