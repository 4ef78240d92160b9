/** The ACCEPTOR records of a server connection: the queue of processes waiting for a
    stream (c_src/quicer_queue.c), the owner of each stream and of the connection, and
    their release (c_src/quicer_connection.c, c_src/quicer_nif.c).

    Records are numbered in order of allocation. */
module Acceptors {
  import opened Runs

  datatype State = State(
    pids: seq<nat>,              // by record: acc->Pid
    queue: seq<nat>,             // c_ctx->acceptor_queue
    connOwner: nat,              // c_ctx->owner
    owners: map<nat, nat>,       // s_ctx->owner, by stream
    freed: seq<nat>,             // records passed to CXPLAT_FREE, in order
    told: seq<nat>,              // waiting acceptors sent {quic, closed, undefined, undefined}
    isDown: bool,                // SHUTDOWN_COMPLETE handled
    gone: bool,                  // the connection context is deallocated
    // history: records put into and taken out of the queue
    entered: seq<nat>,
    left: seq<nat>)

  // The connection is accepted with an owner taken from the listener's queue.
  function Init(pid: nat): State {
    State([pid], [], 0, map[], [], [], false, false, [], [])
  }

  // async_accept_stream2; an unusable `active` option frees the record at once. Nothing
  // stops a call after the connection is down.
  function AcceptStream(s: State, pid: nat, ok: bool): State {
    if s.gone then s
    else
      var a := |s.pids|;
      if ok then s.(pids := s.pids + [pid], queue := s.queue + [a], entered := s.entered + [a])
      else s.(pids := s.pids + [pid], freed := s.freed + [a])
  }

  // handle_connection_event_peer_stream_started: the first waiting acceptor, or a copy of
  // the connection owner's record.
  function PeerStream(s: State, stream: nat): State
    requires s.connOwner < |s.pids|
  {
    if s.isDown || s.gone || stream in s.owners then s
    else if s.queue != [] then
      s.(owners := s.owners[stream := s.queue[0]], queue := s.queue[1..], left := s.left + [s.queue[0]])
    else
      s.(owners := s.owners[stream := |s.pids|], pids := s.pids + [s.pids[s.connOwner]])
  }

  // async_start_stream2: the caller's own record; if the stream cannot be started, its
  // context is freed, and the record with it.
  function LocalStream(s: State, stream: nat, pid: nat, ok: bool): State {
    if s.gone || stream in s.owners then s
    else if ok then s.(pids := s.pids + [pid], owners := s.owners[stream := |s.pids|])
    else s.(pids := s.pids + [pid], freed := s.freed + [|s.pids|])
  }

  // connection_controlling_process rewrites the owner's pid in place;
  function Transfer(s: State, pid: nat): State
    requires s.connOwner < |s.pids|
  {
    if s.gone then s else s.(pids := s.pids[s.connOwner := pid])
  }

  // stream_controlling_process that of the stream's owner.
  function TransferStream(s: State, stream: nat, pid: nat): State {
    if stream in s.owners && s.owners[stream] < |s.pids| then s.(pids := s.pids[s.owners[stream] := pid]) else s
  }

  // handle_connection_event_shutdown_complete: every waiting acceptor is told and freed.
  function Shutdown(s: State): State {
    if s.isDown || s.gone then s
    else
      s.(told := s.told + s.queue, freed := s.freed + s.queue, left := s.left + s.queue, queue := [], isDown := true)
  }

  // resource_stream_dealloc_callback
  function StreamFreed(s: State, stream: nat): State {
    if stream !in s.owners then s
    else s.(freed := s.freed + [s.owners[stream]], owners := s.owners - {stream})
  }

  // resource_conn_dealloc_callback, which comes after the shutdown and all streams (see
  // module Refs): the owner's record, then AcceptorQueueDestroy.
  function ConnFreed(s: State): State {
    if !s.isDown || s.gone || s.owners != map[] then s
    else
      s.(freed := s.freed + [s.connOwner] + s.queue, left := s.left + s.queue, queue := [], gone := true)
  }

  datatype Step =
    | DoAccept(pid: nat, ok: bool)
    | DoPeerStream(stream: nat)
    | DoLocalStream(stream: nat, pid: nat, ok: bool)
    | DoTransfer(pid: nat)
    | DoTransferStream(stream: nat, pid: nat)
    | DoShutdown
    | DoStreamFreed(stream: nat)
    | DoConnFreed

  function Next(s: State, step: Step): (t: State)
    requires s.connOwner < |s.pids|
    ensures t.connOwner == s.connOwner && |s.pids| <= |t.pids|
  {
    match step
    case DoAccept(pid, ok) => AcceptStream(s, pid, ok)
    case DoPeerStream(stream) => PeerStream(s, stream)
    case DoLocalStream(stream, pid, ok) => LocalStream(s, stream, pid, ok)
    case DoTransfer(pid) => Transfer(s, pid)
    case DoTransferStream(stream, pid) => TransferStream(s, stream, pid)
    case DoShutdown => Shutdown(s)
    case DoStreamFreed(stream) => StreamFreed(s, stream)
    case DoConnFreed => ConnFreed(s)
  }

  function Run(s: State, run: Trace<Step>): (t: State)
    requires s.connOwner < |s.pids|
    ensures t.connOwner == s.connOwner && |s.pids| <= |t.pids|
  {
    match run
    case Begin => s
    case Then(before, step) => Next(Run(s, before), step)
  }

  // ---------------------------------------------------------------- one place each

  ghost predicate Distinct(a: seq<nat>) {
    forall i, j :: 0 <= i < j < |a| ==> a[i] != a[j]
  }

  ghost predicate Owns(s: State, a: nat) {
    (!s.gone && a == s.connOwner) || exists i :: i in s.owners && s.owners[i] == a
  }

  // Exactly one of: waiting in the queue, owned, freed.
  ghost predicate OnePlace(s: State, a: nat) {
    && (a in s.queue || Owns(s, a) || a in s.freed)
    && !(a in s.queue && Owns(s, a)) && !(a in s.queue && a in s.freed) && !(Owns(s, a) && a in s.freed)
  }

  // No two contexts share a record.
  ghost predicate Unshared(s: State) {
    && (forall i, j :: i in s.owners && j in s.owners && i != j ==> s.owners[i] != s.owners[j])
    && (!s.gone ==> forall i :: i in s.owners ==> s.owners[i] != s.connOwner)
  }

  ghost predicate Known(s: State) {
    && s.connOwner < |s.pids|
    && (forall a :: a in s.queue ==> a < |s.pids|)
    && (forall a :: a in s.freed ==> a < |s.pids|)
    && (forall i :: i in s.owners ==> s.owners[i] < |s.pids|)
  }

  ghost predicate Inv(s: State) {
    && Distinct(s.queue) && Distinct(s.freed) && Distinct(s.told)
    && Unshared(s) && Known(s)
    && (forall a: nat :: a < |s.pids| ==> OnePlace(s, a))
    && (forall a :: a in s.told ==> a in s.freed)
    && s.entered == s.left + s.queue
    && (s.gone ==> s.isDown && s.owners == map[] && s.queue == [])
    && (!s.isDown ==> s.told == [])
  }

  lemma AppendDistinct(a: seq<nat>, b: seq<nat>)
    requires Distinct(a) && Distinct(b) && forall x :: x in b ==> x !in a
    ensures Distinct(a + b)
  {
    forall i, j | 0 <= i < j < |a + b| ensures (a + b)[i] != (a + b)[j] {
      if i < |a| <= j { assert b[j - |a|] in b; }
    }
  }

  lemma AcceptInv(s: State, pid: nat, ok: bool)
    requires Inv(s)
    ensures Inv(AcceptStream(s, pid, ok))
  {
    var t := AcceptStream(s, pid, ok);
    if !s.gone {
      var a := |s.pids|;
      AppendDistinct(s.queue, [a]);
      AppendDistinct(s.freed, [a]);
      forall b: nat | b < |t.pids| ensures OnePlace(t, b) {
        assert b < |s.pids| ==> OnePlace(s, b);
        assert Owns(t, b) <==> Owns(s, b);
      }
    }
  }

  lemma PeerHitPlace(s: State, stream: nat, b: nat)
    requires Inv(s) && !s.isDown && stream !in s.owners && s.queue != [] && b < |s.pids|
    ensures OnePlace(PeerStream(s, stream), b)
  {
    var t := PeerStream(s, stream);
    var given := s.queue[0];
    assert OnePlace(s, given) && OnePlace(s, b);
    assert s.queue == [given] + t.queue;
    assert given !in t.queue by { assert forall k :: 0 <= k < |t.queue| ==> t.queue[k] == s.queue[k + 1]; }
    assert t.owners[stream] == given;
    assert forall i :: i in s.owners ==> i in t.owners && t.owners[i] == s.owners[i];
    assert Owns(t, b) <==> Owns(s, b) || b == given;
  }

  lemma PeerHitInv(s: State, stream: nat)
    requires Inv(s) && !s.isDown && stream !in s.owners && s.queue != []
    ensures Inv(PeerStream(s, stream))
  {
    var t := PeerStream(s, stream);
    var given := s.queue[0];
    assert OnePlace(s, given);
    assert s.queue == [given] + t.queue;
    forall b | b in t.queue ensures b in s.queue && b != given {}
    forall b: nat | b < |t.pids| ensures OnePlace(t, b) {
      PeerHitPlace(s, stream, b);
    }
  }

  lemma PeerMissInv(s: State, stream: nat)
    requires Inv(s) && !s.isDown && stream !in s.owners && s.queue == []
    ensures Inv(PeerStream(s, stream))
  {
    var t := PeerStream(s, stream);
    forall b: nat | b < |t.pids| ensures OnePlace(t, b) {
      assert b < |s.pids| ==> OnePlace(s, b);
      assert t.owners[stream] == |s.pids|;
      assert forall i :: i in s.owners ==> i in t.owners && t.owners[i] == s.owners[i];
      assert Owns(t, b) <==> Owns(s, b) || b == |s.pids|;
    }
  }

  lemma ShutdownInv(s: State)
    requires Inv(s)
    ensures Inv(Shutdown(s))
  {
    var t := Shutdown(s);
    if !s.isDown && !s.gone {
      forall b | b in s.queue ensures b !in s.freed { assert OnePlace(s, b); }
      AppendDistinct(s.freed, s.queue);
      forall b: nat | b < |t.pids| ensures OnePlace(t, b) {
        assert OnePlace(s, b);
        assert Owns(t, b) <==> Owns(s, b);
      }
    }
  }

  lemma StreamFreedInv(s: State, stream: nat)
    requires Inv(s)
    ensures Inv(StreamFreed(s, stream))
  {
    var t := StreamFreed(s, stream);
    if stream in s.owners {
      var a := s.owners[stream];
      assert OnePlace(s, a) && Owns(s, a);
      AppendDistinct(s.freed, [a]);
      forall b: nat | b < |t.pids| ensures OnePlace(t, b) {
        assert OnePlace(s, b);
        assert forall i :: i in t.owners ==> i in s.owners && i != stream && t.owners[i] == s.owners[i];
        assert forall i :: i in s.owners && i != stream ==> i in t.owners;
        assert Owns(t, b) <==> Owns(s, b) && b != a;
      }
    }
  }

  lemma ConnFreedInv(s: State)
    requires Inv(s)
    ensures Inv(ConnFreed(s))
  {
    var t := ConnFreed(s);
    if s.isDown && !s.gone && s.owners == map[] {
      assert OnePlace(s, s.connOwner);
      AppendDistinct(s.freed, [s.connOwner]);
      forall b | b in s.queue ensures b !in s.freed + [s.connOwner] { assert OnePlace(s, b); }
      AppendDistinct(s.freed + [s.connOwner], s.queue);
      forall b: nat | b < |t.pids| ensures OnePlace(t, b) { assert OnePlace(s, b); }
    }
  }

  lemma LocalStreamInv(s: State, stream: nat, pid: nat, ok: bool)
    requires Inv(s)
    ensures Inv(LocalStream(s, stream, pid, ok))
  {
    var t := LocalStream(s, stream, pid, ok);
    if !s.gone && stream !in s.owners {
      var a := |s.pids|;
      AppendDistinct(s.freed, [a]);
      forall b: nat | b < |t.pids| ensures OnePlace(t, b) {
        assert b < |s.pids| ==> OnePlace(s, b);
        assert ok ==> t.owners[stream] == a;
        assert forall i :: i in s.owners ==> i in t.owners && t.owners[i] == s.owners[i];
        assert Owns(t, b) <==> Owns(s, b) || (ok && b == a);
      }
    }
  }

  lemma RewriteInv(s: State, a: nat, pid: nat)
    requires Inv(s) && a < |s.pids|
    ensures Inv(s.(pids := s.pids[a := pid]))
  {
    var t := s.(pids := s.pids[a := pid]);
    forall b: nat | b < |t.pids| ensures OnePlace(t, b) {
      assert OnePlace(s, b);
      assert Owns(t, b) <==> Owns(s, b);
    }
  }

  lemma NextInv(s: State, step: Step)
    requires Inv(s)
    ensures Inv(Next(s, step))
  {
    match step
    case DoAccept(pid, ok) => AcceptInv(s, pid, ok);
    case DoPeerStream(stream) =>
      if !s.isDown && stream !in s.owners {
        if s.queue != [] { PeerHitInv(s, stream); } else { PeerMissInv(s, stream); }
      }
    case DoLocalStream(stream, pid, ok) => LocalStreamInv(s, stream, pid, ok);
    case DoTransfer(pid) => RewriteInv(s, s.connOwner, pid);
    case DoTransferStream(stream, pid) => if stream in s.owners { RewriteInv(s, s.owners[stream], pid); }
    case DoShutdown => ShutdownInv(s);
    case DoStreamFreed(stream) => StreamFreedInv(s, stream);
    case DoConnFreed => ConnFreedInv(s);
  }

  lemma {:induction false} RunInv(s: State, run: Trace<Step>)
    requires Inv(s)
    ensures Inv(Run(s, run))
  {
    match run
    case Begin =>
    case Then(before, step) => RunInv(s, before); NextInv(Run(s, before), step);
  }

  // ---------------------------------------------------------------- over all runs

  // In every run every record is waiting, owned by one context, or freed, never two of
  // these; no record is freed twice; and no two contexts would free the same one.
  lemma EveryRecordHasOnePlace(pid: nat, run: Trace<Step>, a: nat)
    requires a < |Run(Init(pid), run).pids|
    ensures OnePlace(Run(Init(pid), run), a)
    ensures Unshared(Run(Init(pid), run))
    ensures Distinct(Run(Init(pid), run).freed)
  {
    assert Owns(Init(pid), 0);
    RunInv(Init(pid), run);
  }

  // Once the connection is deallocated, everything allocated has been freed, once.
  lemma NothingLeaks(pid: nat, run: Trace<Step>, a: nat)
    requires Run(Init(pid), run).gone
    ensures a in Run(Init(pid), run).freed <==> a < |Run(Init(pid), run).pids|
    ensures Distinct(Run(Init(pid), run).freed)
  {
    assert Owns(Init(pid), 0);
    RunInv(Init(pid), run);
    assert a < |Run(Init(pid), run).pids| ==> OnePlace(Run(Init(pid), run), a);
  }

  // A peer stream goes to the oldest acceptor not yet taken from the queue. Only when
  // none waits does it get a new record, which names the connection's current owner.
  lemma OldestAcceptorFirst(pid: nat, run: Trace<Step>, stream: nat)
    requires var s := Run(Init(pid), run); !s.isDown && stream !in s.owners
    ensures
      var s := Run(Init(pid), run);
      var t := PeerStream(s, stream);
      && s.left <= s.entered && stream in t.owners
      && if |s.left| < |s.entered| then
           t.owners[stream] == s.entered[|s.left|] && t.left == s.left + [t.owners[stream]] && t.pids == s.pids
         else
           t.owners[stream] !in s.queue && !Owns(s, t.owners[stream]) && t.owners[stream] !in s.freed
           && t.owners[stream] < |t.pids| && t.pids[t.owners[stream]] == s.pids[s.connOwner] && t.left == s.left
  {
    assert Owns(Init(pid), 0);
    RunInv(Init(pid), run);
  }

  // Shutdown tells exactly the acceptors then waiting, each once and in order, frees each,
  // and leaves none waiting.
  lemma ShutdownTellsAll(pid: nat, run: Trace<Step>)
    requires !Run(Init(pid), run).isDown
    ensures
      var s := Run(Init(pid), run);
      var t := Shutdown(s);
      && s.left <= s.entered && t.told == s.entered[|s.left|..] && Distinct(t.told) && t.queue == []
      && forall a :: a in t.told ==> a !in s.freed && a in t.freed
  {
    assert Owns(Init(pid), 0);
    RunInv(Init(pid), run);
    var s := Run(Init(pid), run);
    ShutdownInv(s);
    forall a | a in s.queue ensures a !in s.freed { assert OnePlace(s, a); }
  }

  // A record that entered the queue, and was in time.
  ghost predicate InTime(s: State, a: nat) {
    a < |s.pids| && a in s.entered && (s.isDown ==> a !in s.queue)
  }

  lemma StaysInTime(s: State, step: Step, a: nat)
    requires Inv(s) && InTime(s, a)
    ensures InTime(Next(s, step), a)
  {
  }

  lemma {:induction false} RunInTime(s: State, run: Trace<Step>, a: nat)
    requires Inv(s) && InTime(s, a)
    ensures InTime(Run(s, run), a)
  {
    match run
    case Begin =>
    case Then(before, step) =>
      RunInTime(s, before, a);
      RunInv(s, before);
      StaysInTime(Run(s, before), step, a);
  }

  ghost predicate Forgotten(s: State, a: nat) {
    && s.isDown && a < |s.pids| && a !in s.told
    && (a in s.queue <==> !s.gone)
    && forall i :: i in s.owners ==> s.owners[i] != a
  }

  lemma {:induction false} StaysForgotten(s: State, run: Trace<Step>, a: nat)
    requires Inv(s) && Forgotten(s, a)
    ensures Forgotten(Run(s, run), a)
  {
    match run
    case Begin =>
    case Then(before, step) => StaysForgotten(s, before, a);
  }

  // An acceptor that arrives after the shutdown is queued and never served nor told: it
  // waits until the connection is deallocated, and is freed then.
  lemma LateAcceptorIsForgotten(pid: nat, run: Trace<Step>, late: nat, more: Trace<Step>)
    requires var s := Run(Init(pid), run); s.isDown && !s.gone
    ensures
      var s := Run(Init(pid), run);
      var a := |s.pids|;
      var t := Run(AcceptStream(s, late, true), more);
      && a !in t.told && (forall i :: i in t.owners ==> t.owners[i] != a)
      && (a in t.queue <==> !t.gone) && (a in t.freed <==> t.gone)
  {
    assert Owns(Init(pid), 0);
    RunInv(Init(pid), run);
    var s := Run(Init(pid), run);
    var s' := AcceptStream(s, late, true);
    AcceptInv(s, late, true);
    StaysForgotten(s', more, |s.pids|);
    RunInv(s', more);
    assert OnePlace(Run(s', more), |s.pids|);
  }

  // For any acceptor, while the connection is down and not yet deallocated: it still waits if
  // and only if it came after the shutdown; otherwise it has been taken from the queue, to
  // serve a stream or to be told.
  lemma WaitsForEverIffLate(pid: nat, run: Trace<Step>, waiter: nat, more: Trace<Step>)
    requires !Run(Init(pid), run).gone
    requires var t := Run(AcceptStream(Run(Init(pid), run), waiter, true), more); t.isDown && !t.gone
    ensures
      var s := Run(Init(pid), run);
      var a := |s.pids|;
      var t := Run(AcceptStream(s, waiter, true), more);
      && (a in t.queue <==> s.isDown)
      && (!s.isDown ==> a in t.left)
  {
    assert Owns(Init(pid), 0);
    RunInv(Init(pid), run);
    var s := Run(Init(pid), run);
    var s' := AcceptStream(s, waiter, true);
    AcceptInv(s, waiter, true);
    RunInv(s', more);
    if s.isDown {
      StaysForgotten(s', more, |s.pids|);
    } else {
      RunInTime(s', more, |s.pids|);
    }
  }

  // ---------------------------------------------------------------- the C code

  class QuicerConnCTX {
    var pids: seq<nat>
    var queue: seq<nat>
    const owner: nat
    var owners: map<nat, nat>
    var freed: seq<nat>
    var told: seq<nat>
    var isDown: bool
    var gone: bool
    ghost var entered: seq<nat>
    ghost var left: seq<nat>

    ghost function View(): State
      reads this
    {
      State(pids, queue, owner, owners, freed, told, isDown, gone, entered, left)
    }

    constructor (pid: nat)
      ensures View() == Init(pid)
    {
      pids, queue, owner, owners := [pid], [], 0, map[];
      freed, told, isDown, gone, entered, left := [], [], false, false, [], [];
    }

    method Alloc(pid: nat) returns (a: nat)
      modifies this`pids
      ensures a == old(|pids|) && pids == old(pids) + [pid]
    {
      a := |pids|;
      pids := pids + [pid];
    }

    method Enqueue(a: nat)
      modifies this`queue, this`entered
      ensures queue == old(queue) + [a] && entered == old(entered) + [a]
    {
      queue := queue + [a];
      entered := entered + [a];
    }

    static lemma Regroup(done: seq<nat>, a: nat, rest: seq<nat>)
      ensures done + ([a] + rest) == (done + [a]) + rest
    {
    }

    // -1 stands for NULL
    method Dequeue() returns (a: int)
      modifies this`queue, this`left
      ensures old(queue) == [] ==> a == -1 && queue == [] && left == old(left)
      ensures old(queue) != [] ==> a >= 0 && old(queue) == [a] + queue && left == old(left) + [a]
    {
      a := -1;
      if queue != [] {
        a := queue[0];
        queue := queue[1..];
        left := left + [a];
      }
    }

    method AsyncAcceptStream(pid: nat, ok: bool)
      requires !gone
      modifies this
      ensures View() == AcceptStream(old(View()), pid, ok)
    {
      var a := Alloc(pid);
      if ok {
        Enqueue(a);
      } else {
        freed := freed + [a];
      }
    }

    method AsyncStartStream(stream: nat, pid: nat, ok: bool)
      requires !gone && stream !in owners
      modifies this
      ensures View() == LocalStream(old(View()), stream, pid, ok)
    {
      var a := Alloc(pid);
      owners := owners[stream := a];
      if !ok {
        StreamDealloc(stream);
        assert owners == old(owners);
      }
    }

    method PeerStreamStarted(stream: nat)
      requires !isDown && !gone && stream !in owners && owner < |pids|
      modifies this
      ensures View() == PeerStream(old(View()), stream)
    {
      var acc := Dequeue();
      if acc == -1 {
        acc := Alloc(pids[owner]);
      }
      owners := owners[stream := acc];
    }

    method ShutdownComplete()
      requires !isDown && !gone
      modifies this
      ensures View() == Shutdown(old(View()))
    {
      ghost var done: seq<nat> := [];
      var acc := Dequeue();
      while acc != -1
        invariant acc >= -1 && (acc == -1 ==> queue == [])
        invariant old(queue) == done + (if acc == -1 then [] else [acc]) + queue
        invariant told == old(told) + done && freed == old(freed) + done
        invariant left == old(left) + done + (if acc == -1 then [] else [acc])
        invariant View() == old(View()).(queue := queue, told := told, freed := freed, left := left)
        decreases |queue| + (if acc == -1 then 0 else 1)
      {
        done := done + [acc];
        told := told + [acc];
        freed := freed + [acc];
        acc := Dequeue();
      }
      isDown := true;
    }

    method StreamDealloc(stream: nat)
      requires stream in owners
      modifies this
      ensures View() == StreamFreed(old(View()), stream)
    {
      freed := freed + [owners[stream]];
      owners := owners - {stream};
    }

    method ConnDealloc()
      requires isDown && !gone && owners == map[]
      modifies this
      ensures View() == ConnFreed(old(View()))
    {
      freed := freed + [owner];
      ghost var done: seq<nat> := [];
      while queue != []
        invariant old(queue) == done + queue
        invariant left == old(left) + done && freed == old(freed) + [owner] + done
        invariant View() == old(View()).(queue := queue, freed := freed, left := left)
        decreases |queue|
      {
        var acc := Dequeue();
        Regroup(done, acc, queue);
        done := done + [acc];
        freed := freed + [acc];
      }
      gone := true;
    }
  }
}
