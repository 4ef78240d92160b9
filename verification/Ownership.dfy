/** Who gets which stream, by process: the records of module Acceptors behave like a plain
    queue of process ids and one id per stream. */
module Ownership {
  import opened Runs
  import opened Acceptors

  // The same connection without records.
  datatype Simple = Simple(
    owner: nat,                // the connection's owner
    waiting: seq<nat>,         // processes that wait for a stream
    streams: map<nat, nat>,    // the owner of each stream
    told: seq<nat>,            // processes told that the connection is closed
    isDown: bool,
    gone: bool)

  function Stepped(x: Simple, step: Step): Simple {
    match step
    case DoAccept(pid, ok) => if x.gone || !ok then x else x.(waiting := x.waiting + [pid])
    case DoPeerStream(stream) =>
      if x.isDown || stream in x.streams then x
      else if x.waiting == [] then x.(streams := x.streams[stream := x.owner])
      else x.(streams := x.streams[stream := x.waiting[0]], waiting := x.waiting[1..])
    case DoLocalStream(stream, pid, ok) =>
      if x.gone || !ok || stream in x.streams then x else x.(streams := x.streams[stream := pid])
    case DoTransfer(pid) => if x.gone then x else x.(owner := pid)
    case DoTransferStream(stream, pid) => if stream in x.streams then x.(streams := x.streams[stream := pid]) else x
    case DoShutdown => if x.isDown then x else x.(told := x.told + x.waiting, waiting := [], isDown := true)
    case DoStreamFreed(stream) => x.(streams := x.streams - {stream})
    case DoConnFreed => if x.isDown && x.streams == map[] then x.(waiting := [], gone := true) else x
  }

  function Behaves(pid: nat, run: Trace<Step>): Simple {
    match run
    case Begin => Simple(pid, [], map[], [], false, false)
    case Then(before, step) => Stepped(Behaves(pid, before), step)
  }

  // ---------------------------------------------------------------- pids of records

  // acc->Pid of a record
  function PidOf(pids: seq<nat>, a: nat): nat {
    if a < |pids| then pids[a] else 0
  }

  function Pids(pids: seq<nat>, records: seq<nat>): seq<nat> {
    seq(|records|, i requires 0 <= i < |records| => PidOf(pids, records[i]))
  }

  function PidsOfStreams(pids: seq<nat>, owners: map<nat, nat>): map<nat, nat> {
    map i | i in owners :: PidOf(pids, owners[i])
  }

  ghost function Plain(s: State): Simple
    requires Inv(s)
  {
    Simple(PidOf(s.pids, s.connOwner), Pids(s.pids, s.queue), PidsOfStreams(s.pids, s.owners), Pids(s.pids, s.told),
           s.isDown, s.gone)
  }

  // A record that a list does not hold may change, and records may be added.
  lemma PidsKept(pids: seq<nat>, pids': seq<nat>, records: seq<nat>)
    requires forall a :: a in records ==> PidOf(pids', a) == PidOf(pids, a)
    ensures Pids(pids', records) == Pids(pids, records)
  {
  }

  lemma PidsConcat(pids: seq<nat>, a: seq<nat>, b: seq<nat>)
    ensures Pids(pids, a + b) == Pids(pids, a) + Pids(pids, b)
  {
  }

  lemma PidsTail(pids: seq<nat>, a: seq<nat>)
    requires a != []
    ensures Pids(pids, a)[0] == PidOf(pids, a[0]) && Pids(pids, a)[1..] == Pids(pids, a[1..])
  {
  }

  lemma StreamsKept(pids: seq<nat>, pids': seq<nat>, owners: map<nat, nat>)
    requires forall i :: i in owners ==> PidOf(pids', owners[i]) == PidOf(pids, owners[i])
    ensures PidsOfStreams(pids', owners) == PidsOfStreams(pids, owners)
  {
  }

  lemma StreamAdded(pids: seq<nat>, owners: map<nat, nat>, stream: nat, a: nat)
    ensures PidsOfStreams(pids, owners[stream := a]) == PidsOfStreams(pids, owners)[stream := PidOf(pids, a)]
  {
  }

  lemma StreamRemoved(pids: seq<nat>, owners: map<nat, nat>, stream: nat)
    ensures PidsOfStreams(pids, owners - {stream}) == PidsOfStreams(pids, owners) - {stream}
    ensures PidsOfStreams(pids, owners) == map[] <==> owners == map[]
  {
    assert PidsOfStreams(pids, owners).Keys == owners.Keys;
  }

  lemma StreamRewritten(pids: seq<nat>, owners: map<nat, nat>, stream: nat, pid: nat)
    requires stream in owners && owners[stream] < |pids|
    requires forall i :: i in owners && i != stream ==> owners[i] != owners[stream]
    ensures PidsOfStreams(pids[owners[stream] := pid], owners) == PidsOfStreams(pids, owners)[stream := pid]
  {
  }

  // Records that are waiting or told belong to no context.
  lemma NotOwned(s: State, a: nat)
    requires Inv(s) && (a in s.queue || a in s.told)
    ensures !Owns(s, a) && a < |s.pids|
  {
    assert OnePlace(s, a);
  }

  // ---------------------------------------------------------------- every step

  ghost predicate Follows(s: State, step: Step)
    requires Inv(s)
  {
    Inv(Next(s, step)) && Plain(Next(s, step)) == Stepped(Plain(s), step)
  }

  // More records leave the others as they were.
  lemma AddedPid(s: State, pid: nat)
    requires Inv(s)
    ensures var pids := s.pids + [pid];
            && Pids(pids, s.queue) == Pids(s.pids, s.queue) && Pids(pids, s.told) == Pids(s.pids, s.told)
            && PidsOfStreams(pids, s.owners) == PidsOfStreams(s.pids, s.owners)
            && PidOf(pids, s.connOwner) == PidOf(s.pids, s.connOwner) && PidOf(pids, |s.pids|) == pid
  {
    var pids := s.pids + [pid];
    forall a | a in s.told ensures a < |s.pids| { NotOwned(s, a); }
    PidsKept(s.pids, pids, s.queue);
    PidsKept(s.pids, pids, s.told);
    StreamsKept(s.pids, pids, s.owners);
  }

  // Rewriting an owner's record leaves the waiting and the told as they were.
  lemma RewrittenPid(s: State, a: nat, pid: nat)
    requires Inv(s) && Owns(s, a) && a < |s.pids|
    ensures var pids := s.pids[a := pid];
            Pids(pids, s.queue) == Pids(s.pids, s.queue) && Pids(pids, s.told) == Pids(s.pids, s.told)
  {
    var pids := s.pids[a := pid];
    forall b | b in s.queue || b in s.told ensures b != a && b < |s.pids| { NotOwned(s, b); }
    PidsKept(s.pids, pids, s.queue);
    PidsKept(s.pids, pids, s.told);
  }

  lemma AcceptFollows(s: State, pid: nat, ok: bool)
    requires Inv(s)
    ensures Follows(s, DoAccept(pid, ok))
  {
    NextInv(s, DoAccept(pid, ok));
    if !s.gone {
      AddedPid(s, pid);
      if ok {
        var pids := s.pids + [pid];
        PidsConcat(pids, s.queue, [|s.pids|]);
      }
    }
  }

  lemma PeerFollows(s: State, stream: nat)
    requires Inv(s)
    ensures Follows(s, DoPeerStream(stream))
  {
    NextInv(s, DoPeerStream(stream));
    if !s.isDown && stream !in s.owners {
      if s.queue != [] {
        PidsTail(s.pids, s.queue);
        StreamAdded(s.pids, s.owners, stream, s.queue[0]);
      } else {
        AddedPid(s, s.pids[s.connOwner]);
        StreamAdded(s.pids + [s.pids[s.connOwner]], s.owners, stream, |s.pids|);
      }
    }
  }

  lemma LocalFollows(s: State, stream: nat, pid: nat, ok: bool)
    requires Inv(s)
    ensures Follows(s, DoLocalStream(stream, pid, ok))
  {
    NextInv(s, DoLocalStream(stream, pid, ok));
    AddedPid(s, pid);
    StreamAdded(s.pids + [pid], s.owners, stream, |s.pids|);
  }

  lemma TransferFollows(s: State, pid: nat)
    requires Inv(s)
    ensures Follows(s, DoTransfer(pid))
  {
    NextInv(s, DoTransfer(pid));
    if !s.gone {
      assert Owns(s, s.connOwner);
      RewrittenPid(s, s.connOwner, pid);
      StreamsKept(s.pids, s.pids[s.connOwner := pid], s.owners);
    }
  }

  lemma TransferStreamFollows(s: State, stream: nat, pid: nat)
    requires Inv(s)
    ensures Follows(s, DoTransferStream(stream, pid))
  {
    NextInv(s, DoTransferStream(stream, pid));
    if stream in s.owners {
      var a := s.owners[stream];
      assert Owns(s, a);
      RewrittenPid(s, a, pid);
      StreamRewritten(s.pids, s.owners, stream, pid);
    }
  }

  lemma ShutdownFollows(s: State)
    requires Inv(s)
    ensures Follows(s, DoShutdown)
  {
    NextInv(s, DoShutdown);
    if !s.isDown && !s.gone {
      PidsConcat(s.pids, s.told, s.queue);
    }
  }

  lemma StreamFreedFollows(s: State, stream: nat)
    requires Inv(s)
    ensures Follows(s, DoStreamFreed(stream))
  {
    NextInv(s, DoStreamFreed(stream));
    StreamRemoved(s.pids, s.owners, stream);
    if stream !in s.owners {
      assert s.owners - {stream} == s.owners;
    }
  }

  lemma ConnFreedFollows(s: State)
    requires Inv(s)
    ensures Follows(s, DoConnFreed)
  {
    NextInv(s, DoConnFreed);
    StreamRemoved(s.pids, s.owners, 0);
    assert s.queue == [] ==> Pids(s.pids, s.queue) == [];
  }

  lemma StepFollows(s: State, step: Step)
    requires Inv(s)
    ensures Follows(s, step)
  {
    match step
    case DoAccept(pid, ok) => AcceptFollows(s, pid, ok);
    case DoPeerStream(stream) => PeerFollows(s, stream);
    case DoLocalStream(stream, pid, ok) => LocalFollows(s, stream, pid, ok);
    case DoTransfer(pid) => TransferFollows(s, pid);
    case DoTransferStream(stream, pid) => TransferStreamFollows(s, stream, pid);
    case DoShutdown => ShutdownFollows(s);
    case DoStreamFreed(stream) => StreamFreedFollows(s, stream);
    case DoConnFreed => ConnFreedFollows(s);
  }

  // ---------------------------------------------------------------- over all runs

  // Over every run the records, moved, copied, rewritten and freed, behave like the plain
  // process ids: each waiting process, each stream's owner, the connection's owner and those
  // told are what the calls alone say.
  lemma {:induction false} RecordsArePids(pid: nat, run: Trace<Step>)
    ensures Inv(Run(Init(pid), run)) && Plain(Run(Init(pid), run)) == Behaves(pid, run)
  {
    if run.Begin? {
      assert Owns(Init(pid), 0);
      StreamRemoved([pid], map[], 0);
    } else {
      RecordsArePids(pid, run.before);
      StepFollows(Run(Init(pid), run.before), run.step);
    }
  }

  // The processes whose accept calls have succeeded, in order.
  function Callers(run: Trace<Step>): seq<nat> {
    match run
    case Begin => []
    case Then(before, step) => if step.DoAccept? && step.ok then Callers(before) + [step.pid] else Callers(before)
  }

  lemma StepWaits(s: State, step: Step, callers: seq<nat>)
    requires Inv(s) && !Next(s, step).gone && |s.entered| == |callers| && Plain(s).waiting == callers[|s.left|..]
    ensures var callers' := if step.DoAccept? && step.ok then callers + [step.pid] else callers;
            var t := Next(s, step);
            && |t.left| <= |t.entered| == |callers'|
            && Stepped(Plain(s), step).waiting == callers'[|t.left|..]
  {
    NextInv(s, step);
    if step.DoAccept? && step.ok {
      assert callers[|s.left|..] + [step.pid] == (callers + [step.pid])[|s.left|..];
    }
  }

  // Until deallocation, those that wait are the latest callers, from the first that has not
  // been taken from the queue on. So the streams given to waiting processes, and after them
  // the reports of the shutdown, go to the callers in the order of their calls.
  lemma {:induction false} CallersInOrder(pid: nat, run: Trace<Step>)
    requires !Run(Init(pid), run).gone
    ensures var s := Run(Init(pid), run);
            && |s.left| <= |s.entered| == |Callers(run)|
            && Behaves(pid, run).waiting == Callers(run)[|s.left|..]
  {
    if run.Then? {
      RecordsArePids(pid, run.before);
      CallersInOrder(pid, run.before);
      StepWaits(Run(Init(pid), run.before), run.step, Callers(run.before));
    }
  }

  // The next peer stream belongs to the next caller, or to the connection's owner if none
  // is left.
  lemma StreamGoesToCaller(pid: nat, run: Trace<Step>, stream: nat)
    requires var s := Run(Init(pid), run); !s.isDown && !s.gone && stream !in s.owners
    ensures
      var s, t := Run(Init(pid), run), Run(Init(pid), Then(run, DoPeerStream(stream)));
      && stream in t.owners && t.owners[stream] < |t.pids|
      && t.pids[t.owners[stream]] ==
         if |s.left| < |Callers(run)| then Callers(run)[|s.left|] else Behaves(pid, run).owner
  {
    RecordsArePids(pid, run);
    CallersInOrder(pid, run);
    RecordsArePids(pid, Then(run, DoPeerStream(stream)));
    var t := Run(Init(pid), Then(run, DoPeerStream(stream)));
    assert Plain(t).streams[stream] == PidOf(t.pids, t.owners[stream]);
  }
}
