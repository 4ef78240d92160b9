/** That a handoff comes to an end, and with it every message to an owner: the runs of module
    Handoff under endless fair schedules. */
module HandoffEnds {
  import opened Bytes
  import opened RecvMode
  import opened Reassembly
  import opened Messages
  import opened Handoff
  import opened Liveness

  // The moves that the two owners make by themselves, in whatever order they come up.
  function Turns(): seq<Move> {
    [MSetFalse, MForwardNext, MTransfer, MSignal, MRestore, MNewTakesDone, MNewHandles, MOldHandles]
  }

  predicate Able(y: Sys, m: Move) {
    match m
    case MSetFalse => y.phase.GotOpt?
    case MForwardNext => y.phase.Forwarding?
    case MTransfer => y.phase.Forwarded?
    case MSignal => y.phase.Transferred?
    case MRestore => y.phase.Signalled? || y.phase.Failing?
    case MNewTakesDone => y.newAlive && !y.newReady && HandoffDone in y.newMbox
    case MNewHandles => y.newAlive && y.newReady && y.newMbox != []
    case MOldHandles => y.phase.Finished? && y.oldMbox != []
    case _ => false
  }

  // An endless schedule of moves, and the state before its i-th.
  function At(y: Sys, sched: nat -> Move, i: nat): Sys {
    if i == 0 then y else Next(At(y, sched, i - 1), sched(i - 1))
  }

  // The schedule comes, from i on, to a point j at which m is not possible or is made.
  ghost predicate Serves(y: Sys, sched: nat -> Move, m: Move, j: nat) {
    !Able(At(y, sched, j), m) || sched(j) == m
  }

  ghost predicate Served(y: Sys, sched: nat -> Move, m: Move, i: nat) {
    exists j :: i <= j && Serves(y, sched, m, j)
  }

  // No move of an owner stays possible for ever without being made.
  ghost predicate Fair(y: Sys, sched: nat -> Move) {
    forall m, i: nat :: m in Turns() ==> Served(y, sched, m, i)
  }

  // From n on, MsQuic shows no more data and reports no other event.
  ghost predicate QuietFrom(sched: nat -> Move, n: nat) {
    forall i :: n <= i ==> !sched(i).MCallback? && !sched(i).MOtherEvent?
  }

  // Such schedules exist: all the moves in turn, for one.
  lemma RoundRobinIsFair(y: Sys, sched: nat -> Move)
    requires forall n :: sched(n) == Turns()[n % 8]
    ensures Fair(y, sched) && QuietFrom(sched, 0)
  {
    forall m, i: nat | m in Turns() ensures Served(y, sched, m, i) {
      var c: nat :| c < 8 && Turns()[c] == m;
      var j := 8 * i + c;
      assert j % 8 == c;
      assert Serves(y, sched, m, j);
    }
  }

  // ---------------------------------------------------------------- getting closer

  // A live new owner will find `handoff_done`.
  predicate Signals(y: Sys) {
    y.newAlive && (y.phase.Signalled? || y.phase.Finished?) ==> y.newReady || HandoffDone in y.newMbox
  }

  // The handoff is over and nobody who lives has a message left.
  predicate Over(y: Sys) {
    y.phase.Finished? && y.oldMbox == [] && (y.newAlive ==> y.newReady && y.newMbox == [])
  }

  function Awaited(y: Sys): Move {
    match y.phase
    case Working => MGetOpt
    case GotOpt(_) => MSetFalse
    case Forwarding(_) => MForwardNext
    case Forwarded(_) => MTransfer
    case Transferred(_) => MSignal
    case Signalled(_) => MRestore
    case Failing(_) => MRestore
    case Finished(_) =>
      if y.newAlive && !y.newReady then MNewTakesDone
      else if y.newAlive && y.newMbox != [] then MNewHandles
      else MOldHandles
  }

  lemma AwaitedIsPossible(y: Sys)
    requires Signals(y) && !y.phase.Working? && !Over(y)
    ensures Able(y, Awaited(y)) && Awaited(y) in Turns()
  {
  }

  function StepsLeft(p: Phase): nat {
    match p
    case Working => 6
    case GotOpt(_) => 5
    case Forwarding(_) => 4
    case Forwarded(_) => 3
    case Transferred(_) => 2
    case Signalled(_) => 1
    case Failing(_) => 1
    case Finished(_) => 0
  }

  // Lower when further in handoff_stream, or with a process fewer, or fewer messages.
  function RankOf(y: Sys): Rank {
    Rank(StepsLeft(y.phase), if y.newAlive then 1 else 0, if y.newReady then 0 else 1, |y.oldMbox|, |y.newMbox|)
  }

  // Only the stream underneath changes.
  predicate StandsStill(y: Sys, z: Sys) {
    z == y.(st := z.st)
  }

  lemma PhaseMoveGetsCloser(y: Sys, m: Move)
    requires m in [MSetFalse, MTransfer, MSignal, MRestore] && !y.phase.Working?
    ensures if Able(y, m) then Below(RankOf(Next(y, m)), RankOf(y)) else StandsStill(y, Next(y, m))
  {
  }

  lemma ForwardGetsCloser(y: Sys)
    requires !y.phase.Working?
    ensures var z := ForwardNext(y);
            if y.phase.Forwarding? then Below(RankOf(z), RankOf(y)) else StandsStill(y, z)
  {
    if y.phase.Forwarding? && y.oldMbox != [] && y.oldMbox[0] != Down {
      ForwardSpec(y);
    }
  }

  lemma MailMoveGetsCloser(y: Sys, m: Move)
    requires m in [MNewTakesDone, MNewHandles, MOldHandles] && !y.phase.Working?
    ensures if Able(y, m) then Below(RankOf(Next(y, m)), RankOf(y)) else StandsStill(y, Next(y, m))
  {
  }

  lemma OwnMoveGetsCloser(y: Sys, m: Move)
    requires m in Turns() && !y.phase.Working?
    ensures if Able(y, m) then Below(RankOf(Next(y, m)), RankOf(y)) else StandsStill(y, Next(y, m))
  {
    if m == MForwardNext {
      ForwardGetsCloser(y);
    } else if m in [MNewTakesDone, MNewHandles, MOldHandles] {
      MailMoveGetsCloser(y, m);
    } else {
      PhaseMoveGetsCloser(y, m);
    }
  }

  lemma OtherMoveIsHarmless(y: Sys, m: Move)
    requires m !in Turns() && !m.MCallback? && !m.MOtherEvent? && !y.phase.Working?
    ensures Below(RankOf(Next(y, m)), RankOf(y)) || StandsStill(y, Next(y, m))
  {
  }

  lemma SignalsStays(y: Sys, m: Move)
    requires PhaseInv(y) && Signals(y)
    ensures Signals(Next(y, m))
  {
    if m.MSignal? && y.phase.Transferred? && y.newAlive {
      assert HandoffDone in y.newMbox + [HandoffDone];
    }
  }

  lemma LeftBehind(y: Sys, m: Move)
    requires !y.phase.Working?
    ensures !Next(y, m).phase.Working?
  {
  }

  // ---------------------------------------------------------------- the theorem

  ghost predicate Sound(y: Sys, base: nat) {
    HandoffInv(y) && Signals(y) && y.base == base
  }

  lemma StaysSound(y: Sys, m: Move, base: nat)
    requires Sound(y, base)
    ensures Sound(Next(y, m), base)
  {
    NextKeeps(y, m);
    SignalsStays(y, m);
    NextBase(y, m);
  }

  lemma {:induction false} AtInv(y: Sys, sched: nat -> Move, i: nat)
    requires Start(y)
    ensures Sound(At(y, sched, i), y.base)
  {
    if i == 0 {
      StartInv(y);
    } else {
      AtInv(y, sched, i - 1);
      StaysSound(At(y, sched, i - 1), sched(i - 1), y.base);
    }
  }

  lemma {:induction false} StaysBegun(y: Sys, sched: nat -> Move, i: nat, j: nat)
    requires i <= j && !At(y, sched, i).phase.Working?
    ensures !At(y, sched, j).phase.Working?
  {
    if i < j {
      StaysBegun(y, sched, i, j - 1);
      LeftBehind(At(y, sched, j - 1), sched(j - 1));
    }
  }

  // What module Liveness asks of a step,
  lemma OneStep(y: Sys, sched: nat -> Move, i: nat)
    requires Start(y) && !At(y, sched, i).phase.Working? && !sched(i).MCallback? && !sched(i).MOtherEvent?
    ensures var a, z := At(y, sched, i), At(y, sched, i + 1);
            || Over(a) || Below(RankOf(z), RankOf(a))
            || (RankOf(z) == RankOf(a) && !Serves(y, sched, Awaited(a), i) && Awaited(z) == Awaited(a))
  {
    var a := At(y, sched, i);
    if !Over(a) {
      AtInv(y, sched, i);
      AwaitedIsPossible(a);
      if sched(i) in Turns() {
        OwnMoveGetsCloser(a, sched(i));
      } else {
        OtherMoveIsHarmless(a, sched(i));
      }
    }
  }

  // and of the schedule.
  lemma Answer(y: Sys, sched: nat -> Move, i: nat)
    requires Start(y) && Fair(y, sched) && !At(y, sched, i).phase.Working?
    ensures Over(At(y, sched, i)) || Served(y, sched, Awaited(At(y, sched, i)), i)
  {
    if !Over(At(y, sched, i)) {
      AtInv(y, sched, i);
      AwaitedIsPossible(At(y, sched, i));
    }
  }

  ghost function RankAt(y: Sys, sched: nat -> Move): nat -> Rank {
    (n: nat) => RankOf(At(y, sched, n))
  }

  ghost function OverAt(y: Sys, sched: nat -> Move): nat -> bool {
    (n: nat) => Over(At(y, sched, n))
  }

  ghost function DoneAt(y: Sys, sched: nat -> Move): (nat, nat) -> bool {
    (n: nat, j: nat) => Serves(y, sched, Awaited(At(y, sched, n)), j)
  }

  lemma StepProceeds(y: Sys, sched: nat -> Move, i: nat)
    requires Start(y) && !At(y, sched, i).phase.Working? && !sched(i).MCallback? && !sched(i).MOtherEvent?
    ensures Proceeds(RankAt(y, sched), OverAt(y, sched), DoneAt(y, sched), i)
  {
    OneStep(y, sched, i);
  }

  lemma StepAnswered(y: Sys, sched: nat -> Move, i: nat)
    requires Start(y) && Fair(y, sched) && !At(y, sched, i).phase.Working?
    ensures Answered(OverAt(y, sched), DoneAt(y, sched), i)
  {
    Answer(y, sched, i);
    if !OverAt(y, sched)(i) {
      var j :| i <= j && Serves(y, sched, Awaited(At(y, sched, i)), j);
      assert DoneAt(y, sched)(i, j);
    }
  }

  lemma SomeTimeOver(y: Sys, sched: nat -> Move, i: nat) returns (k: nat)
    requires Start(y) && Fair(y, sched) && QuietFrom(sched, i) && !At(y, sched, i).phase.Working?
    ensures i <= k && Over(At(y, sched, k))
  {
    var rank, over, done := RankAt(y, sched), OverAt(y, sched), DoneAt(y, sched);
    forall n: nat | i <= n ensures Proceeds(rank, over, done, n) && Answered(over, done, n) {
      StaysBegun(y, sched, i, n);
      StepProceeds(y, sched, n);
      StepAnswered(y, sched, n);
    }
    k := Ends(rank, over, done, i);
  }

  // Everything sent has been handled: by the old owner up to the handoff and by the new one
  // after it; or, if the new owner died before it had the stream, by the old owner, except
  // for what was lost.
  ghost predicate AllHandled(z: Sys, base: nat) {
    && (z.newAlive ==>
          && z.phase == Finished(true) && z.sent == z.oldHandled + z.newHandled
          && base <= z.st.consumed <= |z.st.rx|
          && AppBytes(z.oldHandled) + AppBytes(z.newHandled) == z.st.rx[base..z.st.consumed])
    && (!z.newAlive && z.pid == Old ==> z.sent == z.oldHandled + z.lost + z.resumed)
  }

  lemma LiveAllHandled(z: Sys)
    requires HandoffInv(z) && Over(z) && z.newAlive
    ensures AllHandled(z, z.base)
  {
    var all := z.st.rx[..z.st.consumed];
    FlatSix(z.oldHandled, z.newHandled, [], [], [], []);
    var both := z.oldHandled + z.newHandled;
    assert both + [] + [] + [] + [] == both;
    ConsecutiveBytes(both, all, z.base);
    AppBytesConcat(z.oldHandled, z.newHandled);
    assert all[z.base..] == z.st.rx[z.base..z.st.consumed];
  }

  lemma DeadAllHandled(z: Sys)
    requires HandoffInv(z) && Over(z) && !z.newAlive
    ensures AllHandled(z, z.base)
  {
    if z.pid == Old {
      FlatSix(z.oldHandled, [], [], z.lost, z.resumed, []);
      assert z.oldHandled + [] + [] + z.lost + z.resumed + [] == z.oldHandled + z.lost + z.resumed;
    }
  }

  // Under every fair schedule in which MsQuic reports only finitely many events: a handoff
  // that has begun ends, whether the new owner lives or dies, and every message sent is
  // handled. A new owner that lives gets, together with the old one, exactly the bytes
  // consumed.
  lemma HandoffEnds(y: Sys, sched: nat -> Move, i: nat, n: nat) returns (k: nat)
    requires Start(y) && Fair(y, sched) && QuietFrom(sched, n)
    requires !At(y, sched, i).phase.Working?
    ensures i <= k && n <= k && Over(At(y, sched, k)) && AllHandled(At(y, sched, k), y.base)
  {
    var m := if i < n then n else i;
    StaysBegun(y, sched, i, m);
    k := SomeTimeOver(y, sched, m);
    AtInv(y, sched, k);
    if At(y, sched, k).newAlive {
      LiveAllHandled(At(y, sched, k));
    } else {
      DeadAllHandled(At(y, sched, k));
    }
  }
}
