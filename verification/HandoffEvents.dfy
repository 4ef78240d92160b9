/** What else a handoff does, over the runs of module Handoff: the stream events that carry no
    data, and the result of the call. */
module HandoffEvents {
  import opened Handoff
  import R = Receive
  import opened Runs

  // ---------------------------------------------------------------- the events

  // How often the event `id` is this message, and how often it is in a mailbox.
  function Is(m: Msg, id: nat): nat {
    if m == Event(id) then 1 else 0
  }

  function Count(ms: seq<Msg>, id: nat): nat {
    if ms == [] then 0 else Is(ms[0], id) + Count(ms[1..], id)
  }

  lemma {:induction false} CountConcat(a: seq<Msg>, b: seq<Msg>, id: nat)
    ensures Count(a + b, id) == Count(a, id) + Count(b, id)
  {
    if a == [] {
      assert a + b == b;
    } else {
      assert (a + b)[1..] == a[1..] + b;
      CountConcat(a[1..], b, id);
    }
  }

  lemma CountSnoc(ms: seq<Msg>, m: Msg, id: nat)
    ensures Count(ms + [m], id) == Count(ms, id) + Is(m, id)
  {
    CountConcat(ms, [m], id);
    assert [m][1..] == [];
  }

  lemma {:induction false} NoEvents(ms: seq<Msg>, id: nat)
    requires forall m :: m in ms ==> !m.Event?
    ensures Count(ms, id) == 0
  {
    if ms != [] {
      assert ms[0] in ms;
      NoEvents(ms[1..], id);
    }
  }

  lemma {:induction false} CountWithoutDone(ms: seq<Msg>, id: nat)
    ensures Count(RemoveFirst(ms, HandoffDone), id) == Count(ms, id)
  {
    if ms != [] && ms[0] != HandoffDone {
      CountWithoutDone(ms[1..], id);
      assert ([ms[0]] + RemoveFirst(ms[1..], HandoffDone))[1..] == RemoveFirst(ms[1..], HandoffDone);
    }
  }

  // How often a move sends the event, takes it out of a mailbox to be handled, or loses it
  // with a dead new owner.
  function SentBy(m: Move, id: nat): nat {
    if m == MOtherEvent(id) then 1 else 0
  }

  function HandledBy(y: Sys, m: Move, id: nat): nat {
    if m.MOldHandles? && |Next(y, m).oldMbox| < |y.oldMbox| then Is(y.oldMbox[0], id)
    else if m.MNewHandles? && |Next(y, m).newMbox| < |y.newMbox| then Is(y.newMbox[0], id)
    else 0
  }

  function LostBy(y: Sys, m: Move, id: nat): nat {
    match m
    case MNewDies => if y.newAlive then Count(y.newMbox, id) else 0
    case MOtherEvent(e) => if y.pid == New && !y.newAlive && e == id then 1 else 0
    case MForwardNext => if y.phase.Forwarding? && y.oldMbox != [] && !y.newAlive then Is(y.oldMbox[0], id) else 0
    case _ => 0
  }

  datatype Account = Account(sent: nat, handled: nat, lost: nat)

  function Books(y: Sys, ms: Trace<Move>, id: nat): Account {
    match ms
    case Begin => Account(Count(y.oldMbox, id), 0, 0)
    case Then(before, m) =>
      var a, p := Books(y, before, id), Play(y, before);
      Account(a.sent + SentBy(m, id), a.handled + HandledBy(p, m, id), a.lost + LostBy(p, m, id))
  }

  // In the two mailboxes.
  function Waiting(z: Sys, id: nat): nat {
    Count(z.oldMbox, id) + Count(z.newMbox, id)
  }

  lemma SendKeeps(y: Sys, ms: seq<Msg>, id: nat)
    ensures var z := Send(y, ms);
            Waiting(z, id) == Waiting(y, id) + if y.pid == Old || y.newAlive then Count(ms, id) else 0
  {
    CountConcat(y.oldMbox, ms, id);
    CountConcat(y.newMbox, ms, id);
  }

  lemma CallbackKeeps(y: Sys, n: nat, flags: nat, id: nat)
    ensures Waiting(Callback(y, n, flags), id) == Waiting(y, id)
  {
    var r := R.Step(y.st, R.Indicate(n, flags));
    var ms := Wrap(r.out);
    NoEvents(ms, id);
    SendKeeps(y.(st := r.s, sent := y.sent + Datas(ms)), ms, id);
  }

  lemma EventIsSent(y: Sys, e: nat, id: nat)
    requires PhaseInv(y)
    ensures var m := MOtherEvent(e);
            Waiting(y, id) + SentBy(m, id) == Waiting(Next(y, m), id) + LostBy(y, m, id)
  {
    CountSnoc([], Event(e), id);
    assert [] + [Event(e)] == [Event(e)];
    SendKeeps(y, [Event(e)], id);
  }

  lemma ForwardKeeps(y: Sys, id: nat)
    ensures Waiting(y, id) == Waiting(ForwardNext(y), id) + LostBy(y, MForwardNext, id)
  {
    if y.phase.Forwarding? && y.oldMbox != [] {
      CountSnoc(y.newMbox, y.oldMbox[0], id);
    }
  }

  lemma HandlingTakes(y: Sys, m: Move, id: nat)
    requires m.MOldHandles? || m.MNewHandles?
    ensures Waiting(y, id) == Waiting(Next(y, m), id) + HandledBy(y, m, id)
  {
  }

  lemma OwnersKeep(y: Sys, m: Move, id: nat)
    requires m.MSetFalse? || m.MTransfer? || m.MSignal? || m.MRestore? || m.MNewTakesDone?
    ensures Waiting(Next(y, m), id) == Waiting(y, id)
  {
    CountSnoc(y.oldMbox, Down, id);
    CountSnoc(y.newMbox, HandoffDone, id);
    CountWithoutDone(y.newMbox, id);
  }

  lemma DeathLoses(y: Sys, id: nat)
    ensures Waiting(y, id) == Waiting(NewDies(y), id) + LostBy(y, MNewDies, id)
  {
    CountSnoc(y.oldMbox, Down, id);
  }

  lemma StepBalances(y: Sys, m: Move, id: nat)
    requires PhaseInv(y)
    ensures Waiting(y, id) + SentBy(m, id) == Waiting(Next(y, m), id) + HandledBy(y, m, id) + LostBy(y, m, id)
  {
    match m
    case MCallback(n, flags) => CallbackKeeps(y, n, flags, id);
    case MOtherEvent(e) => EventIsSent(y, e, id);
    case MForwardNext => ForwardKeeps(y, id);
    case MOldHandles => HandlingTakes(y, m, id);
    case MNewHandles => HandlingTakes(y, m, id);
    case MNewDies => DeathLoses(y, id);
    case MSetFalse => OwnersKeep(y, m, id);
    case MTransfer => OwnersKeep(y, m, id);
    case MSignal => OwnersKeep(y, m, id);
    case MRestore => OwnersKeep(y, m, id);
    case MNewTakesDone => OwnersKeep(y, m, id);
    case _ =>
  }

  lemma DeathIsFinal(y: Sys, m: Move, id: nat)
    ensures Next(y, m).newAlive ==> y.newAlive && LostBy(y, m, id) == 0
  {
  }

  // What is sent is handled, waits, or is lost; and nothing is lost while the new owner lives.
  predicate Balanced(a: Account, z: Sys, id: nat) {
    a.sent == a.handled + a.lost + Waiting(z, id) && (z.newAlive ==> a.lost == 0)
  }

  // In every interleaving no event vanishes or comes twice: each one has been handled, waits
  // in one of the mailboxes, or was lost with a dead new owner.
  lemma {:induction false} NoEventVanishes(y: Sys, ms: Trace<Move>, id: nat)
    requires Start(y)
    ensures Balanced(Books(y, ms, id), Play(y, ms), id)
  {
    if ms.Then? {
      NoEventVanishes(y, ms.before, id);
      StartInv(y);
      PlayInv(y, ms.before);
      StepBalances(Play(y, ms.before), ms.step, id);
      DeathIsFinal(Play(y, ms.before), ms.step, id);
    }
  }

  // ---------------------------------------------------------------- the result

  // do_forward_stream_msgs comes across the DOWN message.
  predicate FindsDown(y: Sys, m: Move) {
    m.MForwardNext? && y.phase.Forwarding? && y.oldMbox != [] && y.oldMbox[0] == Down
  }

  predicate FoundDown(y: Sys, ms: Trace<Move>) {
    ms.Then? && (FoundDown(y, ms.before) || FindsDown(Play(y, ms.before), ms.step))
  }

  // Where the call is, given whether it has found DOWN.
  predicate Consistent(z: Sys, found: bool) {
    match z.phase
    case Failing(_) => found
    case Finished(ok) => ok <==> !found
    case _ => !found
  }

  lemma StepConsistent(y: Sys, m: Move, found: bool)
    requires Consistent(y, found)
    ensures Consistent(Next(y, m), found || FindsDown(y, m))
  {
  }

  // handoff_stream returns `ok` if and only if it has not found the new owner dead while it
  // forwarded.
  lemma {:induction false} OkIffDownNotFound(y: Sys, ms: Trace<Move>)
    requires Start(y)
    ensures Consistent(Play(y, ms), FoundDown(y, ms))
  {
    if ms.Then? {
      OkIffDownNotFound(y, ms.before);
      StepConsistent(Play(y, ms.before), ms.step, FoundDown(y, ms.before));
    }
  }
}
