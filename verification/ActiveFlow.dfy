/** Whether data keeps flowing on a stream in an active mode: under endless fair schedules in
    which MsQuic shows bytes while receiving is enabled, and when it is not. */
module ActiveFlow {
  import opened Bytes
  import opened Liveness
  import opened RecvMode
  import opened Receive
  import opened Runs

  // The first n operations of a schedule.
  function Upto(sched: nat -> Op, n: nat): Trace<Op> {
    if n == 0 then Begin else Then(Upto(sched, n - 1), sched(n - 1))
  }

  function At(s: State, sched: nat -> Op, n: nat): Result {
    Run(s, Upto(sched, n))
  }

  // MsQuic has bytes that it may show.
  predicate CanShow(s: State) {
    s.enabled && s.lent == 0 && s.consumed < |s.rx|
  }

  ghost predicate Serves(s: State, sched: nat -> Op, j: nat) {
    !CanShow(At(s, sched, j).s) || Shows(At(s, sched, j).s, sched(j))
  }

  ghost predicate Served(s: State, sched: nat -> Op, i: nat) {
    exists j :: i <= j && Serves(s, sched, j)
  }

  // Bytes that may be shown do not stay so for ever.
  ghost predicate Fair(s: State, sched: nat -> Op) {
    forall i: nat :: Served(s, sched, i)
  }

  ghost predicate NeverSets(sched: nat -> Op) {
    forall n :: !sched(n).SetActive?
  }

  // Such schedules exist: MsQuic shows a byte whenever it can.
  lemma EagerIsFair(s: State, sched: nat -> Op)
    requires forall n :: sched(n) == Indicate(1, 0)
    ensures Fair(s, sched) && NeverSets(sched)
  {
    forall i: nat ensures Served(s, sched, i) {
      assert Serves(s, sched, i);
    }
  }

  // ---------------------------------------------------------------- enabled

  // In an active mode nothing is on loan, and receiving is enabled.
  predicate Flowing(s: State) {
    Inv(s) && (s.owner.mode != Passive ==> s.enabled)
  }

  lemma StepFlows(s: State, op: Op)
    requires Flowing(s) && s.owner.mode != Passive && !op.SetActive?
    ensures var q := Step(s, op).s;
            && Flowing(q) && s.consumed <= q.consumed && s.rx <= q.rx
            && (Shows(s, op) ==> s.consumed < q.consumed)
            && (!Shows(s, op) ==> q.consumed == s.consumed && q.owner == s.owner)
            && (s.owner.mode == Active ==> q.owner.mode == Active)
  {
    StepInv(s, op);
  }

  // A step in an active mode sends exactly the bytes it consumes.
  lemma StepSends(s: State, op: Op)
    requires Inv(s) && s.owner.mode != Passive && !op.SetActive?
    ensures var r := Step(s, op);
            s.consumed <= r.s.consumed <= |r.s.rx| && Delivered(r.out) == r.s.rx[s.consumed..r.s.consumed]
  {
    StepInv(s, op);
    if op.Indicate? {
      IndicateDelivers(Idle, s, op.n, op.flags);
    } else {
      assert Step(s, op).s.rx[s.consumed..s.consumed] == [];
      if op.Read? {
        DeliveredNone(Step(s, op).out);
      }
    }
  }

  // ---------------------------------------------------------------- the theorem

  // The first `target` bytes have been sent, or the mode, `once` or {active, N}, is used up.
  predicate Done(s: State, target: nat) {
    s.consumed >= target || s.owner.mode == Passive
  }

  function Missing(s: State, target: nat): Rank {
    Rank(if s.consumed >= target then 0 else target - s.consumed, 0, 0, 0, 0)
  }

  // By then it has been done.
  ghost predicate DoneBy(s: State, sched: nat -> Op, target: nat, n: nat) {
    exists k: nat :: k <= n && Done(At(s, sched, k).s, target)
  }

  lemma {:induction false} FlowsUntil(s: State, sched: nat -> Op, target: nat, n: nat)
    requires Flowing(s) && s.consumed < target <= |s.rx| && s.owner.mode != Passive && NeverSets(sched)
    ensures DoneBy(s, sched, target, n) ||
            var q := At(s, sched, n).s; Flowing(q) && q.owner.mode != Passive && q.consumed < target <= |q.rx|
  {
    if n > 0 {
      FlowsUntil(s, sched, target, n - 1);
      if DoneBy(s, sched, target, n - 1) {
        var k: nat :| k <= n - 1 && Done(At(s, sched, k).s, target);
        assert DoneBy(s, sched, target, n);
      } else {
        StepFlows(At(s, sched, n - 1).s, sched(n - 1));
        assert At(s, sched, n) == Extend(At(s, sched, n - 1), sched(n - 1));
        if Done(At(s, sched, n).s, target) {
          assert DoneBy(s, sched, target, n);
        }
      }
    }
  }

  ghost function RankAt(s: State, sched: nat -> Op, target: nat): nat -> Rank {
    (n: nat) => Missing(At(s, sched, n).s, target)
  }

  ghost function OverAt(s: State, sched: nat -> Op, target: nat): nat -> bool {
    (n: nat) => DoneBy(s, sched, target, n)
  }

  ghost function ShownAt(s: State, sched: nat -> Op): (nat, nat) -> bool {
    (n: nat, j: nat) => Serves(s, sched, j)
  }

  lemma StepProceeds(s: State, sched: nat -> Op, target: nat, n: nat)
    requires Flowing(s) && s.consumed < target <= |s.rx| && s.owner.mode != Passive && NeverSets(sched)
    ensures Proceeds(RankAt(s, sched, target), OverAt(s, sched, target), ShownAt(s, sched), n)
  {
    FlowsUntil(s, sched, target, n);
    if !DoneBy(s, sched, target, n) {
      var p := At(s, sched, n).s;
      StepFlows(p, sched(n));
      assert At(s, sched, n + 1) == Extend(At(s, sched, n), sched(n));
      assert CanShow(p);
    }
  }

  lemma StepAnswered(s: State, sched: nat -> Op, target: nat, n: nat)
    requires Fair(s, sched)
    ensures Answered(OverAt(s, sched, target), ShownAt(s, sched), n)
  {
    assert Served(s, sched, n);
    var j :| n <= j && Serves(s, sched, j);
    assert ShownAt(s, sched)(n, j);
  }

  lemma SomeTimeDone(s: State, sched: nat -> Op, target: nat) returns (k: nat)
    requires Flowing(s) && s.consumed < target <= |s.rx| && s.owner.mode != Passive
    requires Fair(s, sched) && NeverSets(sched)
    ensures Done(At(s, sched, k).s, target)
  {
    var rank, over, done := RankAt(s, sched, target), OverAt(s, sched, target), ShownAt(s, sched);
    forall n: nat ensures Proceeds(rank, over, done, n) && Answered(over, done, n) {
      StepProceeds(s, sched, target, n);
      StepAnswered(s, sched, target, n);
    }
    var end := Ends(rank, over, done, 0);
    assert DoneBy(s, sched, target, end);
    k :| k <= end && Done(At(s, sched, k).s, target);
  }

  // What has been sent since s is what has been consumed since s.
  ghost predicate SentSince(s: State, r: Result) {
    && Inv(r.s) && r.s.owner.mode == Active && s.rx <= r.s.rx
    && s.consumed <= r.s.consumed <= |r.s.rx| && Delivered(r.out) == r.s.rx[s.consumed..r.s.consumed]
  }

  lemma ExtendSent(s: State, p: Result, op: Op)
    requires SentSince(s, p) && p.s.enabled && !op.SetActive?
    ensures SentSince(s, Extend(p, op)) && Extend(p, op).s.enabled
  {
    StepFlows(p.s, op);
    StepSends(p.s, op);
    var r := Step(p.s, op);
    DeliveredConcat(p.out, r.out);
    assert p.s.rx[s.consumed..p.s.consumed] == r.s.rx[s.consumed..p.s.consumed];
    SliceJoin(r.s.rx, s.consumed, p.s.consumed, r.s.consumed);
  }

  lemma {:induction false} AllSentSince(s: State, sched: nat -> Op, n: nat)
    requires Inv(s) && s.owner.mode == Active && s.enabled && NeverSets(sched)
    ensures SentSince(s, At(s, sched, n)) && At(s, sched, n).s.enabled
  {
    if n == 0 {
      assert s.rx[s.consumed..s.consumed] == [];
    } else {
      AllSentSince(s, sched, n - 1);
      ExtendSent(s, At(s, sched, n - 1), sched(n - 1));
      assert At(s, sched, n) == Extend(At(s, sched, n - 1), sched(n - 1));
    }
  }

  // With `true` and receiving enabled: it stays enabled, and under every fair schedule
  // without another setopt all bytes that have arrived are sent, in order.
  lemma ActiveSendsAll(s: State, sched: nat -> Op) returns (k: nat)
    requires Inv(s) && s.owner.mode == Active && s.enabled
    requires Fair(s, sched) && NeverSets(sched)
    ensures var r := At(s, sched, k);
            && r.s.enabled && r.s.owner.mode == Active && |s.rx| <= r.s.consumed <= |r.s.rx|
            && Delivered(r.out) == r.s.rx[s.consumed..r.s.consumed]
  {
    if s.consumed < |s.rx| {
      k := SomeTimeDone(s, sched, |s.rx|);
    } else {
      k := 0;
    }
    AllSentSince(s, sched, k);
  }

  // With `once` or {active, N}: all are sent, or the messages granted are used up.
  lemma GrantIsUsed(s: State, sched: nat -> Op) returns (k: nat)
    requires Inv(s) && s.owner.mode != Passive && s.enabled
    requires Fair(s, sched) && NeverSets(sched)
    ensures At(s, sched, k).s.consumed >= |s.rx| || At(s, sched, k).s.owner.mode == Passive
  {
    if s.consumed < |s.rx| {
      k := SomeTimeDone(s, sched, |s.rx|);
    } else {
      k := 0;
    }
  }

  // ---------------------------------------------------------------- leaving the passive mode

  // Receiving is enabled after setopt on a passive stream exactly when it was before or the
  // buffer is not empty.
  lemma LeavingPassiveEnables(s: State, v: Opt)
    requires Inv(s) && s.owner.mode == Passive && v != OptFalse
    ensures Step(s, SetActive(v)).s.enabled <==> s.enabled || s.data != []
  {
  }

  // Bytes shown and not yet read when the mode becomes `true` are sent after all.
  lemma GivenBackIsSent(s: State, sched: nat -> Op) returns (k: nat)
    requires Inv(s) && s.lent > 0
    requires Fair(Step(s, SetActive(OptTrue)).s, sched) && NeverSets(sched)
    ensures var r := At(Step(s, SetActive(OptTrue)).s, sched, k);
            && |s.rx| <= r.s.consumed <= |r.s.rx|
            && Delivered(r.out) == r.s.rx[s.consumed..r.s.consumed]
  {
    LeavingPassiveGivesBack(s, OptTrue);
    StepInv(s, SetActive(OptTrue));
    k := ActiveSendsAll(Step(s, SetActive(OptTrue)).s, sched);
  }

  // MsQuic shows bytes only while receiving is enabled.
  predicate Obeys(s: State, t: Trace<Op>) {
    t.Begin? || (Obeys(s, t.before) && (Shows(Run(s, t.before).s, t.step) ==> Run(s, t.before).s.enabled))
  }

  // In an active mode without receiving enabled, nothing comes any more: recv/2 is refused
  // and setopt does not enable, unless it goes through `false`.
  predicate Stuck(s: State, r: Result) {
    r.s.owner.mode != Passive && !r.s.enabled && r.s.consumed == s.consumed && Delivered(r.out) == []
  }

  predicate NeverPassive(s: State, t: Trace<Op>) {
    t.Begin? || (NeverPassive(s, t.before) && Run(s, t).s.owner.mode != Passive)
  }

  lemma StepStuck(s: State, p: Result, op: Op)
    requires Stuck(s, p) && Extend(p, op).s.owner.mode != Passive && (Shows(p.s, op) ==> p.s.enabled)
    ensures Stuck(s, Extend(p, op))
  {
    var out := Step(p.s, op).out;
    DeliveredConcat(p.out, out);
    if out != [] {
      assert op.Read?;
      DeliveredNone(out);
    }
  }

  lemma {:induction false} StaysStuck(s: State, t: Trace<Op>)
    requires s.owner.mode != Passive && !s.enabled && NeverPassive(s, t) && Obeys(s, t)
    ensures Stuck(s, Run(s, t))
  {
    if t.Then? {
      StaysStuck(s, t.before);
      StepStuck(s, Run(s, t.before), t.step);
      assert Run(s, t) == Extend(Run(s, t.before), t.step);
    }
  }

  // So it is after a partial read: the bytes left, and all later ones, are never sent in the
  // mode that follows, although the call succeeds.
  lemma PartialReadStalls(s: State, req: nat, enableOk: bool, v: Opt, t: Trace<Op>)
    requires Inv(s) && s.lent > 0 && 0 < req < s.lent && (v.OptTrue? || v.OptOnce?)
    requires var q := Step(Step(s, Read(req, enableOk)).s, SetActive(v)).s; NeverPassive(q, t) && Obeys(q, t)
    ensures var q := Step(Step(s, Read(req, enableOk)).s, SetActive(v)).s;
            && q.consumed == s.consumed + req < |q.rx| && SetMode(s.owner, v).ok
            && Stuck(q, Run(q, t))
  {
    StaysStuck(Step(Step(s, Read(req, enableOk)).s, SetActive(v)).s, t);
  }
}
