/** A process that reads a passive stream with recv/2 (`do_recv`, src/quicer.erl), its
    mailbox, and the stream underneath: no wake-up is lost, a read returns exactly the
    next bytes, and it always completes once enough of them have arrived. */
module PassiveReader {
  import opened Bytes
  import opened Liveness
  import opened RecvMode
  import opened Receive
  import opened Runs

  // The messages do_recv waits for: continue, and the three that end it with an error.
  datatype Wake = Continue | Abort

  // `left` is the outstanding count, `acc` what earlier reads of this call returned.
  datatype Reader =
    | NotReading
    | Calling(req: nat, left: nat, acc: seq<byte>)
    | Blocked(req: nat, left: nat, acc: seq<byte>)
    | Returned(req: nat, bin: seq<byte>)
    | Failed
    | CaseClause

  // `base` is where in the stream the current call started.
  datatype Sys = Sys(st: State, reader: Reader, mbox: seq<Wake>, base: nat)

  // One binary from the NIF.
  function OnBinary(r: Reader, bin: seq<byte>): Reader
    requires r.Calling?
  {
    if (r.left == 0 || |bin| == r.left) && r.acc == [] then Returned(r.req, bin)
    else if |bin| == r.left then Returned(r.req, r.acc + bin)
    else if |bin| < r.left then Calling(r.req, r.left - |bin|, r.acc + bin)
    else CaseClause
  }

  datatype Move =
    | Env(op: Op)              // bytes arrive, MsQuic shows some, or reuses its memory
    | PeerAborts               // shutdown, abort or close message
    | Call(count: nat)         // recv(Stream, Count)
    | Nif(enableOk: bool)      // quicer_nif:recv
    | Receive                  // the blocked process takes the first message

  predicate OfMsQuic(op: Op) {
    op.Arrive? || op.Indicate? || op.Reuse?
  }

  // Steps of a run in which the stream stays passive; others change nothing.
  function Next(y: Sys, m: Move): Sys {
    match m
    case Env(op) =>
      if OfMsQuic(op) then
        var r := Step(y.st, op);
        y.(st := r.s, mbox := y.mbox + if ContinueMsg in r.out then [Continue] else [])
      else y
    case PeerAborts => y.(mbox := y.mbox + [Abort])
    case Call(count) =>
      if y.reader.Calling? || y.reader.Blocked? then y
      else y.(reader := Calling(count, count, []), base := y.st.consumed)
    case Nif(enableOk) =>
      if !y.reader.Calling? then y
      else
        var r := OnRead(y.st, y.reader.left, enableOk);
        y.(st := r.s,
           reader := match r.out[0]
                     case Got(bin) => OnBinary(y.reader, bin)
                     case NotReady => Blocked(y.reader.req, y.reader.left, y.reader.acc)
                     case _ => Failed)
    case Receive =>
      if !y.reader.Blocked? || y.mbox == [] then y
      else
        y.(mbox := y.mbox[1..],
           reader := if y.mbox[0] == Continue then Calling(y.reader.req, y.reader.left, y.reader.acc) else Failed)
  }

  // The bytes taken so far by the current call, and how many are still wanted.
  predicate ReaderInv(y: Sys)
    requires y.base <= y.st.consumed <= |y.st.rx|
  {
    match y.reader
    case Calling(req, left, acc) =>
      acc == y.st.rx[y.base..y.st.consumed] && |acc| + left == req && (left == 0 ==> req == 0)
    case Blocked(req, left, acc) =>
      acc == y.st.rx[y.base..y.st.consumed] && |acc| + left == req && (left == 0 ==> req == 0)
    case Returned(req, bin) =>
      bin == y.st.rx[y.base..y.st.consumed] && (if req == 0 then |bin| > 0 else |bin| == req)
    case CaseClause => false
    case _ => true
  }

  // A blocked reader is registered and will be woken: a `continue` is on its way, or the
  // next RECEIVE event will send one.
  predicate WakeUpPending(y: Sys) {
    y.reader.Blocked? ==> y.st.waiting && (Continue in y.mbox || (y.st.enabled && y.st.lent == 0))
  }

  predicate SysInv(y: Sys) {
    && Inv(y.st)
    && y.st.owner.mode == Passive
    && (y.st.recvPending <==> y.st.lent > 0)
    && y.base <= y.st.consumed
    && ReaderInv(y)
    && WakeUpPending(y)
  }

  // A passive owner, whatever its count: that of an orphan may be any.
  predicate SysInit(y: Sys) {
    y.st.owner.mode == Passive && y.st == Init(y.st.owner) && y.reader == NotReading && y.mbox == [] && y.base == 0
  }

  // ---------------------------------------------------------------- every step keeps it

  lemma SliceFrame(rx: seq<byte>, rx': seq<byte>, a: nat, b: nat)
    requires rx <= rx' && a <= b <= |rx|
    ensures rx'[a..b] == rx[a..b]
  {
  }

  lemma IndicatePassive(s: State, n: nat, flags: nat)
    requires s.owner.mode == Passive && (s.recvPending <==> s.lent > 0)
    ensures var r := Step(s, Indicate(n, flags));
            && r.s.consumed == s.consumed && r.s.rx == s.rx && r.s.waiting == s.waiting
            && r.s.owner == s.owner && r.s.enabled == s.enabled
            && (r.s.recvPending <==> r.s.lent > 0)
            && (ContinueMsg in r.out <==> s.waiting && Shows(s, Indicate(n, flags)))
            && (Shows(s, Indicate(n, flags)) ==> r.s.lent == n)
            && (!Shows(s, Indicate(n, flags)) ==> r.s.lent == s.lent)
  {
  }

  lemma EnvKeeps(y: Sys, op: Op)
    requires SysInv(y)
    ensures SysInv(Next(y, Env(op)))
  {
    if OfMsQuic(op) {
      StepInv(y.st, op);
      SliceFrame(y.st.rx, Step(y.st, op).s.rx, y.base, y.st.consumed);
      if op.Indicate? {
        IndicatePassive(y.st, op.n, op.flags);
      }
    }
  }

  // What a passive read returns: as many of the shown bytes as asked for, all of them for
  // 0 or too many, or nothing while it registers.
  lemma ReadPassive(s: State, req: nat, enableOk: bool)
    requires Inv(s) && s.owner.mode == Passive && (s.recvPending <==> s.lent > 0)
    ensures var r := OnRead(s, req, enableOk);
            && Inv(r.s) && r.s.rx == s.rx && r.s.owner == s.owner && r.s.lent == 0 && !r.s.recvPending
            && |r.out| == 1
            && (if s.lent > 0 then
                  && r.s.consumed - s.consumed == (if req == 0 || req > s.lent then s.lent else req)
                  && r.out[0] == Got(s.rx[s.consumed..r.s.consumed])
                else
                  && r.s.consumed == s.consumed && r.s.waiting
                  && r.out[0] == if enableOk then NotReady else EnableFailed)
            && (enableOk && s.lent == 0 ==> r.s.enabled)
  {
    ReadInv(s, req, enableOk);
    if s.lent > 0 {
      var size := FlushSize(|s.data|, req);
      SliceTake(s.rx, s.consumed, s.consumed + s.lent, size);
    }
  }

  lemma NifKeeps(y: Sys, enableOk: bool)
    requires SysInv(y)
    ensures SysInv(Next(y, Nif(enableOk)))
  {
    if y.reader.Calling? {
      ReadPassive(y.st, y.reader.left, enableOk);
      var z := Next(y, Nif(enableOk));
      SliceJoin(y.st.rx, y.base, y.st.consumed, z.st.consumed);
    }
  }

  lemma NextKeeps(y: Sys, m: Move)
    requires SysInv(y)
    ensures SysInv(Next(y, m))
  {
    match m {
      case Env(op) => EnvKeeps(y, op);
      case Nif(enableOk) => NifKeeps(y, enableOk);
      case Call(_) => assert y.st.rx[y.st.consumed..y.st.consumed] == [];
      case PeerAborts =>
      case Receive =>
    }
  }

  function Play(y: Sys, ms: Trace<Move>): Sys {
    match ms
    case Begin => y
    case Then(before, m) => Next(Play(y, before), m)
  }

  // Over every run with a passive owner: no wake-up is lost, and a recv(Stream, Count)
  // that succeeds returns the next Count bytes of the stream, or one non-empty chunk for
  // Count = 0, however MsQuic cuts them up. No clause of do_recv is missing.
  lemma {:induction false} RecvIsSound(y: Sys, ms: Trace<Move>)
    requires SysInit(y)
    ensures var z := Play(y, ms);
            && SysInv(z)
            && WakeUpPending(z)
            && (z.reader.Returned? ==>
                  && z.reader.bin == z.st.rx[z.base..z.st.consumed]
                  && (if z.reader.req == 0 then |z.reader.bin| > 0 else |z.reader.bin| == z.reader.req))
            && !z.reader.CaseClause?
  {
    if ms == Begin {
      assert y.st.rx[0..0] == [];
    } else {
      RecvIsSound(y, ms.before);
      NextKeeps(Play(y, ms.before), ms.step);
    }
  }

  // ---------------------------------------------------------------- failing calls

  predicate InCall(r: Reader) {
    r.Calling? || r.Blocked?
  }

  // What a move makes a call return, and how many bytes, already read, a failing call drops.
  function GivenBy(y: Sys, m: Move): seq<byte> {
    var z := Next(y, m);
    if InCall(y.reader) && z.reader.Returned? then z.reader.bin else []
  }

  function DroppedBy(y: Sys, m: Move): nat {
    if InCall(y.reader) && Next(y, m).reader.Failed? then |y.reader.acc| else 0
  }

  // The system with what its calls have given and dropped so far.
  datatype Account = Account(y: Sys, given: seq<byte>, dropped: nat)

  function Book(a: Account, m: Move): Account {
    Account(Next(a.y, m), a.given + GivenBy(a.y, m), a.dropped + DroppedBy(a.y, m))
  }

  function Books(y: Sys, ms: Trace<Move>): Account {
    match ms
    case Begin => Account(y, [], 0)
    case Then(before, m) => Book(Books(y, before), m)
  }

  lemma {:induction false} BooksPlay(y: Sys, ms: Trace<Move>)
    ensures Books(y, ms).y == Play(y, ms)
  {
    if ms.Then? {
      BooksPlay(y, ms.before);
    }
  }

  function Held(r: Reader): seq<byte> {
    if InCall(r) then r.acc else []
  }

  // Bytes taken from the stream are given, dropped or held by the call in progress.
  ghost predicate Balanced(a: Account) {
    var held, st := Held(a.y.reader), a.y.st;
    && |a.given| + a.dropped + |held| == st.consumed <= |st.rx|
    && (a.dropped == 0 ==> a.given + held == st.rx[..st.consumed])
  }

  // Whatever a failing call has read from the stream is what it drops.
  lemma FailingCallDrops(y: Sys, m: Move)
    requires SysInv(y) && InCall(y.reader) && Next(y, m).reader.Failed?
    ensures Next(y, m).st.consumed == y.st.consumed && y.reader.acc == y.st.rx[y.base..y.st.consumed]
    ensures DroppedBy(y, m) == y.st.consumed - y.base && (y.reader.req == 0 ==> DroppedBy(y, m) == 0)
  {
    if m.Nif? {
      ReadPassive(y.st, y.reader.left, m.enableOk);
    }
  }

  // A call fails exactly when the message that wakes it is not a continue, or when it has to
  // wait and receiving cannot be enabled.
  lemma CallFailsIff(y: Sys, m: Move)
    requires SysInv(y) && InCall(y.reader)
    ensures Next(y, m).reader.Failed? <==>
            || (m == Receive && y.reader.Blocked? && y.mbox != [] && y.mbox[0] == Abort)
            || (m == Nif(false) && y.reader.Calling? && y.st.lent == 0)
  {
    if m.Nif? {
      ReadPassive(y.st, y.reader.left, m.enableOk);
    }
  }

  // The Count of the latest recv call that did not find one in progress, and where in the
  // stream it found the process.
  function Asked(y: Sys, ms: Trace<Move>): nat {
    match ms
    case Begin => 0
    case Then(before, m) => if m.Call? && !InCall(Play(y, before).reader) then m.count else Asked(y, before)
  }

  function AskedAt(y: Sys, ms: Trace<Move>): nat {
    match ms
    case Begin => 0
    case Then(before, m) =>
      if m.Call? && !InCall(Play(y, before).reader) then Play(y, before).st.consumed else AskedAt(y, before)
  }

  predicate OfCall(z: Sys, count: nat, at: nat) {
    && (InCall(z.reader) || z.reader.Returned? ==> z.reader.req == count)
    && z.base == at
  }

  lemma StepOfCall(y: Sys, m: Move, count: nat, at: nat)
    requires OfCall(y, count, at) && !(m.Call? && !InCall(y.reader))
    ensures OfCall(Next(y, m), count, at)
  {
  }

  // Over every run: what is returned is what the latest call has asked for.
  lemma {:induction false} AnswersTheCall(y: Sys, ms: Trace<Move>)
    requires SysInit(y)
    ensures OfCall(Play(y, ms), Asked(y, ms), AskedAt(y, ms))
  {
    if ms.Then? {
      AnswersTheCall(y, ms.before);
      var p := Play(y, ms.before);
      if !(ms.step.Call? && !InCall(p.reader)) {
        StepOfCall(p, ms.step, Asked(y, ms.before), AskedAt(y, ms.before));
      }
    }
  }

  // A call that goes on holds what it has read and gives all of it in the end.
  lemma NifGives(y: Sys, enableOk: bool)
    requires SysInv(y) && y.reader.Calling?
    ensures var z, m := Next(y, Nif(enableOk)), Nif(enableOk);
            && y.st.consumed <= z.st.consumed <= |z.st.rx| && z.st.rx == y.st.rx
            && (if z.reader.Failed? then z.st.consumed == y.st.consumed && GivenBy(y, m) == []
                else GivenBy(y, m) + Held(z.reader) == y.reader.acc + y.st.rx[y.st.consumed..z.st.consumed])
  {
    ReadPassive(y.st, y.reader.left, enableOk);
    var z := Next(y, Nif(enableOk));
    NifKeeps(y, enableOk);
    if y.st.lent == 0 {
      assert y.st.rx[y.st.consumed..z.st.consumed] == [];
      assert [] + y.reader.acc == y.reader.acc + [];
    } else if y.reader.acc == [] {
      assert [] + y.st.rx[y.st.consumed..z.st.consumed] == y.st.rx[y.st.consumed..z.st.consumed];
    }
  }

  lemma GivenGrows(given: seq<byte>, held: seq<byte>, dropped: nat, rx: seq<byte>, a: nat, b: nat,
                   more: seq<byte>, held': seq<byte>)
    requires a <= b <= |rx| && |given| + dropped + |held| == a && (dropped == 0 ==> given + held == rx[..a])
    requires more + held' == held + rx[a..b]
    ensures |given + more| + dropped + |held'| == b && (dropped == 0 ==> (given + more) + held' == rx[..b])
  {
    assert |more| + |held'| == |more + held'| == |held| + (b - a);
    if dropped == 0 {
      SliceJoin(rx, 0, a, b);
      assert (given + more) + held' == given + (more + held') == (given + held) + rx[a..b];
    }
  }

  lemma NifBalances(a: Account, enableOk: bool)
    requires SysInv(a.y) && Balanced(a) && a.y.reader.Calling?
    ensures Balanced(Book(a, Nif(enableOk)))
  {
    NifGives(a.y, enableOk);
    var b, more := Book(a, Nif(enableOk)), GivenBy(a.y, Nif(enableOk));
    if b.y.reader.Failed? {
      assert a.given + [] == a.given;
    } else {
      GivenGrows(a.given, a.y.reader.acc, a.dropped, a.y.st.rx, a.y.st.consumed, b.y.st.consumed,
                 more, Held(b.y.reader));
    }
  }

  // The other moves take nothing from the stream.
  lemma OtherMovesHold(y: Sys, m: Move)
    requires SysInv(y) && !(m.Nif? && y.reader.Calling?)
    ensures var z := Next(y, m);
            && y.st.rx <= z.st.rx && z.st.consumed == y.st.consumed && GivenBy(y, m) == []
            && |Held(z.reader)| + DroppedBy(y, m) == |Held(y.reader)|
            && (DroppedBy(y, m) == 0 ==> Held(z.reader) == Held(y.reader))
  {
    if m.Env? && m.op.Indicate? {
      IndicatePassive(y.st, m.op.n, m.op.flags);
    }
  }

  lemma NextBalances(a: Account, m: Move)
    requires SysInv(a.y) && Balanced(a)
    ensures Balanced(Book(a, m))
  {
    if m.Nif? && a.y.reader.Calling? {
      NifBalances(a, m.enableOk);
    } else {
      assert a.given + [] == a.given;
      OtherMovesHold(a.y, m);
    }
  }

  lemma {:induction false} RunBalances(y: Sys, ms: Trace<Move>)
    requires SysInit(y)
    ensures Balanced(Books(y, ms))
  {
    if ms.Then? {
      RunBalances(y, ms.before);
      RecvIsSound(y, ms.before);
      BooksPlay(y, ms.before);
      NextBalances(Books(y, ms.before), ms.step);
    }
  }

  // Over every run with a passive owner, once no call is in progress: the calls have returned
  // exactly the bytes taken from the stream if and only if no failing call had read any.
  lemma ReturnedIffNoneDropped(y: Sys, ms: Trace<Move>)
    requires SysInit(y) && !InCall(Play(y, ms).reader)
    ensures var z, a := Play(y, ms), Books(y, ms);
            && |a.given| + a.dropped == z.st.consumed <= |z.st.rx|
            && (a.given == z.st.rx[..z.st.consumed] <==> a.dropped == 0)
  {
    RunBalances(y, ms);
    BooksPlay(y, ms);
    assert Books(y, ms).given + [] == Books(y, ms).given;
  }

  // Every call is recv(Stream, 0).
  predicate OnlyZeroCounts(ms: Trace<Move>) {
    ms.Begin? || (OnlyZeroCounts(ms.before) && (ms.step.Call? ==> ms.step.count == 0))
  }

  lemma ZeroStep(y: Sys, m: Move)
    requires SysInv(y) && (InCall(y.reader) ==> y.reader.req == 0) && (m.Call? ==> m.count == 0)
    ensures DroppedBy(y, m) == 0
    ensures InCall(Next(y, m).reader) ==> Next(y, m).reader.req == 0
  {
    if InCall(y.reader) && Next(y, m).reader.Failed? {
      FailingCallDrops(y, m);
    }
  }

  // Such calls drop nothing, however they end.
  lemma {:induction false} ZeroCountsDropNothing(y: Sys, ms: Trace<Move>)
    requires SysInit(y) && OnlyZeroCounts(ms)
    ensures Books(y, ms).dropped == 0
    ensures InCall(Play(y, ms).reader) ==> Play(y, ms).reader.req == 0
  {
    if ms.Then? {
      ZeroCountsDropNothing(y, ms.before);
      RecvIsSound(y, ms.before);
      BooksPlay(y, ms.before);
      ZeroStep(Play(y, ms.before), ms.step);
    }
  }

  // A count that is not reached does: bytes come, but fewer, then the peer ends the stream.
  function LosingRun(bytes: seq<byte>, count: nat): Trace<Move> {
    var shown := Then(Then(Begin, Env(Arrive(bytes))), Env(Indicate(|bytes|, 0)));
    var read := Then(Then(Then(shown, Call(count)), Nif(true)), Nif(true));
    Then(Then(read, PeerAborts), Receive)
  }

  lemma LosingShows(a: Account, bytes: seq<byte>)
    requires SysInit(a.y) && bytes != []
    ensures var b := Book(Book(a, Env(Arrive(bytes))), Env(Indicate(|bytes|, 0)));
            && b == a.(y := a.y.(st := b.y.st)) && b.y.st.owner == a.y.st.owner && !b.y.st.waiting
            && b.y.st.recvPending && b.y.st.lent == |bytes| && b.y.st.consumed == 0
            && b.y.st.data == bytes == b.y.st.rx
  {
    assert [] + bytes == bytes && bytes[0..|bytes|] == bytes && a.y.mbox + [] == a.y.mbox && a.given + [] == a.given;
  }

  lemma LosingReads(a: Account, bytes: seq<byte>, count: nat)
    requires a.y.reader == NotReading && a.y.st.owner.mode == Passive && 0 < |bytes| < count
    requires a.y.st.recvPending && a.y.st.lent == |bytes| && a.y.st.consumed == 0 && a.y.st.data == bytes == a.y.st.rx
    ensures var b := Book(Book(a, Call(count)), Nif(true));
            && b == a.(y := a.y.(reader := Calling(count, count - |bytes|, bytes), base := 0, st := b.y.st))
            && b.y.st.owner.mode == Passive && !b.y.st.recvPending && b.y.st.consumed == |bytes| && b.y.st.rx == bytes
  {
    assert bytes[..|bytes|] == bytes && [] + bytes == bytes && a.given + [] == a.given;
  }

  lemma LosingFails(a: Account, count: nat, left: nat, acc: seq<byte>)
    requires a.y.reader == Calling(count, left, acc) && a.y.st.owner.mode == Passive && !a.y.st.recvPending
    requires a.y.mbox == []
    ensures var b := Book(Book(Book(a, Nif(true)), PeerAborts), Receive);
            && b.y.reader.Failed? && b.y.st.consumed == a.y.st.consumed && b.y.st.rx == a.y.st.rx
            && b.given == a.given && b.dropped == a.dropped + |acc|
  {
    var b := Book(a, Nif(true));
    assert a.given + [] == a.given;
    assert b == a.(y := a.y.(reader := Blocked(count, left, acc), st := b.y.st));
    assert Book(b, PeerAborts) == b.(y := b.y.(mbox := [Abort]));
  }

  lemma BooksTwo(y: Sys, ms: Trace<Move>, m1: Move, m2: Move)
    ensures Books(y, Then(Then(ms, m1), m2)) == Book(Book(Books(y, ms), m1), m2)
  {
    assert Books(y, Then(ms, m1)) == Book(Books(y, ms), m1);
  }

  lemma BooksOfLosingRun(y: Sys, bytes: seq<byte>, count: nat)
    ensures var a := Book(Book(Account(y, [], 0), Env(Arrive(bytes))), Env(Indicate(|bytes|, 0)));
            var b := Book(Book(a, Call(count)), Nif(true));
            Books(y, LosingRun(bytes, count)) == Book(Book(Book(b, Nif(true)), PeerAborts), Receive)
  {
    var shown := Then(Then(Begin, Env(Arrive(bytes))), Env(Indicate(|bytes|, 0)));
    var read := Then(Then(shown, Call(count)), Nif(true));
    BooksTwo(y, Begin, Env(Arrive(bytes)), Env(Indicate(|bytes|, 0)));
    BooksTwo(y, shown, Call(count), Nif(true));
    BooksTwo(y, Then(read, Nif(true)), PeerAborts, Receive);
  }

  lemma PartialReadIsLost(y: Sys, bytes: seq<byte>, count: nat)
    requires SysInit(y) && 0 < |bytes| < count
    ensures var a := Books(y, LosingRun(bytes, count));
            && a.y == Play(y, LosingRun(bytes, count)) && a.y.reader.Failed?
            && a.y.st.consumed == |bytes| == |a.y.st.rx| && a.given == [] && a.dropped == |bytes|
  {
    BooksPlay(y, LosingRun(bytes, count));
    BooksOfLosingRun(y, bytes, count);
    var start := Account(y, [], 0);
    LosingShows(start, bytes);
    var a := Book(Book(start, Env(Arrive(bytes))), Env(Indicate(|bytes|, 0)));
    LosingReads(a, bytes, count);
    LosingFails(Book(Book(a, Call(count)), Nif(true)), count, count - |bytes|, bytes);
  }

  // ---------------------------------------------------------------- completion

  // A call in progress whose bytes have all arrived, with no abort queued.
  predicate InProgress(y: Sys) {
    && SysInv(y) && (y.reader.Calling? || y.reader.Blocked?)
    && Abort !in y.mbox
    && y.st.consumed + (if y.reader.left == 0 then 1 else y.reader.left) <= |y.st.rx|
  }

  // The call is over, or still the same one.
  predicate SameCall(y: Sys, z: Sys)
    requires InProgress(y)
  {
    && SysInv(z) && z.base == y.base && y.st.rx <= z.st.rx
    && (z.reader.Returned? || InProgress(z)) && z.reader.req == y.reader.req
  }

  // Lower with fewer bytes wanted, or bytes shown, or fewer messages queued, or registered
  // and blocked.
  function RankOf(y: Sys): Rank {
    var left := if y.reader.Calling? || y.reader.Blocked? then y.reader.left else 0;
    Rank(left, if y.st.lent == 0 then 1 else 0, |y.mbox|, if y.reader.Calling? then 1 else 0, 0)
  }

  predicate MovesOn(y: Sys, z: Sys) {
    Below(RankOf(z), RankOf(y))
  }

  predicate StandsStill(y: Sys, z: Sys)
    requires InProgress(y) && InProgress(z)
  {
    && z.reader == y.reader && z.mbox == y.mbox
    && (z.st.lent == 0 <==> y.st.lent == 0) && z.st.enabled == y.st.enabled
  }

  // The three actions a call waits for.
  datatype Action = RunNif | TakeMessage | ShowBytes

  predicate Possible(y: Sys, a: Action) {
    match a
    case RunNif => y.reader.Calling?
    case TakeMessage => y.reader.Blocked? && y.mbox != []
    case ShowBytes => y.st.enabled && y.st.lent == 0 && y.st.consumed < |y.st.rx|
  }

  predicate Takes(y: Sys, m: Move, a: Action) {
    match a
    case RunNif => m.Nif?
    case TakeMessage => m == Receive
    case ShowBytes => m.Env? && Shows(y.st, m.op)
  }

  function Awaited(y: Sys): Action {
    if y.reader.Calling? then RunNif else if y.mbox != [] then TakeMessage else ShowBytes
  }

  // A blocked reader with an empty mailbox: receiving is enabled, so bytes can be shown.
  lemma AwaitedIsPossible(y: Sys)
    requires InProgress(y)
    ensures Possible(y, Awaited(y))
  {
  }

  predicate Smooth(m: Move) {
    !m.PeerAborts? && (m.Nif? ==> m.enableOk)
  }

  lemma NifMovesOn(y: Sys)
    requires InProgress(y) && y.reader.Calling?
    ensures var z := Next(y, Nif(true)); SameCall(y, z) && (z.reader.Returned? || MovesOn(y, z))
  {
    NifKeeps(y, true);
    ReadPassive(y.st, y.reader.left, true);
  }

  lemma TakeMovesOn(y: Sys)
    requires InProgress(y)
    ensures var z := Next(y, Receive);
            SameCall(y, z) && if Possible(y, TakeMessage) then MovesOn(y, z) else StandsStill(y, z)
  {
    NextKeeps(y, Receive);
    if Possible(y, TakeMessage) {
      assert y.mbox[0] in y.mbox;
      assert forall w :: w in y.mbox[1..] ==> w in y.mbox;
    }
  }

  lemma EnvMovesOn(y: Sys, op: Op)
    requires InProgress(y)
    ensures var z := Next(y, Env(op));
            SameCall(y, z) && if Shows(y.st, op) then MovesOn(y, z) else StandsStill(y, z)
  {
    EnvKeeps(y, op);
    if op.Indicate? {
      IndicatePassive(y.st, op.n, op.flags);
    }
    assert y.mbox + [] == y.mbox;
  }

  // Whatever happens during a call, it moves on or stands still; and when the awaited
  // action is taken, it moves on.
  lemma StepMovesOn(y: Sys, m: Move)
    requires InProgress(y) && Smooth(m)
    ensures var z := Next(y, m);
            && SameCall(y, z)
            && (z.reader.Returned? || MovesOn(y, z) || StandsStill(y, z))
            && (Takes(y, m, Awaited(y)) ==> z.reader.Returned? || MovesOn(y, z))
  {
    match m {
      case Env(op) => EnvMovesOn(y, op);
      case Nif(_) => if y.reader.Calling? { NifMovesOn(y); }
      case Receive => TakeMovesOn(y);
      case Call(_) =>
    }
  }

  // An endless schedule of moves, and the state before its i-th.
  function At(y: Sys, sched: nat -> Move, i: nat): Sys {
    if i == 0 then y else Next(At(y, sched, i - 1), sched(i - 1))
  }

  // The schedule comes, from i on, to a point j at which a is not possible or is taken.
  ghost predicate Serves(y: Sys, sched: nat -> Move, a: Action, j: nat) {
    !Possible(At(y, sched, j), a) || Takes(At(y, sched, j), sched(j), a)
  }

  ghost predicate Served(y: Sys, sched: nat -> Move, a: Action, i: nat) {
    exists j :: i <= j && Serves(y, sched, a, j)
  }

  // No action stays possible for ever without being taken.
  ghost predicate Fair(y: Sys, sched: nat -> Move) {
    forall a, i: nat :: Served(y, sched, a, i)
  }

  // The move that takes an action, and how often it comes.
  function Turn(a: Action): Move {
    match a
    case RunNif => Nif(true)
    case TakeMessage => Receive
    case ShowBytes => Env(Indicate(1, 0))
  }

  lemma TurnTakes(y: Sys, a: Action)
    requires Possible(y, a)
    ensures Takes(y, Turn(a), a)
  {
  }

  // Such schedules exist: the three actions in turn, for one.
  lemma RoundRobinIsFair(y: Sys, sched: nat -> Move)
    requires forall n :: sched(n) == Turn(if n % 3 == 0 then RunNif else if n % 3 == 1 then TakeMessage else ShowBytes)
    ensures Fair(y, sched) && forall n :: Smooth(sched(n))
  {
    forall a, i: nat ensures Served(y, sched, a, i) {
      var j := 3 * i + match a case RunNif => 0 case TakeMessage => 1 case ShowBytes => 2;
      assert sched(j) == Turn(a);
      if Possible(At(y, sched, j), a) {
        TurnTakes(At(y, sched, j), a);
      }
      assert Serves(y, sched, a, j);
    }
  }

  lemma StillAwaited(y: Sys, z: Sys)
    requires InProgress(y) && InProgress(z) && StandsStill(y, z)
    ensures Awaited(z) == Awaited(y) && RankOf(z) == RankOf(y)
  {
  }

  // The call returns its bytes at some point of the schedule.
  ghost predicate Completes(y: Sys, sched: nat -> Move, k: nat, req: nat, base: nat) {
    var z := At(y, sched, k);
    && z.reader.Returned? && z.reader.req == req
    && base <= z.st.consumed <= |z.st.rx|
    && z.reader.bin == z.st.rx[base..z.st.consumed]
    && (if req > 0 then |z.reader.bin| == req else |z.reader.bin| > 0)
  }

  // It has done so by then.
  ghost predicate Completed(y: Sys, sched: nat -> Move, n: nat)
    requires InProgress(y)
  {
    exists k: nat :: k <= n && Completes(y, sched, k, y.reader.req, y.base)
  }

  // The call that was in progress at first still is.
  predicate Continues(y: Sys, z: Sys)
    requires InProgress(y)
  {
    InProgress(z) && z.reader.req == y.reader.req && z.base == y.base
  }

  lemma OneStep(y: Sys, sched: nat -> Move, i: nat)
    requires InProgress(y) && Continues(y, At(y, sched, i)) && Smooth(sched(i))
    ensures var a, z := At(y, sched, i), At(y, sched, i + 1);
            if z.reader.Returned? then Completes(y, sched, i + 1, y.reader.req, y.base)
            else
              && Continues(y, z)
              && (MovesOn(a, z)
                  || (RankOf(z) == RankOf(a) && Awaited(z) == Awaited(a) && !Serves(y, sched, Awaited(a), i)))
  {
    var a, z := At(y, sched, i), At(y, sched, i + 1);
    assert z == Next(a, sched(i));
    AwaitedIsPossible(a);
    StepMovesOn(a, sched(i));
    if !z.reader.Returned? && StandsStill(a, z) {
      StillAwaited(a, z);
    }
  }

  lemma {:induction false} ContinuesUntil(y: Sys, sched: nat -> Move, n: nat)
    requires InProgress(y) && forall i :: Smooth(sched(i))
    ensures Completed(y, sched, n) || Continues(y, At(y, sched, n))
  {
    if n > 0 {
      ContinuesUntil(y, sched, n - 1);
      if Completed(y, sched, n - 1) {
        var k: nat :| k <= n - 1 && Completes(y, sched, k, y.reader.req, y.base);
        assert Completed(y, sched, n);
      } else {
        OneStep(y, sched, n - 1);
      }
    }
  }

  ghost function RankAt(y: Sys, sched: nat -> Move): nat -> Rank {
    (n: nat) => RankOf(At(y, sched, n))
  }

  ghost function OverAt(y: Sys, sched: nat -> Move): nat -> bool
    requires InProgress(y)
  {
    (n: nat) => Completed(y, sched, n)
  }

  ghost function DoneAt(y: Sys, sched: nat -> Move): (nat, nat) -> bool {
    (n: nat, j: nat) => Serves(y, sched, Awaited(At(y, sched, n)), j)
  }

  lemma StepEnds(y: Sys, sched: nat -> Move, i: nat)
    requires InProgress(y) && forall n :: Smooth(sched(n))
    ensures var a, z := At(y, sched, i), At(y, sched, i + 1);
            || Completed(y, sched, i) || Completed(y, sched, i + 1) || MovesOn(a, z)
            || (RankOf(z) == RankOf(a) && Awaited(z) == Awaited(a) && !Serves(y, sched, Awaited(a), i))
  {
    ContinuesUntil(y, sched, i);
    if !Completed(y, sched, i) {
      OneStep(y, sched, i);
      if At(y, sched, i + 1).reader.Returned? {
        assert Completed(y, sched, i + 1);
      }
    }
  }

  lemma StepProceeds(y: Sys, sched: nat -> Move, i: nat)
    requires InProgress(y) && forall n :: Smooth(sched(n))
    ensures Proceeds(RankAt(y, sched), OverAt(y, sched), DoneAt(y, sched), i)
  {
    StepEnds(y, sched, i);
  }

  lemma StepAnswered(y: Sys, sched: nat -> Move, i: nat)
    requires InProgress(y) && Fair(y, sched)
    ensures Answered(OverAt(y, sched), DoneAt(y, sched), i)
  {
    assert Served(y, sched, Awaited(At(y, sched, i)), i);
    var j :| i <= j && Serves(y, sched, Awaited(At(y, sched, i)), j);
    assert DoneAt(y, sched)(i, j);
  }

  // A call never stalls. Under every fair schedule, in which enabling the stream succeeds
  // and no abort comes, once the bytes have arrived the call returns the next ones, as many
  // as asked for, whatever the chunks and however many stale `continue`s are queued.
  lemma RecvCompletes(y: Sys, sched: nat -> Move) returns (k: nat)
    requires InProgress(y) && Fair(y, sched) && forall n :: Smooth(sched(n))
    ensures Completes(y, sched, k, y.reader.req, y.base)
  {
    var rank, over, done := RankAt(y, sched), OverAt(y, sched), DoneAt(y, sched);
    forall n: nat ensures Proceeds(rank, over, done, n) && Answered(over, done, n) {
      StepProceeds(y, sched, n);
      StepAnswered(y, sched, n);
    }
    var end := Ends(rank, over, done, 0);
    assert Completed(y, sched, end);
    k :| k <= end && Completes(y, sched, k, y.reader.req, y.base);
  }
}
