/** The receive mode of a stream owner and its {active, N} budget: the ACCEPTOR fields
    `active` and `active_count`, `set_owner_recv_mode` (c_src/quicer_queue.c), the
    `active` option of `get_stream_opt` (c_src/quicer_config.c) and the budget part of
    `handle_stream_event_recv` (c_src/quicer_stream.c). */
module RecvMode {
  datatype Mode = Passive | Active | Once | Multi

  // active_count is a uint16_t.
  const UINT16 := 0x1_0000
  const INT16_MAX := 0x7FFF
  const INT16_MIN := -0x8000

  type Count = c: nat | c < UINT16

  datatype Owner = Owner(mode: Mode, count: Count)

  // The Erlang term given to setopt(Stream, active, V).
  datatype Opt = OptFalse | OptTrue | OptOnce | OptInt(i: int) | OptOther

  datatype SetResult = SetResult(ok: bool, owner: Owner)

  function SetMode(o: Owner, v: Opt): SetResult {
    match v
    case OptFalse => SetResult(true, Owner(Passive, 0))
    case OptTrue => SetResult(true, Owner(Active, 0))
    case OptOnce => SetResult(true, Owner(Once, 0))
    case OptOther => SetResult(false, o)
    case OptInt(i) =>
      if !(INT16_MIN <= i <= INT16_MAX) then SetResult(false, o)
      else if i < 0 && -i > o.count then SetResult(true, Owner(Passive, 0))
      else if o.count + i > INT16_MAX then SetResult(false, o)
      else SetResult(true, Owner(Multi, o.count + i))
  }

  function GetMode(o: Owner): Opt {
    match o.mode
    case Passive => OptFalse
    case Active => OptTrue
    case Once => OptOnce
    case Multi => OptInt(o.count)
  }

  datatype DataResult = DataResult(owner: Owner, reportPassive: bool)

  // The budget after one data message in a mode other than Passive. The decrement is
  // that of a uint16_t; the source asserts that it does not start from zero.
  function AfterData(o: Owner): DataResult {
    match o.mode
    case Passive => DataResult(o, false)
    case Active => DataResult(o, false)
    case Once => DataResult(Owner(Passive, 0), false)
    case Multi =>
      var c := (o.count - 1) % UINT16;
      if c == 0 then DataResult(Owner(Passive, 0), true) else DataResult(Owner(Multi, c), false)
  }

  predicate AssertFails(o: Owner) {
    o.mode == Multi && o.count == 0
  }

  // ---------------------------------------------------------------- the budget

  // The budget fits an int16_t and is positive exactly in MULTI.
  predicate Good(o: Owner) {
    o.count <= INT16_MAX && (o.mode == Multi <==> o.count > 0)
  }

  // The one kind of call that spends the budget to exactly zero.
  predicate Zeroing(o: Owner, v: Opt) {
    v.OptInt? && v.i + o.count == 0
  }

  // A call keeps the budget good unless it cancels it exactly; then the owner is left
  // in MULTI with nothing to spend, and the next data message violates the assertion.
  lemma SetModeGood(o: Owner, v: Opt)
    requires Good(o)
    ensures Good(SetMode(o, v).owner) <==> !Zeroing(o, v)
    ensures var o' := SetMode(o, v).owner;
            Zeroing(o, v) ==> AssertFails(o') && AfterData(o').owner.count == UINT16 - 1
  {
  }

  // An accepted integer is added to the budget, which does not go below zero; it is
  // refused only if it is no int16_t or the sum is none. Going below zero leaves MULTI.
  lemma BudgetAdds(o: Owner, i: int)
    requires Good(o)
    ensures var r := SetMode(o, OptInt(i));
            var sum := o.count + i;
            && (r.ok <==> INT16_MIN <= i <= INT16_MAX && sum <= INT16_MAX)
            && (!r.ok ==> r.owner == o)
            && (r.ok ==> r.owner.count == (if sum > 0 then sum else 0) && (r.owner.mode == Multi <==> sum >= 0))
  {
  }

  // What getopt reads after setopt, from every owner record. `false`, `true` and `once` are
  // always accepted, are read back, and leave no budget; an integer is read back as the new
  // budget, or as `false` if that is negative; a refused call changes nothing.
  lemma SetModeIsRead(o: Owner, v: Opt)
    ensures var r := SetMode(o, v);
            && (v.OptFalse? || v.OptTrue? || v.OptOnce? ==> r.ok && GetMode(r.owner) == v && r.owner.count == 0)
            && (v.OptInt? && r.ok ==>
                  GetMode(r.owner) == if o.count + v.i >= 0 then OptInt(o.count + v.i) else OptFalse)
            && (!r.ok ==> r.owner == o && (v.OptOther? || v.OptInt?))
  {
  }

  // One step of an owner: a setopt call, or a data message.
  datatype ModeStep = Set(v: Opt) | Message

  function Apply(o: Owner, step: ModeStep): Owner {
    match step
    case Set(v) => SetMode(o, v).owner
    case Message => if o.mode == Passive then o else AfterData(o).owner
  }

  function ApplyAll(o: Owner, steps: seq<ModeStep>): Owner
    decreases |steps|
  {
    if steps == [] then o else ApplyAll(Apply(o, steps[0]), steps[1..])
  }

  predicate NeverZeroed(o: Owner, steps: seq<ModeStep>)
    decreases |steps|
  {
    steps == [] ||
    (!(steps[0].Set? && Zeroing(o, steps[0].v)) && NeverZeroed(Apply(o, steps[0]), steps[1..]))
  }

  // What one step adds to the budget (granted), cancels (forfeited) and uses (spent).
  function Granted(o: Owner, step: ModeStep): int {
    match step
    case Set(OptInt(i)) =>
      var r := SetMode(o, step.v);
      if r.ok && r.owner.mode == Multi then i else 0
    case _ => 0
  }

  function Forfeited(o: Owner, step: ModeStep): int {
    match step
    case Set(v) =>
      var r := SetMode(o, v);
      if r.ok && r.owner.mode != Multi then o.count else 0
    case Message => 0
  }

  function Spent(o: Owner, step: ModeStep): int {
    if step.Message? && o.mode == Multi then 1 else 0
  }

  function Ledger(o: Owner, steps: seq<ModeStep>): int
    decreases |steps|
  {
    if steps == [] then 0
    else
      Granted(o, steps[0]) - Forfeited(o, steps[0]) - Spent(o, steps[0])
      + Ledger(Apply(o, steps[0]), steps[1..])
  }

  lemma BudgetStep(o: Owner, step: ModeStep)
    requires Good(o) && !(step.Set? && Zeroing(o, step.v))
    ensures Good(Apply(o, step))
    ensures Apply(o, step).count == o.count + Granted(o, step) - Forfeited(o, step) - Spent(o, step)
  {
  }

  // Over any run in which no call cancels the budget exactly, the budget stays good, so
  // no decrement wraps, and it is always what was granted, less what resets forfeited
  // and data messages spent.
  lemma {:induction false} BudgetConserved(o: Owner, steps: seq<ModeStep>)
    requires Good(o) && NeverZeroed(o, steps)
    ensures Good(ApplyAll(o, steps)) && !AssertFails(ApplyAll(o, steps))
    ensures ApplyAll(o, steps).count == o.count + Ledger(o, steps)
    decreases |steps|
  {
    if steps != [] {
      BudgetStep(o, steps[0]);
      BudgetConserved(Apply(o, steps[0]), steps[1..]);
    }
  }

  // ---------------------------------------------------------------- round trip

  // Reading the mode, switching to passive and setting the value read restores the
  // owner exactly when its count belongs to its mode: a budget outside MULTI is lost.
  lemma ReadSetRestores(o: Owner)
    ensures SetMode(SetMode(o, OptFalse).owner, GetMode(o)).owner == o
       <==> (if o.mode == Multi then o.count <= INT16_MAX else o.count == 0)
  {
  }

  // ---------------------------------------------------------------- orphans

  // An orphan stream copies the connection owner's ACCEPTOR but forces PASSIVE.
  function OrphanOwner(connOwner: Owner): Owner {
    connOwner.(mode := Passive)
  }

  // Whatever the connection owner's mode.
  lemma OrphanIsPassive(connOwner: Owner)
    ensures GetMode(OrphanOwner(connOwner)) == OptFalse && OrphanOwner(connOwner).count == connOwner.count
  {
  }

  // The copied budget is invisible until the first {active, N}, which then adds to it:
  // the stream gets exactly N messages only if the connection owner had no budget.
  lemma OrphanBudget(connOwner: Owner, n: int)
    requires Good(connOwner) && 0 < n <= INT16_MAX
    ensures Good(OrphanOwner(connOwner)) <==> connOwner.mode != Multi
    ensures SetMode(OrphanOwner(connOwner), OptInt(n)) == SetResult(true, Owner(Multi, n)) <==> connOwner.mode != Multi
  {
  }

  // ---------------------------------------------------------------- the ACCEPTOR object

  /** The mutable owner record shared by the callback and the NIF calls. */
  class Acceptor {
    var mode: Mode
    var count: Count

    function Value(): Owner
      reads this
    {
      Owner(mode, count)
    }

    // AcceptorAlloc: active, no budget.
    constructor ()
      ensures Value() == Owner(Active, 0)
    {
      mode, count := Active, 0;
    }

    // The budget part of handle_stream_event_recv.
    method SpendMessage() returns (reportPassive: bool)
      requires mode != Passive
      modifies this
      ensures DataResult(Value(), reportPassive) == AfterData(old(Value()))
    {
      reportPassive := false;
      if mode == Once {
        count := 0;
        mode := Passive;
      } else if mode == Multi {
        count := (count - 1) % UINT16;
        if count == 0 {
          mode := Passive;
          reportPassive := true;
        }
      }
    }

    // set_owner_recv_mode
    method SetRecvMode(v: Opt) returns (ok: bool)
      modifies this
      ensures SetResult(ok, Value()) == SetMode(old(Value()), v)
    {
      ok := true;
      match v {
        case OptFalse =>
          count := 0;
          mode := Passive;
        case OptTrue =>
          count := 0;
          mode := Active;
        case OptOnce =>
          count := 0;
          mode := Once;
        case OptInt(i) =>
          if !(INT16_MIN <= i <= INT16_MAX) {
            return false;
          } else if i < 0 && -i > count {
            mode := Passive;
            count := 0;
          } else {
            if count + i > INT16_MAX {
              return false;
            }
            count := count + i;
            mode := Multi;
          }
        case OptOther =>
          return false;
      }
    }
  }
}
