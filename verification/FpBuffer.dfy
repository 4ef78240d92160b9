/** The reassembly buffer ("fpbuffer") of src/quicer.erl and the data clauses of
    quicer_stream:handle_info that drive it.

    An `ifrag()` pairs a fragment with its own offset, so the buffer is modelled as
    the sequence of fragments, keyed by `offset`. */
module FpBuffer {
  import opened Bytes

  // The #quic_data{} record, fields in declaration order.
  datatype QuicData = QuicData(offset: nat, size: nat, flags: nat, bin: seq<byte>) {
    function End(): nat { offset + size }
  }

  datatype Buffer = Buffer(nextOffset: nat, frags: seq<QuicData>)

  function NewBuffer(start: nat): Buffer {
    Buffer(start, [])
  }

  // ---------------------------------------------------------------- ordsets

  // Erlang's order on binaries: byte by byte, a proper prefix first.
  predicate BinBefore(a: seq<byte>, b: seq<byte>) {
    if a == [] || b == [] then a == [] && b != []
    else if a[0] == b[0] then BinBefore(a[1..], b[1..])
    else a[0] < b[0]
  }

  // Erlang's order on the {Offset, #quic_data{}} pairs: field by field.
  predicate Before(a: QuicData, b: QuicData) {
    if a.offset != b.offset then a.offset < b.offset
    else if a.size != b.size then a.size < b.size
    else if a.flags != b.flags then a.flags < b.flags
    else BinBefore(a.bin, b.bin)
  }

  lemma {:induction false} BinBeforeTotal(a: seq<byte>, b: seq<byte>)
    ensures a == b || BinBefore(a, b) || BinBefore(b, a)
  {
    if a != [] && b != [] && a[0] == b[0] {
      BinBeforeTotal(a[1..], b[1..]);
      assert a == [a[0]] + a[1..] && b == [b[0]] + b[1..];
    }
  }

  lemma {:induction false} BinBeforeTransitive(a: seq<byte>, b: seq<byte>, c: seq<byte>)
    requires BinBefore(a, b) && BinBefore(b, c)
    ensures BinBefore(a, c)
  {
    if a != [] && a[0] == b[0] == c[0] {
      BinBeforeTransitive(a[1..], b[1..], c[1..]);
    }
  }

  lemma BeforeTotal(a: QuicData, b: QuicData)
    ensures a == b || Before(a, b) || Before(b, a)
  {
    BinBeforeTotal(a.bin, b.bin);
  }

  lemma BeforeTransitive(a: QuicData, b: QuicData, c: QuicData)
    requires Before(a, b) && Before(b, c)
    ensures Before(a, c)
  {
    if BinBefore(a.bin, b.bin) && BinBefore(b.bin, c.bin) {
      BinBeforeTransitive(a.bin, b.bin, c.bin);
    }
  }

  // Strictly ascending, so every element once.
  ghost predicate OrdSet(s: seq<QuicData>) {
    s == [] || ((forall e :: e in s[1..] ==> Before(s[0], e)) && OrdSet(s[1..]))
  }

  lemma FrontOrdSet(d: QuicData, s: seq<QuicData>)
    requires s != [] && Before(d, s[0])
    ensures OrdSet(s) ==> OrdSet([d] + s)
  {
    if OrdSet(s) {
      assert ([d] + s)[1..] == s;
      forall e | e in s ensures Before(d, e) {
        if e != s[0] {
          assert e in s[1..];
          BeforeTransitive(d, s[0], e);
        }
      }
    }
  }

  lemma BehindOrdSet(d: QuicData, s: seq<QuicData>, r: seq<QuicData>)
    requires s != [] && d != s[0] && !Before(d, s[0])
    requires forall e :: e in r <==> e == d || e in s[1..]
    requires OrdSet(s) ==> OrdSet(r)
    ensures OrdSet(s) ==> OrdSet([s[0]] + r)
  {
    BeforeTotal(d, s[0]);
    assert ([s[0]] + r)[1..] == r;
  }

  // ordsets:add_element/2: an equal element is kept once.
  function AddElement(d: QuicData, s: seq<QuicData>): (r: seq<QuicData>)
    ensures forall e :: e in r <==> e == d || e in s
    ensures d !in s ==> multiset(r) == multiset(s) + multiset{d}
    ensures OrdSet(s) ==> OrdSet(r)
  {
    if s == [] then [d]
    else if d == s[0] then s
    else if Before(d, s[0]) then
      assert OrdSet(s) ==> OrdSet([d] + s) by { FrontOrdSet(d, s); }
      [d] + s
    else
      var r := AddElement(d, s[1..]);
      assert s == [s[0]] + s[1..];
      assert OrdSet(s) ==> OrdSet([s[0]] + r) by { BehindOrdSet(d, s, r); }
      [s[0]] + r
  }

  lemma {:induction false} OrdSetSuffix(a: seq<QuicData>, b: seq<QuicData>)
    requires OrdSet(a + b)
    ensures OrdSet(b)
  {
    if a == [] {
      assert a + b == b;
    } else {
      assert (a + b)[1..] == a[1..] + b;
      OrdSetSuffix(a[1..], b);
    }
  }

  // ---------------------------------------------------------------- defrag

  // Fragments that follow each other without a gap, the first one at `from`.
  ghost predicate Chain(ds: seq<QuicData>, from: nat) {
    ds == [] || (ds[0].offset == from && Chain(ds[1..], from + ds[0].size))
  }

  ghost function TotalSize(ds: seq<QuicData>): nat {
    if ds == [] then 0 else ds[0].size + TotalSize(ds[1..])
  }

  // NoClause: no function clause of defrag_fpbuffer/3 matches.
  datatype Defragged = NoClause | Popped(next: nat, rest: seq<QuicData>, data: seq<QuicData>)

  // Pops the longest gap-free prefix; a head behind the offset matches no clause.
  function Defrag(offset: nat, frags: seq<QuicData>): (r: Defragged)
    ensures r.Popped? ==>
              && frags == r.data + r.rest
              && Chain(r.data, offset)
              && r.next == offset + TotalSize(r.data)
              && (r.rest != [] ==> r.rest[0].offset > r.next)
    decreases |frags|
  {
    if frags == [] then Popped(offset, [], [])
    else if frags[0].offset == offset then
      match Defrag(offset + frags[0].size, frags[1..])
      case NoClause => NoClause
      case Popped(n, rest, data) =>
        assert ([frags[0]] + data)[1..] == data;
        Popped(n, rest, [frags[0]] + data)
    else if frags[0].offset > offset then Popped(offset, frags, [])
    else NoClause
  }

  // ---------------------------------------------------------------- update

  // Crash: update_fpbuffer/2 fails inside defrag_fpbuffer/3.
  datatype UpdateResult = Crash | Updated(data: seq<QuicData>, fb: Buffer)

  function SlowUpdate(d: QuicData, fb: Buffer): UpdateResult {
    match Defrag(fb.nextOffset, AddElement(d, fb.frags))
    case NoClause => Crash
    case Popped(n, rest, data) => Updated(data, Buffer(n, rest))
  }

  function Update(d: QuicData, fb: Buffer): UpdateResult {
    if d.offset == fb.nextOffset && fb.frags == [] then
      Updated([d], Buffer(fb.nextOffset + d.size, []))
    else
      SlowUpdate(d, fb)
  }

  // The fast path is only a shortcut: the general path gives the same result everywhere.
  lemma FastPathAgrees(d: QuicData, fb: Buffer)
    ensures Update(d, fb) == SlowUpdate(d, fb)
  {
    if d.offset == fb.nextOffset && fb.frags == [] {
      assert AddElement(d, []) == [d];
      assert [d][1..] == [];
      assert Defrag(d.offset + d.size, []) == Popped(d.offset + d.size, [], []);
    }
  }

  ghost predicate Disjoint(a: QuicData, b: QuicData) {
    a.End() <= b.offset || b.End() <= a.offset
  }

  // Non-empty fragments sorted by offset, without overlaps.
  ghost predicate Sorted(frags: seq<QuicData>) {
    frags == [] ||
    (frags[0].size > 0 && (forall e :: e in frags[1..] ==> frags[0].End() <= e.offset) && Sorted(frags[1..]))
  }

  // What every update of the buffer keeps: an ordset of future fragments. They may overlap.
  ghost predicate Valid(fb: Buffer) {
    && OrdSet(fb.frags)
    && (forall d :: d in fb.frags ==> d.offset > fb.nextOffset)
  }

  // On a sorted tail that starts no earlier than `offset`, some clause always matches.
  lemma {:induction false} DefragTotal(offset: nat, frags: seq<QuicData>)
    requires Sorted(frags)
    requires frags != [] ==> frags[0].offset >= offset
    ensures Defrag(offset, frags).Popped?
    decreases |frags|
  {
    if frags != [] && frags[0].offset == offset {
      var tail := frags[1..];
      assert tail != [] ==> tail[0] in tail;
      DefragTotal(offset + frags[0].size, tail);
    }
  }

  ghost predicate CollidesAt(from: nat, frags: seq<QuicData>, i: nat)
    requires i < |frags|
  {
    Chain(frags[..i], from) && frags[i].offset < from + TotalSize(frags[..i])
  }

  // The fragments that follow each other without a gap from `from` on lead to one that
  // starts behind their end.
  ghost predicate Collides(from: nat, frags: seq<QuicData>) {
    exists i: nat :: i < |frags| && CollidesAt(from, frags, i)
  }

  lemma CollidesNext(from: nat, frags: seq<QuicData>, i: nat)
    requires i + 1 < |frags|
    ensures CollidesAt(from, frags, i + 1) <==>
            frags[0].offset == from && CollidesAt(from + frags[0].size, frags[1..], i)
  {
    var front, tail := frags[..i + 1], frags[1..];
    assert front[1..] == tail[..i] && front[0] == frags[0] && tail[i] == frags[i + 1];
  }

  lemma CollidesStep(from: nat, frags: seq<QuicData>)
    requires frags != []
    ensures Collides(from, frags) <==>
            frags[0].offset < from || (frags[0].offset == from && Collides(from + frags[0].size, frags[1..]))
  {
    assert frags[..0] == [];
    assert CollidesAt(from, frags, 0) <==> frags[0].offset < from;
    if i: nat :| i < |frags| && CollidesAt(from, frags, i) {
      if i > 0 {
        CollidesNext(from, frags, i - 1);
      }
    }
    var from', tail := from + frags[0].size, frags[1..];
    if i: nat :| i < |tail| && CollidesAt(from', tail, i) {
      CollidesNext(from, frags, i);
    }
  }

  // Exactly when no clause matches at some recursion, for any list at all.
  lemma {:induction false} DefragFailsIff(offset: nat, frags: seq<QuicData>)
    ensures Defrag(offset, frags).NoClause? <==> Collides(offset, frags)
    decreases |frags|
  {
    if frags != [] {
      CollidesStep(offset, frags);
      if frags[0].offset == offset {
        DefragFailsIff(offset + frags[0].size, frags[1..]);
      }
    }
  }

  // A fragment before all buffered ones goes to the front.
  lemma AddFront(d: QuicData, frags: seq<QuicData>)
    requires forall e :: e in frags ==> d.offset < e.offset
    ensures AddElement(d, frags) == [d] + frags
  {
  }

  lemma DefragFront(d: QuicData, fb: Buffer)
    requires d.offset <= fb.nextOffset
    ensures Defrag(fb.nextOffset, [d] + fb.frags).NoClause? <==>
            d.offset < fb.nextOffset || Collides(d.End(), fb.frags)
  {
    assert ([d] + fb.frags)[1..] == fb.frags;
    if d.offset == fb.nextOffset {
      DefragFailsIff(d.End(), fb.frags);
    }
  }

  lemma DefragFuture(offset: nat, frags: seq<QuicData>)
    requires forall e :: e in frags ==> e.offset > offset
    ensures Defrag(offset, frags) == Popped(offset, frags, [])
  {
  }

  // Exactly when an update fails, for any new fragment and any buffer that updates can
  // lead to: the fragment starts behind the next offset, or it is the expected one and
  // what follows it collides.
  lemma CrashIff(d: QuicData, fb: Buffer)
    requires Valid(fb)
    ensures Update(d, fb).Crash? <==>
            d.offset < fb.nextOffset || (d.offset == fb.nextOffset && Collides(d.End(), fb.frags))
  {
    FastPathAgrees(d, fb);
    if d.offset <= fb.nextOffset {
      AddFront(d, fb.frags);
      DefragFront(d, fb);
    } else {
      DefragFuture(fb.nextOffset, AddElement(d, fb.frags));
    }
  }

  // Every update that does not fail keeps that, and forgets no fragment.
  lemma UpdateKeepsValid(d: QuicData, fb: Buffer)
    requires Valid(fb) && Update(d, fb).Updated?
    ensures var r := Update(d, fb);
            && Valid(r.fb)
            && Chain(r.data, fb.nextOffset) && r.fb.nextOffset == fb.nextOffset + TotalSize(r.data)
            && forall e :: e in r.data || e in r.fb.frags <==> e == d || e in fb.frags
  {
    FastPathAgrees(d, fb);
    var r := Defrag(fb.nextOffset, AddElement(d, fb.frags));
    OrdSetSuffix(r.data, r.rest);
    forall e | e in r.rest ensures e.offset > r.next {
      if e != r.rest[0] {
        assert e in r.rest[1..];
      }
    }
    forall e ensures e in r.data || e in r.rest <==> e == d || e in fb.frags {
      assert e in r.data + r.rest <==> e in AddElement(d, fb.frags);
    }
  }

  // ---------------------------------------------------------------- merge

  // Erlang's `bor` on non-negative integers.
  function Bor(a: nat, b: nat): nat {
    if a == 0 then b
    else if b == 0 then a
    else 2 * Bor(a / 2, b / 2) + if a % 2 == 1 || b % 2 == 1 then 1 else 0
  }

  predicate Bit(flags: nat, k: nat) {
    if k == 0 then flags % 2 == 1 else Bit(flags / 2, k - 1)
  }

  lemma {:induction false} NoBits(k: nat)
    ensures !Bit(0, k)
  {
    if k > 0 {
      NoBits(k - 1);
    }
  }

  lemma {:induction false} BorBit(a: nat, b: nat, k: nat)
    ensures Bit(Bor(a, b), k) <==> Bit(a, k) || Bit(b, k)
    decreases k
  {
    NoBits(k);
    if a != 0 && b != 0 {
      var low := if a % 2 == 1 || b % 2 == 1 then 1 else 0;
      assert Bor(a, b) / 2 == Bor(a / 2, b / 2) && Bor(a, b) % 2 == low;
      if k > 0 {
        BorBit(a / 2, b / 2, k - 1);
      }
    }
  }

  datatype Merged = Merged(bin: seq<byte>, size: nat, flags: nat)

  // lists:foldr over the popped fragments; iolist_to_binary joins the binaries.
  function Merge(ds: seq<QuicData>): Merged {
    if ds == [] then Merged([], 0, 0)
    else
      var m := Merge(ds[1..]);
      Merged(ds[0].bin + m.bin, ds[0].size + m.size, Bor(m.flags, ds[0].flags))
  }

  // A flag bit survives the merge exactly when some fragment carried it.
  lemma {:induction false} MergedFlags(ds: seq<QuicData>, k: nat)
    ensures Bit(Merge(ds).flags, k) <==> exists i :: 0 <= i < |ds| && Bit(ds[i].flags, k)
  {
    if ds == [] {
      NoBits(k);
    } else {
      var tail := ds[1..];
      MergedFlags(tail, k);
      BorBit(Merge(tail).flags, ds[0].flags, k);
      if i :| 0 <= i < |tail| && Bit(tail[i].flags, k) {
        assert Bit(ds[i + 1].flags, k);
      }
      if i :| 0 < i < |ds| && Bit(ds[i].flags, k) {
        assert Bit(tail[i - 1].flags, k);
      }
    }
  }
}
