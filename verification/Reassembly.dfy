/** What the reassembly buffer guarantees over whole runs: fragments that arrive in
    any order leave as the ordered byte stream of section 2.2 of RFC 9000. */
module Reassembly {
  import opened Bytes
  import opened FpBuffer

  // ---------------------------------------------------------------- a run of updates

  // Fed collects everything popped so far, in order of popping.
  datatype Feeding = Broken | Fed(out: seq<QuicData>, fb: Buffer)

  function Feed(ds: seq<QuicData>, start: nat): Feeding {
    if ds == [] then Fed([], NewBuffer(start))
    else
      var last := |ds| - 1;
      match Feed(ds[..last], start)
      case Broken => Broken
      case Fed(out, fb) =>
        match Update(ds[last], fb)
        case Crash => Broken
        case Updated(data, fb') => Fed(out + data, fb')
  }

  // Non-empty fragments of the stream from `start` on, no two of which overlap.
  ghost predicate Fragments(ds: seq<QuicData>, start: nat) {
    && (forall i :: 0 <= i < |ds| ==> ds[i].size > 0 && ds[i].offset >= start)
    && (forall i, j :: 0 <= i < j < |ds| ==> Disjoint(ds[i], ds[j]))
  }

  ghost predicate Covers(d: QuicData, x: nat) {
    d.offset <= x < d.End()
  }

  ghost predicate Covered(ds: seq<QuicData>, x: nat) {
    exists d :: d in ds && Covers(d, x)
  }

  lemma {:induction false} ChainAppend(a: seq<QuicData>, b: seq<QuicData>, from: nat)
    requires Chain(a, from) && Chain(b, from + TotalSize(a))
    ensures Chain(a + b, from) && TotalSize(a + b) == TotalSize(a) + TotalSize(b)
  {
    if a == [] {
      assert a + b == b;
    } else {
      assert (a + b)[1..] == a[1..] + b;
      ChainAppend(a[1..], b, from + a[0].size);
    }
  }

  // A chain covers every byte between its ends, and nothing beyond.
  lemma {:induction false} ChainCovers(ds: seq<QuicData>, from: nat)
    requires Chain(ds, from)
    ensures forall x :: from <= x < from + TotalSize(ds) ==> Covered(ds, x)
    ensures forall d :: d in ds ==> from <= d.offset && d.End() <= from + TotalSize(ds)
  {
    if ds != [] {
      ChainCovers(ds[1..], from + ds[0].size);
      forall x | from <= x < from + TotalSize(ds) ensures Covered(ds, x) {
        if x < from + ds[0].size {
          assert ds[0] in ds && Covers(ds[0], x);
        } else {
          assert Covered(ds[1..], x);
          var d :| d in ds[1..] && Covers(d, x);
          assert d in ds;
        }
      }
    }
  }

  // The state of the buffer after the fragments `ds`, no two of which overlap.
  ghost predicate Consistent(ds: seq<QuicData>, start: nat, out: seq<QuicData>, fb: Buffer) {
    && Chain(out, start)
    && fb.nextOffset == start + TotalSize(out)
    && Valid(fb) && Sorted(fb.frags)
    && multiset(out) + multiset(fb.frags) == multiset(ds)
  }

  // A fragment disjoint from all earlier ones never lies behind the next offset.
  lemma NewIsAhead(ds: seq<QuicData>, start: nat, out: seq<QuicData>, fb: Buffer, d: QuicData)
    requires Consistent(ds, start, out, fb)
    requires d.size > 0 && d.offset >= start
    requires forall e :: e in ds ==> Disjoint(e, d)
    ensures d.offset >= fb.nextOffset
    ensures forall e :: e in fb.frags ==> Disjoint(e, d)
  {
    forall e | e in out || e in fb.frags ensures e in ds {
      assert e in multiset(out) + multiset(fb.frags);
    }
    ChainCovers(out, start);
    forall e | e in out ensures !Covers(e, d.offset) {
      assert Disjoint(e, d);
    }
    assert !Covered(out, d.offset);
  }

  // Inserting a disjoint fragment keeps the buffer sorted.
  lemma {:induction false} AddSorted(d: QuicData, s: seq<QuicData>)
    requires Sorted(s) && d.size > 0
    requires forall e :: e in s ==> Disjoint(e, d)
    ensures Sorted(AddElement(d, s)) && d !in s
  {
    if s != [] {
      assert Disjoint(s[0], d);
      AddSorted(d, s[1..]);
      if Before(d, s[0]) {
        assert ([d] + s)[1..] == s;
      } else {
        assert ([s[0]] + AddElement(d, s[1..]))[1..] == AddElement(d, s[1..]);
      }
    }
  }

  lemma {:induction false} SortedSuffix(a: seq<QuicData>, b: seq<QuicData>)
    requires Sorted(a + b)
    ensures Sorted(b)
    ensures b != [] ==> forall e :: e in b ==> b[0].offset <= e.offset
  {
    if a == [] {
      assert a + b == b;
    } else {
      assert (a + b)[1..] == a[1..] + b;
      SortedSuffix(a[1..], b);
    }
  }

  // An update with a fragment that overlaps no buffered one finds a clause.
  lemma UpdateSorted(d: QuicData, fb: Buffer)
    requires Valid(fb) && Sorted(fb.frags) && d.size > 0 && d.offset >= fb.nextOffset
    requires forall e :: e in fb.frags ==> Disjoint(e, d)
    ensures var r := Update(d, fb);
            && r.Updated? && Sorted(r.fb.frags)
            && multiset(r.data) + multiset(r.fb.frags) == multiset(fb.frags) + multiset{d}
  {
    FastPathAgrees(d, fb);
    AddSorted(d, fb.frags);
    var s := AddElement(d, fb.frags);
    DefragTotal(fb.nextOffset, s);
    var r := Defrag(fb.nextOffset, s);
    SortedSuffix(r.data, r.rest);
  }

  // Popping moves fragments from the buffer to the output.
  lemma MovePopped<T>(ds: seq<T>, d: T, out: seq<T>, data: seq<T>, rest: seq<T>, frags: seq<T>)
    requires multiset(out) + multiset(frags) == multiset(ds)
    requires multiset(data) + multiset(rest) == multiset(frags) + multiset{d}
    ensures multiset(out + data) + multiset(rest) == multiset(ds + [d])
  {
    assert multiset(out) + (multiset(data) + multiset(rest)) == (multiset(out) + multiset(data)) + multiset(rest);
  }

  lemma ExtendConsistent(ds: seq<QuicData>, start: nat, out: seq<QuicData>, fb: Buffer, d: QuicData, r: UpdateResult)
    requires Consistent(ds, start, out, fb) && r.Updated? && Valid(r.fb) && Sorted(r.fb.frags)
    requires Chain(r.data, fb.nextOffset) && r.fb.nextOffset == fb.nextOffset + TotalSize(r.data)
    requires multiset(r.data) + multiset(r.fb.frags) == multiset(fb.frags) + multiset{d}
    ensures Consistent(ds + [d], start, out + r.data, r.fb)
  {
    ChainAppend(out, r.data, start);
    MovePopped(ds, d, out, r.data, r.fb.frags, fb.frags);
  }

  // One update keeps the state consistent and never fails.
  lemma UpdateConsistent(ds: seq<QuicData>, start: nat, out: seq<QuicData>, fb: Buffer, d: QuicData)
    requires Consistent(ds, start, out, fb)
    requires d.size > 0 && d.offset >= start
    requires forall e :: e in ds ==> Disjoint(e, d)
    ensures var r := Update(d, fb);
            r.Updated? && Consistent(ds + [d], start, out + r.data, r.fb)
  {
    NewIsAhead(ds, start, out, fb, d);
    UpdateSorted(d, fb);
    UpdateKeepsValid(d, fb);
    ExtendConsistent(ds, start, out, fb, d, Update(d, fb));
  }

  lemma NextIsFirstGap(ds: seq<QuicData>, start: nat, out: seq<QuicData>, fb: Buffer)
    requires Consistent(ds, start, out, fb)
    ensures forall x :: start <= x < fb.nextOffset ==> Covered(ds, x)
    ensures !Covered(ds, fb.nextOffset)
  {
    ChainCovers(out, start);
    forall d | d in out || d in fb.frags ensures d in ds {
      assert d in multiset(out) + multiset(fb.frags);
    }
    forall x | start <= x < fb.nextOffset ensures Covered(ds, x) {
      assert Covered(out, x);
      var d :| d in out && Covers(d, x);
      assert d in ds;
    }
    forall d | d in ds ensures !Covers(d, fb.nextOffset) {
      assert d in multiset(out) + multiset(fb.frags);
    }
  }

  // The buffer after any run: every update succeeds, nothing is lost or invented, the
  // popped fragments form the gap-free prefix, and `nextOffset` is the first byte that
  // no received fragment covers.
  lemma {:induction false} FeedInvariant(ds: seq<QuicData>, start: nat)
    requires Fragments(ds, start)
    ensures Feed(ds, start).Fed?
    ensures var r := Feed(ds, start);
            && Consistent(ds, start, r.out, r.fb)
            && (forall x :: start <= x < r.fb.nextOffset ==> Covered(ds, x))
            && !Covered(ds, r.fb.nextOffset)
  {
    if ds != [] {
      var last := |ds| - 1;
      assert ds == ds[..last] + [ds[last]];
      FeedInvariant(ds[..last], start);
      var p := Feed(ds[..last], start);
      UpdateConsistent(ds[..last], start, p.out, p.fb, ds[last]);
    }
    var r := Feed(ds, start);
    NextIsFirstGap(ds, start, r.out, r.fb);
  }

  // ---------------------------------------------------------------- any fragments

  // The buffer holds an ordset of future fragments, the output is gap-free up to
  // `nextOffset`, and it and the buffer are the received fragments, split there.
  ghost predicate Split(ds: seq<QuicData>, start: nat, out: seq<QuicData>, fb: Buffer) {
    && Valid(fb) && Chain(out, start) && fb.nextOffset == start + TotalSize(out)
    && (forall e :: e in out <==> e in ds && e.offset <= fb.nextOffset)
    && (forall e :: e in fb.frags <==> e in ds && fb.nextOffset < e.offset)
  }

  lemma UpdateSplits(ds: seq<QuicData>, start: nat, out: seq<QuicData>, fb: Buffer, d: QuicData)
    requires Split(ds, start, out, fb) && Update(d, fb).Updated?
    ensures var r := Update(d, fb); Split(ds + [d], start, out + r.data, r.fb)
  {
    UpdateKeepsValid(d, fb);
    var r := Update(d, fb);
    ChainAppend(out, r.data, start);
    ChainCovers(out + r.data, start);
    forall e ensures e in ds + [d] <==> e in out + r.data || e in r.fb.frags {
      assert e in ds <==> e in out || e in fb.frags;
    }
  }

  ghost predicate FeedSplits(ds: seq<QuicData>, start: nat, f: Feeding) {
    f.Fed? && Split(ds, start, f.out, f.fb)
  }

  lemma NothingSplits(start: nat)
    ensures FeedSplits([], start, Feed([], start))
  {
  }

  lemma FeedSnoc(ds: seq<QuicData>, d: QuicData, start: nat)
    ensures var f := Feed(ds, start);
            Feed(ds + [d], start) ==
            if f.Fed? && Update(d, f.fb).Updated? then Fed(f.out + Update(d, f.fb).data, Update(d, f.fb).fb) else Broken
  {
    assert (ds + [d])[..|ds|] == ds;
  }

  // So it is after any run that has not failed, whatever was fed.
  lemma {:induction false} AnyRunSplits(ds: seq<QuicData>, start: nat)
    requires Feed(ds, start).Fed?
    ensures FeedSplits(ds, start, Feed(ds, start))
  {
    if ds == [] {
      NothingSplits(start);
    } else {
      var before, d := ds[..|ds| - 1], ds[|ds| - 1];
      assert before + [d] == ds;
      FeedSnoc(before, d, start);
      AnyRunSplits(before, start);
      UpdateSplits(before, start, Feed(before, start).out, Feed(before, start).fb, d);
    }
  }

  // After any run, any next fragment breaks the buffer exactly when it starts behind the
  // next offset (a fragment sent again, say), or fills the gap and what then follows
  // collides.
  lemma NextFragmentBreaks(ds: seq<QuicData>, start: nat, d: QuicData)
    requires Feed(ds, start).Fed?
    ensures var fb := Feed(ds, start).fb;
            Feed(ds + [d], start).Broken? <==>
            d.offset < fb.nextOffset || (d.offset == fb.nextOffset && Collides(d.End(), fb.frags))
  {
    AnyRunSplits(ds, start);
    FeedSnoc(ds, d, start);
    CrashIff(d, Feed(ds, start).fb);
  }

  lemma {:induction false} ChainApart(ds: seq<QuicData>, from: nat, a: QuicData, b: QuicData)
    requires Chain(ds, from) && a in ds && b in ds && a != b
    ensures Disjoint(a, b)
  {
    var tail := ds[1..];
    ChainCovers(tail, from + ds[0].size);
    if a in tail && b in tail {
      ChainApart(tail, from + ds[0].size, a, b);
    }
  }

  // An overlap ahead of the next offset is accepted, but the run does not get past it.
  lemma OverlapIsNeverPassed(ds: seq<QuicData>, start: nat, a: QuicData, b: QuicData)
    requires Feed(ds, start).Fed?
    requires a in ds && b in ds && a != b && !Disjoint(a, b)
    ensures Feed(ds, start).fb.nextOffset < a.offset && Feed(ds, start).fb.nextOffset < b.offset
  {
    AnyRunSplits(ds, start);
    var r := Feed(ds, start);
    ChainCovers(r.out, start);
    if a in r.out && b in r.out {
      ChainApart(r.out, start, a, b);
    }
  }

  lemma AcceptsAhead(start: nat, a: QuicData, b: QuicData)
    requires start < a.offset && start < b.offset
    ensures Feed([a, b], start).Fed?
  {
    assert Feed([], start) == Fed([], NewBuffer(start));
    NextFragmentBreaks([], start, a);
    assert [] + [a] == [a];
    FeedSnoc([], a, start);
    DefragFuture(start, [a]);
    NextFragmentBreaks([a], start, b);
    assert [a] + [b] == [a, b];
  }

  // So the process fails later, on a fragment that overlaps nothing.
  lemma InnocentFragmentCrashes(start: nat, a: QuicData, b: QuicData, c: QuicData)
    requires c.size > 0 && c.offset == start && c.End() == a.offset <= b.offset
    requires a != b && !Disjoint(a, b)
    ensures Feed([a, b], start).Fed? && Disjoint(a, c) && Disjoint(b, c)
    ensures Feed([a, b, c], start).Broken?
  {
    AcceptsAhead(start, a, b);
    if Feed([a, b, c], start).Fed? {
      OverlapIsNeverPassed([a, b, c], start, a, b);
      AnyRunSplits([a, b, c], start);
      ChainCovers(Feed([a, b, c], start).out, start);
    }
  }

  // Different, non-empty fragments from `start` on that leave no gap among them.
  ghost predicate Complete(ds: seq<QuicData>, start: nat) {
    && (forall d :: d in ds ==> d.size > 0 && d.offset >= start)
    && (forall i, j :: 0 <= i < j < |ds| ==> ds[i] != ds[j])
    && (forall d, x :: d in ds && start <= x < d.offset ==> Covered(ds, x))
  }

  lemma NextIsUncovered(ds: seq<QuicData>, start: nat)
    requires Feed(ds, start).Fed?
    ensures Feed(ds, start).fb.nextOffset >= start
    ensures !Covered(ds, Feed(ds, start).fb.nextOffset)
  {
    AnyRunSplits(ds, start);
    ChainCovers(Feed(ds, start).out, start);
  }

  lemma CompleteRunIsDisjoint(ds: seq<QuicData>, start: nat, a: QuicData, b: QuicData)
    requires Complete(ds, start) && Feed(ds, start).Fed?
    requires a in ds && b in ds && a != b
    ensures Disjoint(a, b)
  {
    NextIsUncovered(ds, start);
    if !Disjoint(a, b) {
      OverlapIsNeverPassed(ds, start, a, b);
      assert false;
    }
  }

  // Once all the bytes are there, the order of arrival does not matter: the run has failed
  // if and only if two of the fragments overlap.
  lemma CompleteRunFailsIff(ds: seq<QuicData>, start: nat)
    requires Complete(ds, start)
    ensures Feed(ds, start).Fed? <==> Fragments(ds, start)
  {
    if Fragments(ds, start) {
      FeedInvariant(ds, start);
    }
    forall i, j | Feed(ds, start).Fed? && 0 <= i < j < |ds| ensures Disjoint(ds[i], ds[j]) {
      CompleteRunIsDisjoint(ds, start, ds[i], ds[j]);
    }
  }

  // ---------------------------------------------------------------- bytes

  // The fragment holds the bytes of the stream at its place; stream[0] is at `start`.
  ghost predicate Holds(d: QuicData, stream: seq<byte>, start: nat) {
    start <= d.offset && d.End() <= start + |stream|
    && d.bin == stream[d.offset - start..d.End() - start]
  }

  // A chain of stream fragments is a slice of the stream, and merging yields that slice.
  lemma {:induction false} ChainBytes(ds: seq<QuicData>, from: nat, stream: seq<byte>, start: nat)
    requires Chain(ds, from) && start <= from <= start + |stream|
    requires forall d :: d in ds ==> Holds(d, stream, start)
    ensures from + TotalSize(ds) <= start + |stream|
    ensures Merge(ds).bin == stream[from - start..from - start + TotalSize(ds)]
    ensures Merge(ds).size == TotalSize(ds)
  {
    if ds != [] {
      assert Holds(ds[0], stream, start);
      ChainBytes(ds[1..], from + ds[0].size, stream, start);
      var a := from - start;
      SliceJoin(stream, a, a + ds[0].size, a + ds[0].size + TotalSize(ds[1..]));
    }
  }

  // ---------------------------------------------------------------- quicer_stream

  // The data message {quic, Bin, Stream, Props}.
  datatype DataEvent = DataEvent(bin: seq<byte>, absoluteOffset: nat, len: nat, flags: nat)

  function ToQuicData(e: DataEvent): QuicData {
    QuicData(e.absoluteOffset, e.len, e.flags, e.bin)
  }

  datatype FpOption = Disabled | Enabled(fb: Buffer)

  // What handle_info does with one data message: Failed is a function_clause error in
  // defrag_fpbuffer, Kept buffers it, Delivered calls handle_stream_data.
  datatype Handled =
    | Failed
    | Kept(fp: FpOption)
    | Delivered(fp: FpOption, app: DataEvent)

  function HandleInfo(e: DataEvent, fp: FpOption): Handled {
    match fp
    case Disabled => Delivered(fp, e)
    case Enabled(fb) =>
      match Update(ToQuicData(e), fb)
      case Crash => Failed
      case Updated(data, fb') =>
        if data == [] then Kept(Enabled(fb'))
        else
          var m := Merge(data);
          Delivered(Enabled(fb'), DataEvent(m.bin, e.absoluteOffset, m.size, m.flags))
  }

  // The data messages of one stream, handled one after the other.
  datatype Handling = Died | Served(apps: seq<DataEvent>, fp: FpOption)

  function HandleAll(es: seq<DataEvent>, fp: FpOption): Handling {
    if es == [] then Served([], fp)
    else
      var last := |es| - 1;
      match HandleAll(es[..last], fp)
      case Died => Died
      case Served(apps, fp') =>
        match HandleInfo(es[last], fp')
        case Failed => Died
        case Kept(fp'') => Served(apps, fp'')
        case Delivered(fp'', app) => Served(apps + [app], fp'')
  }

  // Without a buffer the callback gets every message as it came, in order of arrival.
  lemma {:induction false} DisabledPassesThrough(es: seq<DataEvent>)
    ensures HandleAll(es, Disabled) == Served(es, Disabled)
  {
    if es != [] {
      var last := |es| - 1;
      DisabledPassesThrough(es[..last]);
      assert es == es[..last] + [es[last]];
    }
  }

  ghost function Records(es: seq<DataEvent>): seq<QuicData> {
    seq(|es|, i requires 0 <= i < |es| => ToQuicData(es[i]))
  }

  ghost function AppBytes(apps: seq<DataEvent>): seq<byte> {
    if apps == [] then [] else AppBytes(apps[..|apps| - 1]) + apps[|apps| - 1].bin
  }

  // Each callback gets non-empty bytes, its offset is where those bytes start in the
  // stream, and its length is their number.
  ghost predicate WellLabelled(apps: seq<DataEvent>, start: nat) {
    apps == [] ||
    var last := |apps| - 1;
    && WellLabelled(apps[..last], start)
    && apps[last].absoluteOffset == start + |AppBytes(apps[..last])|
    && apps[last].len == |apps[last].bin| > 0
  }

  // Popping something means the triggering fragment was the expected one.
  lemma PoppedStartsHere(d: QuicData, fb: Buffer)
    requires Valid(fb) && Update(d, fb).Updated?
    ensures Update(d, fb).data != [] <==> d.offset == fb.nextOffset
    ensures Update(d, fb).data != [] ==> Update(d, fb).data[0] == d
  {
    CrashIff(d, fb);
    FastPathAgrees(d, fb);
    if d.offset == fb.nextOffset {
      AddFront(d, fb.frags);
    } else {
      DefragFuture(fb.nextOffset, AddElement(d, fb.frags));
    }
  }

  lemma PoppedChain(d: QuicData, fb: Buffer)
    requires Valid(fb) && Update(d, fb).Updated?
    ensures Chain(Update(d, fb).data, fb.nextOffset)
    ensures Update(d, fb).fb.nextOffset == fb.nextOffset + TotalSize(Update(d, fb).data)
  {
    UpdateKeepsValid(d, fb);
  }

  // Fragments of `stream`, as data messages in order of arrival.
  ghost predicate Arrivals(es: seq<DataEvent>, stream: seq<byte>, start: nat) {
    && Fragments(Records(es), start)
    && forall i :: 0 <= i < |es| ==> Holds(ToQuicData(es[i]), stream, start)
  }

  // What the handler has done after some messages of the stream.
  ghost predicate PrefixServed(r: Handling, f: Feeding, stream: seq<byte>, start: nat) {
    && f.Fed? && r.Served? && r.fp == Enabled(f.fb)
    && start <= f.fb.nextOffset <= start + |stream|
    && AppBytes(r.apps) == stream[..f.fb.nextOffset - start]
    && WellLabelled(r.apps, start)
  }

  lemma MergedLabel(data: seq<QuicData>, from: nat, stream: seq<byte>, start: nat)
    requires data != [] && Chain(data, from) && start <= from <= start + |stream|
    requires forall d :: d in data ==> Holds(d, stream, start) && d.size > 0
    ensures var next := from + TotalSize(data);
            && from < next <= start + |stream|
            && Merge(data).bin == stream[from - start..next - start]
            && Merge(data).size == |Merge(data).bin|
  {
    assert data[0] in data;
    ChainBytes(data, from, stream, start);
  }

  lemma LabelOf(e: DataEvent, fb: Buffer, u: UpdateResult, stream: seq<byte>, start: nat)
    requires u == Update(ToQuicData(e), fb) && u.Updated? && start <= fb.nextOffset <= start + |stream|
    requires Chain(u.data, fb.nextOffset) && u.fb.nextOffset == fb.nextOffset + TotalSize(u.data)
    requires u.data != [] ==> e.absoluteOffset == fb.nextOffset
    requires forall d :: d in u.data ==> Holds(d, stream, start) && d.size > 0
    ensures var h := HandleInfo(e, Enabled(fb));
            && !h.Failed? && h.fp == Enabled(u.fb)
            && (h.Kept? ==> u.fb.nextOffset == fb.nextOffset)
            && (h.Delivered? ==>
                  && fb.nextOffset == h.app.absoluteOffset < u.fb.nextOffset <= start + |stream|
                  && h.app.bin == stream[fb.nextOffset - start..u.fb.nextOffset - start]
                  && h.app.len == |h.app.bin|)
  {
    if u.data != [] {
      MergedLabel(u.data, fb.nextOffset, stream, start);
    }
  }

  // What the callback gets for one message: the next bytes of the stream, starting where
  // the message itself starts, counted by `len`,
  lemma DeliveryLabel(e: DataEvent, fb: Buffer, stream: seq<byte>, start: nat)
    requires Valid(fb) && start <= fb.nextOffset <= start + |stream|
    requires var u := Update(ToQuicData(e), fb);
             u.Updated? && forall d :: d in u.data ==> Holds(d, stream, start) && d.size > 0
    ensures var h := HandleInfo(e, Enabled(fb));
            var u := Update(ToQuicData(e), fb);
            && !h.Failed? && h.fp == Enabled(u.fb)
            && (h.Kept? ==> u.fb.nextOffset == fb.nextOffset)
            && (h.Delivered? ==>
                  && fb.nextOffset == h.app.absoluteOffset < u.fb.nextOffset <= start + |stream|
                  && h.app.bin == stream[fb.nextOffset - start..u.fb.nextOffset - start]
                  && h.app.len == |h.app.bin|)
  {
    var d := ToQuicData(e);
    PoppedStartsHere(d, fb);
    PoppedChain(d, fb);
    LabelOf(e, fb, Update(d, fb), stream, start);
  }

  // with every flag of the merged fragments and no other.
  lemma DeliveryFlags(e: DataEvent, fb: Buffer, k: nat)
    requires HandleInfo(e, Enabled(fb)).Delivered?
    ensures var data := Update(ToQuicData(e), fb).data;
            Bit(HandleInfo(e, Enabled(fb)).app.flags, k) <==> exists i :: 0 <= i < |data| && Bit(data[i].flags, k)
  {
    MergedFlags(Update(ToQuicData(e), fb).data, k);
  }

  // Some message carries the flag bit.
  ghost predicate FlagSeen(es: seq<DataEvent>, k: nat) {
    exists i :: 0 <= i < |es| && Bit(es[i].flags, k)
  }

  ghost predicate FlagIn(ds: seq<QuicData>, k: nat) {
    exists i :: 0 <= i < |ds| && Bit(ds[i].flags, k)
  }

  lemma FlagSeenSnoc(es: seq<DataEvent>, e: DataEvent, k: nat)
    ensures FlagSeen(es + [e], k) <==> FlagSeen(es, k) || Bit(e.flags, k)
  {
    assert (es + [e])[|es|] == e;
    forall i | 0 <= i < |es| ensures (es + [e])[i] == es[i] {}
  }

  lemma FlagInConcat(a: seq<QuicData>, b: seq<QuicData>, k: nat)
    ensures FlagIn(a + b, k) <==> FlagIn(a, k) || FlagIn(b, k)
  {
    forall i | 0 <= i < |b| ensures (a + b)[|a| + i] == b[i] {}
    forall i | 0 <= i < |a| ensures (a + b)[i] == a[i] {}
  }

  lemma FlagsOne(apps: seq<DataEvent>, out: seq<QuicData>, e: DataEvent, fb: Buffer, k: nat)
    requires !HandleInfo(e, Enabled(fb)).Failed? && (FlagSeen(apps, k) <==> FlagIn(out, k))
    ensures var h := HandleInfo(e, Enabled(fb));
            FlagSeen(if h.Kept? then apps else apps + [h.app], k) <==> FlagIn(out + Update(ToQuicData(e), fb).data, k)
  {
    var data := Update(ToQuicData(e), fb).data;
    FlagInConcat(out, data, k);
    if data == [] {
      assert out + data == out;
    } else {
      DeliveryFlags(e, fb, k);
      FlagSeenSnoc(apps, HandleInfo(e, Enabled(fb)).app, k);
    }
  }

  // Over any run, the callback has seen a flag exactly when a popped fragment carried it.
  lemma {:induction false} FlagsPopped(es: seq<DataEvent>, start: nat, k: nat)
    requires HandleAll(es, Enabled(NewBuffer(start))).Served?
    ensures Feed(Records(es), start).Fed?
    ensures HandleAll(es, Enabled(NewBuffer(start))).fp == Enabled(Feed(Records(es), start).fb)
    ensures FlagSeen(HandleAll(es, Enabled(NewBuffer(start))).apps, k) <==> FlagIn(Feed(Records(es), start).out, k)
  {
    if es != [] {
      var before, e := es[..|es| - 1], es[|es| - 1];
      FlagsPopped(before, start, k);
      var r, f := HandleAll(before, Enabled(NewBuffer(start))), Feed(Records(before), start);
      assert Records(es) == Records(before) + [ToQuicData(e)];
      FeedSnoc(Records(before), ToQuicData(e), start);
      FlagsOne(r.apps, f.out, e, f.fb, k);
    }
  }

  // Once the buffer is empty again, it has seen exactly the flags of the messages.
  lemma FlagsDelivered(es: seq<DataEvent>, start: nat, k: nat)
    requires var r := HandleAll(es, Enabled(NewBuffer(start))); r.Served? && r.fp.Enabled? && r.fp.fb.frags == []
    ensures FlagSeen(HandleAll(es, Enabled(NewBuffer(start))).apps, k) <==> FlagSeen(es, k)
  {
    FlagsPopped(es, start, k);
    AnyRunSplits(Records(es), start);
    var out := Feed(Records(es), start).out;
    if FlagIn(out, k) {
      var i :| 0 <= i < |out| && Bit(out[i].flags, k);
      assert out[i] in Records(es);
      var j :| 0 <= j < |es| && Records(es)[j] == out[i];
      assert Bit(es[j].flags, k);
    }
    if FlagSeen(es, k) {
      var j :| 0 <= j < |es| && Bit(es[j].flags, k);
      assert Records(es)[j] in out;
      var i :| 0 <= i < |out| && out[i] == Records(es)[j];
      assert Bit(out[i].flags, k);
    }
  }

  // One more callback, with the next bytes.
  lemma LabelOne(apps: seq<DataEvent>, app: DataEvent, stream: seq<byte>, start: nat, next: nat)
    requires WellLabelled(apps, start) && |AppBytes(apps)| < next <= |stream|
    requires AppBytes(apps) == stream[..|AppBytes(apps)|] && app.bin == stream[|AppBytes(apps)|..next]
    requires app.absoluteOffset == start + |AppBytes(apps)| && app.len == |app.bin|
    ensures WellLabelled(apps + [app], start)
    ensures AppBytes(apps + [app]) == stream[..next]
  {
    assert (apps + [app])[..|apps|] == apps;
    SliceJoin(stream, 0, |AppBytes(apps)|, next);
  }

  // One more message, that delivers nothing or the bytes up to the new next offset.
  lemma ExtendServed(r: Handling, f: Feeding, h: Handled, g: Feeding, stream: seq<byte>, start: nat)
    requires PrefixServed(r, f, stream, start) && g.Fed? && !h.Failed? && h.fp == Enabled(g.fb)
    requires h.Kept? ==> g.fb.nextOffset == f.fb.nextOffset
    requires h.Delivered? ==>
               && f.fb.nextOffset == h.app.absoluteOffset < g.fb.nextOffset <= start + |stream|
               && h.app.bin == stream[f.fb.nextOffset - start..g.fb.nextOffset - start]
               && h.app.len == |h.app.bin|
    ensures PrefixServed(Served(if h.Kept? then r.apps else r.apps + [h.app], h.fp), g, stream, start)
  {
    if h.Delivered? {
      LabelOne(r.apps, h.app, stream, start, g.fb.nextOffset - start);
    }
  }

  // One more message extends the prefix by exactly the popped fragments.
  lemma ServeOne(r: Handling, f: Feeding, e: DataEvent, stream: seq<byte>, start: nat)
    requires PrefixServed(r, f, stream, start)
    requires Valid(f.fb)
    requires var u := Update(ToQuicData(e), f.fb);
             u.Updated? && forall d :: d in u.data ==> Holds(d, stream, start) && d.size > 0
    ensures var u := Update(ToQuicData(e), f.fb);
            var h := HandleInfo(e, r.fp);
            && !h.Failed?
            && PrefixServed(Served(if h.Kept? then r.apps else r.apps + [h.app], h.fp),
                            Fed(f.out + u.data, u.fb), stream, start)
  {
    DeliveryLabel(e, f.fb, stream, start);
    var u := Update(ToQuicData(e), f.fb);
    ExtendServed(r, f, HandleInfo(e, r.fp), Fed(f.out + u.data, u.fb), stream, start);
  }

  // Everything popped or still buffered is one of the received fragments.
  lemma FedHold(es: seq<DataEvent>, stream: seq<byte>, start: nat)
    requires Arrivals(es, stream, start)
    ensures var f := Feed(Records(es), start);
            && f.Fed?
            && forall d :: d in f.out || d in f.fb.frags ==> Holds(d, stream, start) && d.size > 0
  {
    FeedInvariant(Records(es), start);
    var f := Feed(Records(es), start);
    forall d | d in f.out || d in f.fb.frags ensures d in Records(es) {
      assert d in multiset(f.out) + multiset(f.fb.frags);
    }
  }

  lemma NextHolds(before: seq<DataEvent>, e: DataEvent, stream: seq<byte>, start: nat)
    requires Arrivals(before, stream, start) && Arrivals(before + [e], stream, start)
    ensures var f := Feed(Records(before), start);
            && f.Fed? && Valid(f.fb)
            && var u := Update(ToQuicData(e), f.fb);
            && u.Updated? && Feed(Records(before + [e]), start) == Fed(f.out + u.data, u.fb)
            && forall d :: d in u.data ==> Holds(d, stream, start) && d.size > 0
  {
    FeedInvariant(Records(before), start);
    FedHold(before + [e], stream, start);
    assert Records(before + [e]) == Records(before) + [ToQuicData(e)];
    FeedSnoc(Records(before), ToQuicData(e), start);
  }

  // The callback sees the prefix of the stream that the received bytes allow, in
  // order and correctly labelled; the handler never crashes.
  lemma {:induction false} DeliversPrefix(es: seq<DataEvent>, stream: seq<byte>, start: nat)
    requires Arrivals(es, stream, start)
    ensures PrefixServed(HandleAll(es, Enabled(NewBuffer(start))), Feed(Records(es), start), stream, start)
  {
    if es != [] {
      var last := |es| - 1;
      assert es == es[..last] + [es[last]] && Records(es)[..last] == Records(es[..last]);
      DeliversPrefix(es[..last], stream, start);
      NextHolds(es[..last], es[last], stream, start);
      ServeOne(HandleAll(es[..last], Enabled(NewBuffer(start))), Feed(Records(es[..last]), start),
               es[last], stream, start);
    }
  }

  // ---------------------------------------------------------------- any order

  // A cut of the stream into contiguous, non-empty fragments.
  ghost predicate Cut(es: seq<DataEvent>, stream: seq<byte>, start: nat) {
    && Chain(Records(es), start) && TotalSize(Records(es)) == |stream|
    && forall i :: 0 <= i < |es| ==> es[i].len > 0 && Holds(ToQuicData(es[i]), stream, start)
  }

  lemma {:induction false} ChainDisjoint(ds: seq<QuicData>, from: nat)
    requires Chain(ds, from) && forall d :: d in ds ==> d.size > 0
    ensures Fragments(ds, from)
  {
    if ds != [] {
      var tail := ds[1..];
      ChainDisjoint(tail, from + ds[0].size);
      ChainCovers(tail, from + ds[0].size);
      forall i, j | 0 <= i < j < |ds| ensures Disjoint(ds[i], ds[j]) {
        assert ds[j] == tail[j - 1];
        assert i > 0 ==> ds[i] == tail[i - 1];
      }
      assert forall i :: 0 < i < |ds| ==> ds[i] == tail[i - 1];
    }
  }

  lemma TwoPlaces<T>(s: seq<T>, i: nat, j: nat)
    requires i < j < |s|
    ensures multiset(s) >= multiset{s[i], s[j]}
  {
    assert s == s[..i] + [s[i]] + s[i + 1..j] + [s[j]] + s[j + 1..];
  }

  lemma {:induction false} NoRepeats<T>(s: seq<T>, x: T)
    requires forall a, b :: 0 <= a < b < |s| ==> s[a] != s[b]
    ensures multiset(s)[x] <= 1
  {
    if s != [] {
      assert s == [s[0]] + s[1..];
      NoRepeats(s[1..], x);
      assert s[0] !in s[1..];
    }
  }

  // Two places of a permutation come from two places of a sequence without repetitions.
  lemma PairOfPermutation<T>(s: seq<T>, p: seq<T>, i: nat, j: nat) returns (k: nat, l: nat)
    requires multiset(s) == multiset(p) && i < j < |p|
    requires forall a, b :: 0 <= a < b < |s| ==> s[a] != s[b]
    ensures k < |s| && l < |s| && k != l && s[k] == p[i] && s[l] == p[j]
  {
    TwoPlaces(p, i, j);
    NoRepeats(s, p[i]);
    assert p[i] in multiset(s) && p[j] in multiset(s);
    k :| 0 <= k < |s| && s[k] == p[i];
    l :| 0 <= l < |s| && s[l] == p[j];
  }

  lemma SameRecords(a: seq<DataEvent>, b: seq<DataEvent>, d: QuicData)
    requires multiset(a) == multiset(b) && d in Records(a)
    ensures d in Records(b)
  {
    var i :| 0 <= i < |a| && ToQuicData(a[i]) == d;
    assert a[i] in multiset(b);
    var j :| 0 <= j < |b| && b[j] == a[i];
    assert Records(b)[j] == d;
  }

  lemma CutIsDisjoint(cut: seq<DataEvent>, stream: seq<byte>, start: nat, i: nat, j: nat)
    requires Cut(cut, stream, start) && i < j < |cut|
    ensures Disjoint(ToQuicData(cut[i]), ToQuicData(cut[j])) && cut[i] != cut[j]
  {
    var all := Records(cut);
    ChainDisjoint(all, start);
    assert Disjoint(all[i], all[j]);
  }

  lemma PermutedDisjoint(cut: seq<DataEvent>, es: seq<DataEvent>, stream: seq<byte>, start: nat, i: nat, j: nat)
    requires Cut(cut, stream, start) && multiset(es) == multiset(cut) && i < j < |es|
    ensures Disjoint(ToQuicData(es[i]), ToQuicData(es[j]))
  {
    forall a, b | 0 <= a < b < |cut| ensures cut[a] != cut[b] {
      CutIsDisjoint(cut, stream, start, a, b);
    }
    var k, l := PairOfPermutation(cut, es, i, j);
    CutIsDisjoint(cut, stream, start, if k < l then k else l, if k < l then l else k);
  }

  lemma PermutedHolds(cut: seq<DataEvent>, e: DataEvent, stream: seq<byte>, start: nat)
    requires Cut(cut, stream, start) && e in multiset(cut)
    ensures e.len > 0 && Holds(ToQuicData(e), stream, start)
  {
    var i :| 0 <= i < |cut| && cut[i] == e;
  }

  lemma PermutedArrivals(cut: seq<DataEvent>, es: seq<DataEvent>, stream: seq<byte>, start: nat)
    requires Cut(cut, stream, start)
    requires multiset(es) == multiset(cut)
    ensures Arrivals(es, stream, start)
  {
    forall i | 0 <= i < |es| ensures es[i].len > 0 && Holds(ToQuicData(es[i]), stream, start) {
      PermutedHolds(cut, es[i], stream, start);
    }
    forall i, j | 0 <= i < j < |es| ensures Disjoint(ToQuicData(es[i]), ToQuicData(es[j])) {
      PermutedDisjoint(cut, es, stream, start, i, j);
    }
  }

  // For any cut of a stream and any order of arrival, the callback receives exactly the
  // stream, and the buffer ends empty at the end of the stream.
  lemma AnyOrderDelivers(cut: seq<DataEvent>, es: seq<DataEvent>, stream: seq<byte>, start: nat)
    requires Cut(cut, stream, start)
    requires multiset(es) == multiset(cut)
    ensures var r := HandleAll(es, Enabled(NewBuffer(start)));
            && r.Served? && r.fp == Enabled(Buffer(start + |stream|, []))
            && AppBytes(r.apps) == stream
            && WellLabelled(r.apps, start)
  {
    PermutedArrivals(cut, es, stream, start);
    DeliversPrefix(es, stream, start);
    FeedInvariant(Records(es), start);
    var f := Feed(Records(es), start);
    var all := Records(cut);
    ChainCovers(all, start);
    forall x | start <= x < start + |stream| ensures Covered(Records(es), x) {
      assert Covered(all, x);
      var d :| d in all && Covers(d, x);
      SameRecords(cut, es, d);
    }
    FedHold(es, stream, start);
  }
}
