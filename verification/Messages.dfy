/** The data messages that a stream sends to its owner, as the handler of module
    Reassembly takes them. */
module Messages {
  import opened Bytes
  import opened FpBuffer
  import opened Reassembly
  import R = Receive

  function EventOf(o: R.Output): seq<DataEvent> {
    match o
    case Data(offset, bytes, flags) => [DataEvent(bytes, offset, |bytes|, flags)]
    case _ => []
  }

  // The data messages among the outputs of a stream.
  function Events(out: seq<R.Output>): seq<DataEvent> {
    if out == [] then [] else Events(out[..|out| - 1]) + EventOf(out[|out| - 1])
  }

  // Messages that carry, one after the other, the bytes of `stream` from `at` on.
  ghost predicate Consecutive(es: seq<DataEvent>, stream: seq<byte>, at: nat)
    decreases |es|
  {
    if es == [] then at == |stream|
    else
      var last := |es| - 1;
      var e := es[last];
      && e.absoluteOffset <= |stream| && e.bin == stream[e.absoluteOffset..] && e.len == |e.bin| > 0
      && Consecutive(es[..last], stream[..e.absoluteOffset], at)
  }

  lemma ConsecutiveSnoc(es: seq<DataEvent>, stream: seq<byte>, at: nat, bytes: seq<byte>, flags: nat)
    requires Consecutive(es, stream, at) && bytes != []
    ensures Consecutive(es + [DataEvent(bytes, |stream|, |bytes|, flags)], stream + bytes, at)
  {
    var e := DataEvent(bytes, |stream|, |bytes|, flags);
    assert (es + [e])[..|es|] == es;
    assert (stream + bytes)[..|stream|] == stream && (stream + bytes)[|stream|..] == bytes;
  }

  lemma TakeTake<T>(s: seq<T>, a: nat, b: nat)
    requires a <= b <= |s|
    ensures s[..b][..a] == s[..a]
  {
  }

  // Of consecutive messages, those from some point on are consecutive from there.
  lemma {:induction false} ConsecutiveSplit(a: seq<DataEvent>, b: seq<DataEvent>, stream: seq<byte>, at: nat)
      returns (mid: nat)
    requires Consecutive(a + b, stream, at)
    ensures mid <= |stream|
    ensures Consecutive(a, stream[..mid], at) && Consecutive(b, stream, mid)
    decreases |b|
  {
    if b == [] {
      assert a + b == a && stream[..|stream|] == stream;
      mid := |stream|;
    } else {
      var last := |b| - 1;
      assert (a + b)[..|a| + last] == a + b[..last];
      var off := b[last].absoluteOffset;
      mid := ConsecutiveSplit(a, b[..last], stream[..off], at);
      TakeTake(stream, mid, off);
    }
  }

  // Together they carry exactly those bytes.
  lemma {:induction false} ConsecutiveBytes(es: seq<DataEvent>, stream: seq<byte>, at: nat)
    requires Consecutive(es, stream, at)
    ensures at <= |stream| && AppBytes(es) == stream[at..]
    decreases |es|
  {
    if es != [] {
      var last := |es| - 1;
      var off := es[last].absoluteOffset;
      ConsecutiveBytes(es[..last], stream[..off], at);
      assert stream[at..] == stream[..off][at..] + stream[off..];
    }
  }

  // They are the fragments of a chain, each holding its bytes of the stream.
  ghost predicate ChainOf(es: seq<DataEvent>, stream: seq<byte>, at: nat) {
    && Chain(Records(es), at) && at + TotalSize(Records(es)) == |stream|
    && forall e :: e in es ==> e.len > 0 && Holds(ToQuicData(e), stream, 0)
  }

  lemma PrefixSlice<T>(s: seq<T>, n: nat, a: nat, b: nat)
    requires a <= b <= n <= |s|
    ensures s[..n][a..b] == s[a..b]
  {
  }

  lemma ChainOfSnoc(es: seq<DataEvent>, e: DataEvent, stream: seq<byte>, at: nat)
    requires e.absoluteOffset <= |stream| && e.bin == stream[e.absoluteOffset..] && e.len == |e.bin| > 0
    requires ChainOf(es, stream[..e.absoluteOffset], at)
    ensures ChainOf(es + [e], stream, at)
  {
    assert Records(es + [e]) == Records(es) + [ToQuicData(e)];
    assert [ToQuicData(e)][1..] == [];
    ChainAppend(Records(es), [ToQuicData(e)], at);
    forall x | x in es ensures Holds(ToQuicData(x), stream, 0) {
      var d := ToQuicData(x);
      PrefixSlice(stream, e.absoluteOffset, d.offset, d.End());
    }
    assert stream[e.absoluteOffset..|stream|] == e.bin;
  }

  lemma {:induction false} ConsecutiveChain(es: seq<DataEvent>, stream: seq<byte>, at: nat)
    requires Consecutive(es, stream, at)
    ensures ChainOf(es, stream, at)
    decreases |es|
  {
    if es != [] {
      var last := |es| - 1;
      ConsecutiveChain(es[..last], stream[..es[last].absoluteOffset], at);
      ChainOfSnoc(es[..last], es[last], stream, at);
      assert es == es[..last] + [es[last]];
    }
  }
}
