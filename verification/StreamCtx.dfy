/** The stream context of c_src/quicer_ctx.h as a mutable object, and the functions that
    update it under its lock: `handle_stream_event_recv`, `recv2`, `recvbuffer_flush`,
    `reset_stream_recv` (c_src/quicer_stream.c) and the `active` branch of
    `set_stream_opt` (c_src/quicer_config.c). Each is proved against the step functions
    of module Receive. */
module StreamCtx {
  import opened Bytes
  import opened RecvMode
  import opened Receive

  // The bytes of consecutive buffers.
  function Flat(bufs: seq<seq<byte>>): seq<byte> {
    if bufs == [] then [] else Flat(bufs[..|bufs| - 1]) + bufs[|bufs| - 1]
  }

  lemma {:induction false} FlatPrefix(bufs: seq<seq<byte>>, i: nat)
    requires i <= |bufs|
    ensures Flat(bufs[..i]) <= Flat(bufs)
  {
    if i == |bufs| {
      assert bufs[..i] == bufs;
    } else {
      FlatPrefix(bufs[..|bufs| - 1], i);
      assert bufs[..|bufs| - 1][..i] == bufs[..i];
    }
  }

  // While bytes are missing there is a next buffer, and its bytes come next.
  lemma FlatNext(bufs: seq<seq<byte>>, i: nat, dest: nat)
    requires i <= |bufs| && dest == |Flat(bufs[..i])| < |Flat(bufs)|
    ensures i < |bufs| && dest + |bufs[i]| <= |Flat(bufs)|
    ensures Flat(bufs)[dest..dest + |bufs[i]|] == bufs[i]
    ensures |Flat(bufs[..i + 1])| == dest + |bufs[i]|
  {
    assert bufs[..|bufs|] == bufs;
    FlatPrefix(bufs, i + 1);
    assert bufs[..i + 1][..i] == bufs[..i];
  }

  // CxPlatCopyMemory into the binary under construction.
  method CopyMemory(dest: array<byte>, at: nat, src: seq<byte>, n: nat)
    requires n <= |src| && at + n <= dest.Length
    modifies dest
    ensures dest[..] == old(dest[..at]) + src[..n] + old(dest[at + n..])
  {
    forall k | 0 <= k < n {
      dest[at + k] := src[k];
    }
  }

  // recvbuffer_flush: fills a fresh binary with the first `reqLen` bytes of the buffers,
  // or with all of them for 0. `total` is TotalBufferLength.
  method FlushBuffers(buffers: seq<seq<byte>>, total: nat, reqLen: nat) returns (bin: array<byte>)
    requires total == |Flat(buffers)| && 0 < total && reqLen <= total
    ensures fresh(bin)
    ensures bin[..] == Flat(buffers)[..if reqLen == 0 then total else reqLen]
  {
    var size := if reqLen == 0 then total else reqLen;
    bin := new byte[size](_ => 0);
    var dest := 0;
    var i := 0;
    while size > 0
      invariant 0 <= dest && 0 <= size && dest + size == bin.Length <= total
      invariant 0 <= i <= |buffers|
      invariant size > 0 ==> dest == |Flat(buffers[..i])|
      invariant bin[..dest] == Flat(buffers)[..dest]
      decreases size, |buffers| - i
    {
      FlatNext(buffers, i, dest);
      if |buffers[i]| <= size {
        CopyMemory(bin, dest, buffers[i], |buffers[i]|);
        dest := dest + |buffers[i]|;
        size := size - |buffers[i]|;
      } else {
        CopyMemory(bin, dest, buffers[i], size);
        dest := dest + size;
        size := 0;
      }
      i := i + 1;
    }
    assert bin[..dest] == bin[..];
  }

  /** The MsQuic stream: what the receive calls of its API change. */
  class MsQuicStream {
    var rx: seq<byte>
    var consumed: nat
    var lent: nat
    var enabled: bool
    var shutdown: bool

    constructor ()
      ensures rx == [] && consumed == 0 && lent == 0 && enabled && !shutdown
    {
      rx, consumed, lent, enabled, shutdown := [], 0, 0, true, false;
    }

    method ReceiveComplete(k: nat)
      modifies this
      ensures rx == old(rx) && shutdown == old(shutdown)
      ensures if old(lent) == 0 then unchanged(this)
              else consumed == old(consumed) + k && lent == 0 && enabled == (old(enabled) && k == old(lent))
    {
      if lent > 0 {
        enabled := enabled && k == lent;
        consumed := consumed + k;
        lent := 0;
      }
    }
  }

  // The size of `Buffers`: MsQuic shows received bytes in at most two pieces.
  const MAX_BUFFERS := 2

  /** QuicerStreamCTX, its owner, and its MsQuic handle. */
  class Stream {
    const owner: Acceptor
    const msquic: MsQuicStream
    var buffers: seq<seq<byte>>
    var totalBufferLength: nat
    var isRecvPending: bool
    var isWaitForData: bool

    ghost predicate Valid()
      reads this
    {
      totalBufferLength == |Flat(buffers)| && |buffers| <= MAX_BUFFERS
    }

    ghost function Value(): State
      reads this, owner, msquic
    {
      State(owner.Value(), Flat(buffers), isRecvPending, isWaitForData,
            msquic.rx, msquic.consumed, msquic.lent, msquic.enabled)
    }

    constructor (owner: Acceptor, msquic: MsQuicStream)
      ensures Valid() && this.owner == owner && this.msquic == msquic
      ensures Value() == Init(owner.Value()).(rx := msquic.rx, consumed := msquic.consumed,
                                              lent := msquic.lent, enabled := msquic.enabled)
    {
      this.owner, this.msquic := owner, msquic;
      buffers, totalBufferLength := [], 0;
      isRecvPending, isWaitForData := false, false;
      new;
      assert Flat(buffers) == [];
    }

    // reset_stream_recv
    method ResetRecv()
      modifies this
      ensures Valid() && Flat(buffers) == [] && !isRecvPending
      ensures isWaitForData == old(isWaitForData)
    {
      buffers := [];
      isRecvPending := false;
      totalBufferLength := 0;
    }

    // handle_stream_event_recv, for a RECEIVE event that shows `shown`. MsQuic takes the
    // returned status as its answer: PENDING lends the bytes, SUCCESS consumes them. `out` is
    // what is sent; of the sends to a dead owner, only that of a `continue` is looked at.
    method HandleRecv(shown: seq<seq<byte>>, total: nat, flags: nat, ownerAlive: bool) returns (out: seq<Output>)
      requires Valid() && |shown| <= MAX_BUFFERS && total == |Flat(shown)|
      requires CanIndicate(Value(), total)
      requires Flat(shown) == msquic.rx[msquic.consumed..msquic.consumed + total]
      modifies this, owner, msquic
      ensures Valid()
      ensures Result(Value(), out) == Step(old(Value()), Indicate(total, flags))
      ensures msquic.shutdown == (old(msquic.shutdown) || (out == [ContinueMsg] && !ownerAlive))
    {
      buffers := shown;
      totalBufferLength := total;
      out := [];
      if total == 0 {
        return;
      }
      if owner.mode == Passive {
        isRecvPending := true;
        msquic.lent := total;
        if isWaitForData {
          out := [ContinueMsg];
          if !ownerAlive {
            msquic.shutdown := true;
          }
        }
      } else {
        var bin := FlushBuffers(buffers, totalBufferLength, 0);
        var isReportPassive := owner.SpendMessage();
        if isReportPassive {
          msquic.enabled := false;
        }
        assert bin[..] == Flat(shown);
        out := [Data(msquic.consumed, bin[..], flags)] + if isReportPassive then [PassiveMsg] else [];
        assert out[0].Data?;
        msquic.consumed := msquic.consumed + total;
      }
    }

    // recv2; `enableOk` is the outcome of StreamReceiveSetEnabled.
    method Recv(sizeReq: nat, enableOk: bool) returns (res: Output)
      requires Valid()
      modifies this, msquic
      ensures Valid()
      ensures Result(Value(), [res]) == Step(old(Value()), Read(sizeReq, enableOk))
    {
      if owner.mode != Passive {
        return Einval;
      }
      if isRecvPending && totalBufferLength > 0 {
        var reqLen := if sizeReq > totalBufferLength then totalBufferLength else sizeReq;
        var bin := FlushBuffers(buffers, totalBufferLength, reqLen);
        var sizeConsumed := bin.Length;
        ResetRecv();
        if sizeConsumed > 0 {
          isWaitForData := false;
        }
        msquic.ReceiveComplete(sizeConsumed);
        res := Got(bin[..]);
      } else {
        isWaitForData := true;
        if isRecvPending {
          msquic.ReceiveComplete(0);
        }
        if enableOk {
          msquic.enabled := true;
          res := NotReady;
        } else {
          res := EnableFailed;
        }
      }
    }

    // set_stream_opt(active, v)
    method SetOpt(v: Opt) returns (ok: bool)
      requires Valid()
      modifies this, owner, msquic
      ensures Valid()
      ensures Result(Value(), []) == Step(old(Value()), SetActive(v))
      ensures ok == SetMode(old(owner.Value()), v).ok
    {
      if owner.mode == Passive && v != OptFalse && totalBufferLength > 0 {
        if isRecvPending {
          msquic.ReceiveComplete(0);
        }
        msquic.enabled := true;
      }
      ok := owner.SetRecvMode(v);
    }

    // get_stream_opt(active)
    method GetOpt() returns (v: Opt)
      ensures v == GetMode(owner.Value())
    {
      match owner.mode {
        case Passive => v := OptFalse;
        case Multi => v := OptInt(owner.count);
        case Once => v := OptOnce;
        case Active => v := OptTrue;
      }
    }
  }
}
