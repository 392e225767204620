/** The VPX compander: a list of compressed frames waiting to be
    re-encoded, plus the bitrate last accepted by the encoder.

    The libvpx context behind the raw `codec` pointer is not modelled. Its
    answers enter as parameters: the status `vpx_codec_enc_config_set`
    returns, and the bytes `vpx_codec_get_cx_data` hands back.
 */
module VpxCompander {
  import opened Outcomes

  type Byte = x: int | 0 <= x < 0x100
  type UInt32 = x: int | 0 <= x < 0x1_0000_0000
  type Bytes = seq<Byte>

  /** The bitrate every compander starts with, in kilobits per second. */
  const DefaultBitrate: UInt32 := 512

  datatype Compander = Compander(bitrate: UInt32, width: UInt32, height: UInt32, fifo: seq<Bytes>)

  /** `vpx_codec_err_t`: success, or any of the library's error codes. */
  datatype CodecStatus = CodecOk | CodecError(code: nat)

  /** `set_bitrate`'s `assert_eq!` on the configuration status. */
  datatype CompanderFault = ConfigRejected(status: CodecStatus)

  /** What `pop` asks of the encoder: to encode the decoder's latest image,
      or to flush with no image. */
  datatype EncodeRequest = EncodeDecoded | Flush

  /** What `pop` produces: the compander afterwards, the frame it took from
      the list for the decoder (none when the list was empty), the request
      it sent to the encoder, and the value it returns. */
  datatype Popped = Popped(compander: Compander, consumed: Option<Bytes>,
                           request: EncodeRequest, reprocessed: Option<Bytes>)

  function New(w: UInt32, h: UInt32): (c: Compander)
    ensures c.bitrate == DefaultBitrate
    ensures c.width == w && c.height == h
    ensures |c.fifo| == 0
  {
    Compander(DefaultBitrate, w, h, [])
  }

  /** The new rate is kept only when the encoder accepts it; on any other
      status the following assertion stops the process. */
  function SetBitrate(c: Compander, rate: UInt32, status: CodecStatus): (r: Outcome<Compander, CompanderFault>)
    ensures r.Ok? <==> status == CodecOk
    ensures r.Ok? ==> r.value.bitrate == rate && r.value.fifo == c.fifo
    ensures r.Ok? ==> r.value.width == c.width && r.value.height == c.height
    ensures r.Panic? ==> r.reason == ConfigRejected(status)
  {
    if status == CodecOk then Ok(c.(bitrate := rate)) else Panic(ConfigRejected(status))
  }

  function GetBitrate(c: Compander): UInt32 {
    c.bitrate
  }

  /** The congestion signal: how many frames wait in the list. */
  function Len(c: Compander): nat {
    |c.fifo|
  }

  /** Appends at the end of the list. */
  function Push(c: Compander, frame: Bytes): (d: Compander)
    ensures Len(d) == Len(c) + 1
    ensures d.fifo[..Len(c)] == c.fifo && d.fifo[Len(c)] == frame
    ensures d.bitrate == c.bitrate && d.width == c.width && d.height == c.height
  {
    c.(fifo := c.fifo + [frame])
  }

  /** Takes the LAST frame of the list (`Vec::pop`), so the list behaves as
      a stack. A taken frame is decoded and the decoder's image is always
      encoded: the image is wrapped in `Some` before it is matched, so the
      flush branch for a missing image is never chosen, and the encoder
      flushes only when the list was empty. The re-encoded output is
      `packet`, whatever the list held, and it too is always returned
      wrapped in `Some`. */
  function Pop(c: Compander, packet: Bytes): (r: Popped)
    ensures r.reprocessed == Some(packet)
    ensures r.request == Flush <==> Len(c) == 0
    ensures Len(c) == 0 ==> r.consumed == None && r.compander == c
    ensures Len(c) > 0 ==>
      && r.consumed == Some(c.fifo[Len(c) - 1])
      && r.compander.fifo == c.fifo[..Len(c) - 1]
      && Len(r.compander) == Len(c) - 1
    ensures r.compander.bitrate == c.bitrate
    ensures r.compander.width == c.width && r.compander.height == c.height
  {
    if |c.fifo| == 0 then
      Popped(c, None, Flush, Some(packet))
    else
      Popped(c.(fifo := c.fifo[..|c.fifo| - 1]), Some(c.fifo[|c.fifo| - 1]), EncodeDecoded, Some(packet))
  }

  // ---------------------------------------------------------------------
  // Properties across calls
  // ---------------------------------------------------------------------

  /** The bitrate a successful `set_bitrate` stored is what `get_bitrate` reads. */
  lemma SetThenGet(c: Compander, rate: UInt32)
    ensures SetBitrate(c, rate, CodecOk).Ok?
    ensures GetBitrate(SetBitrate(c, rate, CodecOk).value) == rate
  {
  }

  /** A rejected configuration never reaches the stored bitrate: the call
      panics instead of returning a compander. */
  lemma RejectedRateNeverStored(c: Compander, rate: UInt32, code: nat)
    ensures SetBitrate(c, rate, CodecError(code)) == Panic(ConfigRejected(CodecError(code)))
  {
  }

  /** One call on the compander's queue side. */
  datatype QueueCall = PushCall(frame: Bytes) | PopCall(packet: Bytes) | LenCall

  function Apply(c: Compander, call: QueueCall): Compander {
    match call
    case PushCall(f) => Push(c, f)
    case PopCall(p) => Pop(c, p).compander
    case LenCall => c
  }

  function Replay(c: Compander, calls: seq<QueueCall>): Compander
    decreases |calls|
  {
    if |calls| == 0 then c else Replay(Apply(c, calls[0]), calls[1..])
  }

  /** `push`, `pop` and `len` never touch the bitrate or the frame size:
      only `set_bitrate` does. */
  lemma {:induction false} QueueCallsKeepBitrate(c: Compander, calls: seq<QueueCall>)
    ensures Replay(c, calls).bitrate == c.bitrate
    ensures Replay(c, calls).width == c.width && Replay(c, calls).height == c.height
    decreases |calls|
  {
    if |calls| > 0 {
      QueueCallsKeepBitrate(Apply(c, calls[0]), calls[1..]);
    }
  }

  /** A compander keeps `DEFAULT_BITRATE` from `new` through any series of
      queue calls, until `set_bitrate` changes it. */
  lemma NewKeepsDefaultBitrate(w: UInt32, h: UInt32, calls: seq<QueueCall>)
    ensures GetBitrate(Replay(New(w, h), calls)) == DefaultBitrate
    ensures Replay(New(w, h), calls).width == w && Replay(New(w, h), calls).height == h
  {
    QueueCallsKeepBitrate(New(w, h), calls);
  }

  /** A pop right after a push takes back the frame just pushed and
      restores the compander. */
  lemma PopUndoesPush(c: Compander, frame: Bytes, packet: Bytes)
    ensures Pop(Push(c, frame), packet).consumed == Some(frame)
    ensures Pop(Push(c, frame), packet).compander == c
  {
  }

  /** Pushes every frame of `fs`, first to last. */
  function PushAll(c: Compander, fs: seq<Bytes>): Compander
    decreases |fs|
  {
    if |fs| == 0 then c else PushAll(Push(c, fs[0]), fs[1..])
  }

  /** Pops once per packet and lists the frames taken, in the order taken. */
  function PopAll(c: Compander, packets: seq<Bytes>): (Compander, seq<Option<Bytes>>)
    decreases |packets|
  {
    if |packets| == 0 then
      (c, [])
    else
      var p := Pop(c, packets[0]);
      var rest := PopAll(p.compander, packets[1..]);
      (rest.0, [p.consumed] + rest.1)
  }

  lemma {:induction false} PushAllAppends(c: Compander, fs: seq<Bytes>)
    ensures PushAll(c, fs) == c.(fifo := c.fifo + fs)
    decreases |fs|
  {
    if |fs| > 0 {
      PushAllAppends(Push(c, fs[0]), fs[1..]);
      assert c.fifo + [fs[0]] + fs[1..] == c.fifo + fs;
    }
  }

  /** The list is last-in first-out: after pushing `fs`, as many pops take
      the frames of `fs` back newest first and leave the compander as it
      was. */
  lemma {:induction false} PopsReversePushes(c: Compander, fs: seq<Bytes>, packets: seq<Bytes>)
    requires |packets| == |fs|
    ensures PopAll(c.(fifo := c.fifo + fs), packets).0 == c
    ensures |PopAll(c.(fifo := c.fifo + fs), packets).1| == |fs|
    ensures forall i :: 0 <= i < |fs| ==> PopAll(c.(fifo := c.fifo + fs), packets).1[i] == Some(fs[|fs| - 1 - i])
    decreases |fs|
  {
    if |fs| > 0 {
      var n := |fs|;
      var full := c.(fifo := c.fifo + fs);
      var p := Pop(full, packets[0]);
      assert (c.fifo + fs)[..|c.fifo| + n - 1] == c.fifo + fs[..n - 1];
      assert p.compander == c.(fifo := c.fifo + fs[..n - 1]);
      PopsReversePushes(c, fs[..n - 1], packets[1..]);
    }
  }

  /** Pushing a batch and popping as many times takes the batch back in
      reverse order; the congestion signal counts every pushed frame. */
  lemma PushAllThenPopAll(c: Compander, fs: seq<Bytes>, packets: seq<Bytes>)
    requires |packets| == |fs|
    ensures Len(PushAll(c, fs)) == Len(c) + |fs|
    ensures PopAll(PushAll(c, fs), packets).0 == c
    ensures |PopAll(PushAll(c, fs), packets).1| == |fs|
    ensures forall i :: 0 <= i < |fs| ==> PopAll(PushAll(c, fs), packets).1[i] == Some(fs[|fs| - 1 - i])
  {
    PushAllAppends(c, fs);
    PopsReversePushes(c, fs, packets);
  }

  /** From a fresh compander, `len` after pushing a batch is the batch
      size, and popping as many times hands the batch back newest first and
      leaves the compander as `new` made it. */
  lemma PushPopFromNew(w: UInt32, h: UInt32, fs: seq<Bytes>, packets: seq<Bytes>)
    requires |packets| == |fs|
    ensures Len(PushAll(New(w, h), fs)) == |fs|
    ensures PopAll(PushAll(New(w, h), fs), packets).0 == New(w, h)
    ensures |PopAll(PushAll(New(w, h), fs), packets).1| == |fs|
    ensures forall i :: 0 <= i < |fs| ==> PopAll(PushAll(New(w, h), fs), packets).1[i] == Some(fs[|fs| - 1 - i])
  {
    PushAllThenPopAll(New(w, h), fs, packets);
  }
}
