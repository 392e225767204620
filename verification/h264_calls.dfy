/** The C++ shim around the H.264 codec: one process-wide `codec` pointer,
    created by `start` and destroyed by `stop`, that owns a list of frames.

    Frames enter at the front of the list (`push_front`) and leave from the
    back (`pop_back`). In this model index 0 of `frameQueue` is the front.
    The codec's decoder handle and buffer info are not modelled; only the
    lifecycle and the queue are.
 */
module H264Calls {
  import opened Outcomes

  type Int32 = x: int | -0x8000_0000 <= x < 0x8000_0000

  /** `turnx_h264_cxxcalls_frame`. Its `union p` declares a nested type and
      no member, so the C++ frame holds just these two fields. */
  datatype Frame = Frame(isEncoded: bool, nItems: Int32)

  /** The global `codec`: null, or a live codec with its frame queue. */
  datatype Codec = NoCodec | Running(frameQueue: seq<Frame>)

  /** A failed `assert`, or a dereference of the null `codec`. */
  datatype H264Fault =
    | AlreadyStarted     // start: codec must be null
    | NotStarted         // stop: codec must be non-null
    | NullCodec          // push, pop and size dereference the codec without a check
    | PushedUnencoded    // push: the frame must be encoded
    | QueueEmpty         // pop: the queue must be non-empty
    | PoppedEncoded      // pop: the dequeued frame must not be encoded

  /** What `pop` hands back: the codec afterwards and the returned frame. */
  datatype Popped = Popped(codec: Codec, frame: Frame)

  function Start(s: Codec): (r: Outcome<Codec, H264Fault>)
    ensures r.Ok? <==> s.NoCodec?
    ensures r.Ok? ==> r.value.Running? && r.value.frameQueue == []
    ensures r.Panic? ==> r.reason == AlreadyStarted
  {
    if s.Running? then Panic(AlreadyStarted) else Ok(Running([]))
  }

  function Stop(s: Codec): (r: Outcome<Codec, H264Fault>)
    ensures r.Ok? <==> s.Running?
    ensures r.Ok? ==> r.value.NoCodec?
    ensures r.Panic? ==> r.reason == NotStarted
  {
    if s.NoCodec? then Panic(NotStarted) else Ok(NoCodec)
  }

  /** The frame's own assert runs before the codec is dereferenced. */
  function Push(s: Codec, f: Frame): (r: Outcome<Codec, H264Fault>)
    ensures r.Ok? <==> f.isEncoded && s.Running?
    ensures !f.isEncoded ==> r == Panic(PushedUnencoded)
    ensures f.isEncoded && s.NoCodec? ==> r == Panic(NullCodec)
    ensures r.Ok? ==>
      && r.value.Running?
      && |r.value.frameQueue| == |s.frameQueue| + 1
      && r.value.frameQueue[0] == f
      && r.value.frameQueue[1..] == s.frameQueue
  {
    if !f.isEncoded then Panic(PushedUnencoded)
    else if s.NoCodec? then Panic(NullCodec)
    else Ok(Running([f] + s.frameQueue))
  }

  /** Takes the back of the queue, checks it, and returns a fresh encoded
      frame with no items rather than the frame it took. */
  function Pop(s: Codec): (r: Outcome<Popped, H264Fault>)
    ensures r.Ok? <==>
      s.Running? && |s.frameQueue| > 0 && !s.frameQueue[|s.frameQueue| - 1].isEncoded
    ensures s.NoCodec? ==> r == Panic(NullCodec)
    ensures s.Running? && |s.frameQueue| == 0 ==> r == Panic(QueueEmpty)
    ensures s.Running? && |s.frameQueue| > 0 && s.frameQueue[|s.frameQueue| - 1].isEncoded ==>
              r == Panic(PoppedEncoded)
    ensures r.Ok? ==>
      && r.value.codec == Running(s.frameQueue[..|s.frameQueue| - 1])
      && r.value.frame == Frame(true, 0)
  {
    if s.NoCodec? then Panic(NullCodec)
    else if |s.frameQueue| == 0 then Panic(QueueEmpty)
    else
      var taken := s.frameQueue[|s.frameQueue| - 1];
      if taken.isEncoded then Panic(PoppedEncoded)
      else Ok(Popped(Running(s.frameQueue[..|s.frameQueue| - 1]), Frame(true, 0)))
  }

  function Size(s: Codec): (r: Outcome<nat, H264Fault>)
    ensures r.Ok? <==> s.Running?
    ensures r.Ok? ==> r.value == |s.frameQueue|
    ensures r.Panic? ==> r.reason == NullCodec
  {
    if s.NoCodec? then Panic(NullCodec) else Ok(|s.frameQueue|)
  }

  // ---------------------------------------------------------------------
  // Sequences of calls
  // ---------------------------------------------------------------------

  /** One call across the C interface. */
  datatype Call = StartCall | StopCall | PushCall(frame: Frame) | PopCall | SizeCall

  /** The codec after one call; `size` and the frame `pop` returns leave it as is. */
  function Apply(s: Codec, call: Call): Outcome<Codec, H264Fault> {
    match call
    case StartCall => Start(s)
    case StopCall => Stop(s)
    case PushCall(f) => Push(s, f)
    case PopCall =>
      var p :- Pop(s);
      Ok(p.codec)
    case SizeCall =>
      var _ :- Size(s);
      Ok(s)
  }

  /** A series of calls from `s`, stopping at the first panic. */
  function Replay(s: Codec, calls: seq<Call>): Outcome<Codec, H264Fault>
    decreases |calls|
  {
    if |calls| == 0 then Ok(s)
    else
      var t :- Apply(s, calls[0]);
      Replay(t, calls[1..])
  }

  /** Pushes every frame of `fs`, first to last. */
  function PushAll(s: Codec, fs: seq<Frame>): Outcome<Codec, H264Fault>
    decreases |fs|
  {
    if |fs| == 0 then Ok(s)
    else
      var t :- Push(s, fs[0]);
      PushAll(t, fs[1..])
  }

  /** The order in which repeated `pop_back` takes the frames of a queue. */
  function LeavingOrder(q: seq<Frame>): seq<Frame>
    decreases |q|
  {
    if |q| == 0 then [] else [q[|q| - 1]] + LeavingOrder(q[..|q| - 1])
  }

  lemma {:induction false} LeavingOrderOfPushFront(f: Frame, q: seq<Frame>)
    ensures LeavingOrder([f] + q) == LeavingOrder(q) + [f]
    decreases |q|
  {
    if |q| > 0 {
      assert ([f] + q)[..|q|] == [f] + q[..|q| - 1];
      LeavingOrderOfPushFront(f, q[..|q| - 1]);
    }
  }

  /** The list is first-in first-out: after pushing `fs`, the frames leave
      behind those already queued, in the order they were pushed. */
  lemma {:induction false} FramesLeaveInPushOrder(s: Codec, fs: seq<Frame>)
    requires s.Running? && PushAll(s, fs).Ok?
    ensures PushAll(s, fs).value.Running?
    ensures LeavingOrder(PushAll(s, fs).value.frameQueue) == LeavingOrder(s.frameQueue) + fs
    decreases |fs|
  {
    if |fs| > 0 {
      var t := Push(s, fs[0]).value;
      assert t.frameQueue == [fs[0]] + s.frameQueue;
      FramesLeaveInPushOrder(t, fs[1..]);
      LeavingOrderOfPushFront(fs[0], s.frameQueue);
      assert [fs[0]] + fs[1..] == fs;
    }
  }

  /** `size` counts the frames pushed: a successful series of pushes on a
      live codec grows it by the number of frames, and a successful pop
      shrinks it by one. */
  lemma {:induction false} SizeCountsPushes(s: Codec, fs: seq<Frame>)
    requires s.Running?
    requires forall i :: 0 <= i < |fs| ==> fs[i].isEncoded
    ensures PushAll(s, fs).Ok?
    ensures Size(PushAll(s, fs).value).Ok?
    ensures Size(PushAll(s, fs).value).value == Size(s).value + |fs|
    decreases |fs|
  {
    if |fs| > 0 {
      SizeCountsPushes(Push(s, fs[0]).value, fs[1..]);
    }
  }

  lemma SizeAfterPop(s: Codec)
    requires Pop(s).Ok?
    ensures Size(Pop(s).value.codec).Ok? && Size(s).Ok?
    ensures Size(Pop(s).value.codec).value == Size(s).value - 1
  {
  }

  /** A push does not change which frame leaves next: popping after a
      push removes the same frame as popping before it. */
  lemma PushCommutesWithPop(s: Codec, f: Frame)
    requires f.isEncoded && Pop(s).Ok?
    ensures Push(s, f).Ok? && Pop(Push(s, f).value).Ok?
    ensures Push(Pop(s).value.codec, f).Ok?
    ensures Pop(Push(s, f).value).value.codec == Push(Pop(s).value.codec, f).value
  {
    var q := s.frameQueue;
    assert ([f] + q)[..|q|] == [f] + q[..|q| - 1];
  }

  /** `stop` undoes `start`. */
  lemma StartThenStop(s: Codec)
    requires s.NoCodec?
    ensures Start(s).Ok? && Stop(Start(s).value) == Ok(s)
  {
  }

  /** Every queued frame is encoded: what `push` lets in. */
  ghost predicate OnlyEncoded(s: Codec) {
    s.Running? ==> forall i :: 0 <= i < |s.frameQueue| ==> s.frameQueue[i].isEncoded
  }

  /** `push` admits only encoded frames and `pop` admits only unencoded
      ones, so from a null codec no series of calls ever pops
      successfully: every queue it builds holds encoded frames only. */
  lemma {:induction false} PushedFramesNeverPop(s: Codec, calls: seq<Call>)
    requires OnlyEncoded(s)
    ensures Replay(s, calls).Ok? ==> OnlyEncoded(Replay(s, calls).value) && PopCall !in calls
    decreases |calls|
  {
    if |calls| > 0 && Apply(s, calls[0]).Ok? {
      var t := Apply(s, calls[0]).value;
      assert !calls[0].PopCall?;
      if calls[0].PushCall? {
        assert forall i :: 1 <= i < |t.frameQueue| ==> t.frameQueue[i] == s.frameQueue[i - 1];
      }
      PushedFramesNeverPop(t, calls[1..]);
      assert calls == [calls[0]] + calls[1..];
    }
  }

  /** Whatever calls ran before, the next `pop` never succeeds. With no
      codec it uses the null pointer; with a codec the non-empty assert or
      the not-encoded assert fails. */
  lemma EveryPopFails(calls: seq<Call>)
    requires Replay(NoCodec, calls).Ok?
    ensures Pop(Replay(NoCodec, calls).value).Panic?
    ensures Replay(NoCodec, calls).value.NoCodec? ==>
      Pop(Replay(NoCodec, calls).value).reason == NullCodec
    ensures Replay(NoCodec, calls).value.Running? ==>
      Pop(Replay(NoCodec, calls).value).reason in {QueueEmpty, PoppedEncoded}
  {
    PushedFramesNeverPop(NoCodec, calls);
  }
}
