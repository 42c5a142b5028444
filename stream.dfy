/** The stream-write state machine of `I2CMaster::task`, as a function of the channel's stream
    fields, with the properties of single ticks and of runs of ticks. */
module StreamWrite {
  import opened I2cTypes

  /** The stream fields of a channel: bytes still to send (`_totalRemainingBytesToSend`), target
      address (`_currentStreamAddress`), the chunks the host link has staged and not yet handed
      over, and the staging buffer's current content. */
  datatype Stream = Stream(remaining: u32, address: byte, rx: seq<seq<byte>>, buf: seq<byte>)

  /** The outcome of one tick: the status returned, the new stream fields and the bus writes made. */
  datatype Tick = Tick(status: CmdStatus, next: Stream, writes: seq<BusOp>)

  /** A tick that ends the stream and emits the stream-write completion response. */
  predicate Completed(status: CmdStatus)
  {
    status == Ok || status == Nok
  }

  /** The size the staged-data query reports: that of the next staged chunk, 0 when none. */
  function AvailableSize(rx: seq<seq<byte>>): (r: nat)
  {
    if rx == [] then 0 else |rx[0]|
  }

  /** The length of the write a tick makes from the next staged chunk. */
  function ChunkLen(s: Stream): (r: nat)
    requires s.rx != []
  {
    Min(s.remaining, |s.rx[0]|)
  }

  /** One call of `task` with `reply` the bus driver's result for the write it may issue. */
  function TaskStep(s: Stream, reply: i32): (t: Tick)
    ensures |t.writes| <= 1
    ensures s.remaining == 0 ==> t == Tick(NotConcerned, s, [])
    ensures s.remaining > 0 && AvailableSize(s.rx) == 0 ==> t == Tick(NotFinished, s, [])
    ensures s.remaining > 0 && AvailableSize(s.rx) > 0 ==>
              t.writes == [BusWrite(s.address, ChunkLen(s), ChunkLen(s) < s.remaining)]
              && t.next.rx == s.rx[1..] && t.next.buf == []
    ensures t.writes != [] ==> t.writes[0].len <= s.remaining && t.writes[0].len <= |s.rx[0]|
    ensures t.writes != [] ==> (!t.writes[0].noStop <==> t.writes[0].len == s.remaining)
    ensures t.status == Nok <==> s.remaining > 0 && AvailableSize(s.rx) > 0 && ToU32(reply) != ChunkLen(s)
    ensures t.status == Ok <==>
              s.remaining > 0 && AvailableSize(s.rx) > 0 && ToU32(reply) == ChunkLen(s) == s.remaining
    ensures Completed(t.status) ==> t.next.remaining == 0 && t.next.address == 0
    ensures t.status == NotFinished ==>
              t.next.address == s.address && t.next.remaining > 0
              && t.next.remaining == s.remaining - (if t.writes == [] then 0 else t.writes[0].len)
    ensures t.next.remaining <= s.remaining
    ensures t.status == NotConcerned <==> s.remaining == 0
    ensures s.remaining > 0 && AvailableSize(s.rx) > 0 && ToU32(reply) == ChunkLen(s) < s.remaining ==>
              t.status == NotFinished
              && t.next == Stream(s.remaining - ChunkLen(s), s.address, s.rx[1..], [])
  {
    if s.remaining == 0 then
      Tick(NotConcerned, s, [])
    else if AvailableSize(s.rx) == 0 then
      // the loop does not run; remaining is still positive
      Tick(NotFinished, s, [])
    else
      var n := Min(s.remaining, |s.rx[0]|);
      var noStop := s.remaining - n > 0;
      var w := BusWrite(s.address, n, noStop);
      var error := ToU32(reply) != n;
      var left := if error then s.remaining else s.remaining - n;
      if error || left == 0 then
        Tick(if error then Nok else Ok, Stream(0, 0, s.rx[1..], []), [w])
      else
        Tick(NotFinished, Stream(left, s.address, s.rx[1..], []), [w])
  }

  /** The outcome of several ticks: every write made, every status returned, the final fields. */
  datatype Run = Run(writes: seq<BusOp>, statuses: seq<CmdStatus>, final: Stream)

  /** Successive calls of `task`, the i-th getting `replies[i]` from the bus. */
  function Poll(s: Stream, replies: seq<i32>): (r: Run)
    decreases |replies|
  {
    if replies == [] then Run([], [], s)
    else
      var t := TaskStep(s, replies[0]);
      var rest := Poll(t.next, replies[1..]);
      Run(t.writes + rest.writes, [t.status] + rest.statuses, rest.final)
  }

  /** A channel with nothing left to stream stays silent: every tick reports not-concerned, no
      write reaches the bus and no field changes. This is the fate of a zero-length stream. */
  lemma {:induction false} IdlePollIsSilent(s: Stream, replies: seq<i32>)
    requires s.remaining == 0
    ensures Poll(s, replies) == Run([], seq(|replies|, _ => NotConcerned), s)
    decreases |replies|
  {
    if replies != [] {
      IdlePollIsSilent(s, replies[1..]);
    }
  }

  /** Over any run of ticks, each tick makes at most one write and the remaining count never
      grows. */
  lemma {:induction false} PollBounds(s: Stream, replies: seq<i32>)
    ensures |Poll(s, replies).statuses| == |replies|
    ensures |Poll(s, replies).writes| <= |replies|
    ensures Poll(s, replies).final.remaining <= s.remaining
    decreases |replies|
  {
    if replies != [] {
      PollBounds(TaskStep(s, replies[0]).next, replies[1..]);
    }
  }

  /** A stream completes at most once: after a tick that returns Ok or Nok, every later tick
      returns not-concerned, so exactly one completion response is emitted per stream. */
  lemma {:induction false} CompletionIsFinal(s: Stream, replies: seq<i32>, i: nat, j: nat)
    requires i < j < |Poll(s, replies).statuses|
    requires Completed(Poll(s, replies).statuses[i])
    ensures Poll(s, replies).statuses[j] == NotConcerned
    decreases |replies|
  {
    PollBounds(s, replies);
    var t := TaskStep(s, replies[0]);
    var rest := Poll(t.next, replies[1..]);
    assert Poll(s, replies).statuses == [t.status] + rest.statuses;
    if i == 0 {
      IdlePollIsSilent(t.next, replies[1..]);
      assert rest.statuses[j - 1] == NotConcerned;
    } else {
      CompletionIsFinal(t.next, replies[1..], i - 1, j - 1);
    }
  }

  /** Staged chunks the bus can acknowledge in an `int`: non-empty and shorter than 2^31. */
  predicate Staged(rx: seq<seq<byte>>)
  {
    forall i :: 0 <= i < |rx| ==> 0 < |rx[i]| < 0x8000_0000
  }

  /** The number of staged bytes. */
  function Total(rx: seq<seq<byte>>): (r: nat)
  {
    if rx == [] then 0 else |rx[0]| + Total(rx[1..])
  }

  /** The number of bytes a sequence of transfers moves. */
  function SumLens(ops: seq<BusOp>): (r: nat)
  {
    if ops == [] then 0 else ops[0].len + SumLens(ops[1..])
  }

  /** The ticks a scheduler runs against a bus that acknowledges every byte, until the stream
      ends or the staged chunks run out. */
  function AckedRun(s: Stream): (r: Run)
    requires Staged(s.rx)
    decreases |s.rx|
  {
    if s.remaining == 0 || s.rx == [] then Run([], [], s)
    else
      var t := TaskStep(s, ChunkLen(s));
      var rest := AckedRun(t.next);
      Run(t.writes + rest.writes, [t.status] + rest.statuses, rest.final)
  }

  /** A stream of N bytes over staged chunks holding T bytes, on a bus that acknowledges
      everything, sends min(N, T) bytes to the stream's address in non-empty writes; only a write that empties the remaining count asserts the stop, and that happens
      only as the last write once T >= N; the last tick then returns Ok and every earlier one
      NotFinished. */
  lemma {:induction false} AckedRunDelivers(s: Stream)
    requires Staged(s.rx)
    ensures var r := AckedRun(s);
      && SumLens(r.writes) == Min(s.remaining, Total(s.rx))
      && r.final.remaining == s.remaining - SumLens(r.writes)
      && |r.writes| <= |s.rx|
      && (forall i :: 0 <= i < |r.writes| ==>
            r.writes[i].BusWrite? && r.writes[i].addr == s.address && 0 < r.writes[i].len
            && r.writes[i].len <= |s.rx[i]|)
      && (forall i :: 0 <= i < |r.writes| ==>
            (!r.writes[i].noStop <==> i == |r.writes| - 1 && s.remaining <= Total(s.rx)))
      && |r.statuses| == |r.writes|
      && (forall i :: 0 <= i < |r.statuses| ==>
            r.statuses[i] == if i == |r.statuses| - 1 && s.remaining <= Total(s.rx) then Ok else NotFinished)
    decreases |s.rx|
  {
    if s.remaining == 0 || s.rx == [] {
    } else {
      var c := s.rx[0];
      var t := TaskStep(s, ChunkLen(s));
      var rest := AckedRun(t.next);
      AckedRunDelivers(t.next);
      assert Total(s.rx) == |c| + Total(s.rx[1..]);
      var w := t.writes + rest.writes;
      assert w[1..] == rest.writes;
      assert forall i :: 1 <= i < |w| ==> w[i] == rest.writes[i - 1] && s.rx[i] == s.rx[1..][i - 1];
      if s.remaining <= |c| {
        assert t.status == Ok;
        assert rest.writes == [];
      } else {
        assert t.status == NotFinished;
        assert t.next == Stream(s.remaining - |c|, s.address, s.rx[1..], []);
        assert rest.writes == [] ==> s.rx[1..] == [];
      }
    }
  }
}
