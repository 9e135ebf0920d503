/** The signal relay of pkg/routing/signal.go: a sink that ships its whole queue as one numbered batch and
    retries it after ambiguous send errors, an adversarial network, and a reader that trims the overlap. */
module SignalRelay {
  import opened Wrappers

  /** A protobuf message; the relay never looks inside it. */
  datatype Message = Message(id: int)

  /** One relay request or response: the number of its first message, the messages and the close flag. */
  datatype Batch = Batch(seqNo: nat, msgs: seq<Message>, close: bool) {
    function End(): nat { seqNo + |msgs| }
  }

  // ---------------------------------------------------------------------------------------------------------
  // The sink
  // ---------------------------------------------------------------------------------------------------------

  /** Where a write goroutine stands whenever it does not hold the lock. */
  datatype WriteLoop = Entering | Sending(batch: Batch)

  /** The sink at a lock release. `loops` holds every live write goroutine, `closed` says whether the stream
      has an error, and `sent` records every batch ever handed to Stream.Send. */
  datatype Sink = Sink(
    closeOnFailure: bool, seqNo: nat, queue: seq<Message>, writing: bool, draining: bool,
    closed: bool, loops: seq<WriteLoop>, sent: seq<Batch>)

  /** What every locked region of the sink keeps: one loop exactly while `writing`, and a batch on the wire
      that is still the front of the queue. */
  ghost predicate SinkOk(k: Sink) {
    && |k.loops| == (if k.writing then 1 else 0)
    && (k.loops == [] ==> k.queue == [] || k.closed)
    && (k.draining && k.loops == [] ==> k.closed)
    && (k.loops != [] && k.loops[0].Sending? ==>
          var b := k.loops[0].batch;
          && b.seqNo == k.seqNo && b.msgs <= k.queue && b in k.sent
          && (b.close ==> k.draining && b.msgs == k.queue))
  }

  /** The locked part of WriteMessage; a refused message leaves the sink alone. */
  function Write(k: Sink, m: Message): Sink {
    if k.closed || k.draining then k
    else Spawn(k.(queue := k.queue + [m]))
  }

  function Spawn(k: Sink): Sink {
    if k.writing then k else k.(writing := true, loops := k.loops + [Entering])
  }

  function Drain(k: Sink): Sink {
    Spawn(k.(draining := true))
  }

  /** The end of write(): the goroutine leaves and may close the stream. */
  function Leave(k: Sink, i: nat, failed: bool): Sink
    requires i < |k.loops|
  {
    k.(writing := false,
       loops := k.loops[..i] + k.loops[i + 1..],
       closed := k.closed || k.draining || (failed && k.closeOnFailure))
  }

  /** The head of the loop, with the lock held: leave, or build a batch and go to Send. */
  function LoopHead(k: Sink, i: nat, failed: bool): Sink
    requires i < |k.loops|
  {
    if (!k.draining && k.queue == []) || k.closed then Leave(k, i, failed)
    else
      var b := Batch(k.seqNo, k.queue, k.draining);
      k.(loops := k.loops[i := Sending(b)], sent := k.sent + [b])
  }

  /** The locked region after Send returned. A failure past the deadline drops the queue. */
  function SendReturned(k: Sink, i: nat, ok: bool, pastDeadline: bool): Sink
    requires i < |k.loops| && k.loops[i].Sending? && |k.loops[i].batch.msgs| <= |k.queue|
  {
    var b := k.loops[i].batch;
    if !ok then
      if pastDeadline then Leave(k.(seqNo := k.seqNo + |k.queue|, queue := []), i, true)
      else LoopHead(k, i, true)
    else
      var k' := k.(seqNo := k.seqNo + |b.msgs|, queue := k.queue[|b.msgs|..]);
      if b.close then Leave(k', i, false) else LoopHead(k', i, false)
  }

  // ---------------------------------------------------------------------------------------------------------
  // The reader and the bounded message channel it fills
  // ---------------------------------------------------------------------------------------------------------

  datatype Channel = Channel(size: nat, pending: seq<Message>, taken: seq<Message>, closed: bool) {
    /** Everything ever written to the channel, in order. */
    function Delivered(): seq<Message> { taken + pending }
    predicate Accepts() { !closed && |pending| < size }
  }

  datatype Status = Running | Dropped | Rejected | Finished

  /** `backlog` are the messages of the current batch still to be written, `closing` its close flag. */
  datatype Reader = Reader(seqNo: nat, backlog: seq<Message>, closing: bool, status: Status) {
    predicate Idle() { status == Running && backlog == [] && !closing }
  }

  /** signalMessageReader.Read: a gap is an error, an overlap is trimmed. */
  function ReadBatch(seqNo: nat, b: Batch): Result<seq<Message>, ()> {
    if seqNo < b.seqNo then Err(())
    else
      var n := seqNo - b.seqNo;
      Ok(b.msgs[if n > |b.msgs| then |b.msgs| else n..])
  }

  function Take(r: Reader, b: Batch): Reader {
    match ReadBatch(r.seqNo, b)
    case Err(_) => r.(status := Dropped)
    case Ok(res) => Reader(r.seqNo + |res|, res, b.close, r.status)
  }

  /** Write one message of the backlog, or stop when the channel refuses it. */
  function Push(r: Reader, c: Channel): (Reader, Channel)
    requires r.backlog != []
  {
    if c.Accepts() then (r.(backlog := r.backlog[1..]), c.(pending := c.pending + [r.backlog[0]]))
    else (r.(status := Rejected), c)
  }

  /** The close flag of a fully written batch is honoured. */
  function Finish(r: Reader): Reader {
    r.(closing := false, status := Finished)
  }

  // ---------------------------------------------------------------------------------------------------------
  // The whole relay
  // ---------------------------------------------------------------------------------------------------------

  /** `accepted` lists the messages WriteMessage took, `gaveUp` says that a deadline dropped the queue, and
      `ackLost` that a Send succeeded for a batch the reader has not taken. */
  datatype Relay = Relay(
    sink: Sink, reader: Reader, channel: Channel, accepted: seq<Message>, gaveUp: bool, ackLost: bool)

  /** An event that is not possible in a state leaves it unchanged, so every event list is a run. The network
      decides everything in Receive (any batch ever sent, any number of times, in any order) and in Return. */
  datatype Event =
    | WriteMessage(m: Message)
    | CloseSink
    | Enter(i: nat)
    | Return(i: nat, ok: bool, pastDeadline: bool)
    | StreamFails
    | Receive(j: nat)
    | PushOne
    | HonourClose
    | ConsumerTakes
    | ChannelCloses

  function Init(closeOnFailure: bool, size: nat): Relay {
    Relay(Sink(closeOnFailure, 0, [], false, false, false, [], []),
          Reader(0, [], false, Running), Channel(size, [], [], false), [], false, false)
  }

  function Step(s: Relay, e: Event): Relay {
    match e
    case WriteMessage(m) =>
      if s.sink.closed || s.sink.draining then s
      else s.(sink := Write(s.sink, m), accepted := s.accepted + [m])
    case CloseSink => s.(sink := Drain(s.sink))
    case Enter(i) =>
      if i < |s.sink.loops| && s.sink.loops[i].Entering? then s.(sink := LoopHead(s.sink, i, false)) else s
    case Return(i, ok, past) =>
      if i < |s.sink.loops| && s.sink.loops[i].Sending? && |s.sink.loops[i].batch.msgs| <= |s.sink.queue| then
        s.(sink := SendReturned(s.sink, i, ok, past),
           gaveUp := s.gaveUp || (!ok && past),
           ackLost := s.ackLost || (ok && s.reader.seqNo < s.sink.loops[i].batch.End()))
      else s
    case StreamFails => s.(sink := s.sink.(closed := true))
    case Receive(j) =>
      if j < |s.sink.sent| && s.reader.Idle() then s.(reader := Take(s.reader, s.sink.sent[j])) else s
    case PushOne =>
      if s.reader.status == Running && s.reader.backlog != [] then
        var (r, c) := Push(s.reader, s.channel);
        s.(reader := r, channel := c)
      else s
    case HonourClose =>
      if s.reader.status == Running && s.reader.backlog == [] && s.reader.closing then
        s.(reader := Finish(s.reader), sink := s.sink.(closed := true))
      else s
    case ConsumerTakes =>
      if s.channel.pending != [] then
        s.(channel := s.channel.(taken := s.channel.taken + [s.channel.pending[0]], pending := s.channel.pending[1..]))
      else s
    case ChannelCloses => s.(channel := s.channel.(closed := true))
  }

  function Exec(s: Relay, es: seq<Event>): Relay {
    if es == [] then s else Step(Exec(s, es[..|es| - 1]), es[|es| - 1])
  }

  /** A batch is a slice of what was accepted, and one with the close flag reaches to its very end. */
  ghost predicate BatchOk(b: Batch, accepted: seq<Message>, draining: bool) {
    && b.End() <= |accepted|
    && b.msgs == accepted[b.seqNo..b.End()]
    && (b.close ==> draining && b.End() == |accepted|)
  }

  ghost predicate WriterInv(s: Relay) {
    SinkOk(s.sink) && Accounted(s.sink, s.accepted)
  }

  ghost predicate ReaderInv(s: Relay) {
    && s.reader.seqNo <= |s.accepted|
    && s.channel.Delivered() <= s.accepted
    && (s.reader.status == Running ==> s.channel.Delivered() + s.reader.backlog == s.accepted[..s.reader.seqNo])
    && (s.reader.status == Running && s.reader.closing ==> s.sink.draining && s.reader.seqNo == |s.accepted|)
    && (s.reader.status == Finished ==> s.sink.draining && s.channel.Delivered() == s.accepted)
    && (!s.gaveUp && !s.ackLost ==> s.sink.seqNo <= s.reader.seqNo && s.reader.status != Dropped)
  }

  ghost predicate Inv(s: Relay) { WriterInv(s) && ReaderInv(s) }

  /** The accounting part of WriterInv, which the goroutine's position does not enter. */
  ghost predicate Accounted(k: Sink, accepted: seq<Message>) {
    && k.seqNo <= |accepted|
    && k.queue == accepted[k.seqNo..]
    && (forall b <- k.sent :: BatchOk(b, accepted, k.draining) && b.seqNo <= k.seqNo)
  }

  lemma LeaveKeeps(k: Sink, accepted: seq<Message>, failed: bool)
    requires |k.loops| == 1 && Accounted(k, accepted)
    requires k.queue == [] || k.closed
    ensures SinkOk(Leave(k, 0, failed)) && Accounted(Leave(k, 0, failed), accepted)
  {
  }

  lemma LoopHeadKeeps(k: Sink, accepted: seq<Message>, failed: bool)
    requires |k.loops| == 1 && k.writing && Accounted(k, accepted)
    ensures SinkOk(LoopHead(k, 0, failed)) && Accounted(LoopHead(k, 0, failed), accepted)
  {
    if (!k.draining && k.queue == []) || k.closed { LeaveKeeps(k, accepted, failed); }
  }

  lemma AcceptKeepsWriter(s: Relay, m: Message)
    requires WriterInv(s) && !s.sink.closed && !s.sink.draining
    ensures WriterInv(Step(s, WriteMessage(m)))
  {
    var s' := Step(s, WriteMessage(m));
    assert s'.sink.queue == s'.accepted[s'.sink.seqNo..];
    forall b <- s.sink.sent ensures BatchOk(b, s'.accepted, s'.sink.draining) {
      assert BatchOk(b, s.accepted, s.sink.draining);
      assert b.msgs == s'.accepted[b.seqNo..b.End()];
    }
  }

  lemma AckKeeps(k: Sink, accepted: seq<Message>)
    requires SinkOk(k) && Accounted(k, accepted) && k.loops != [] && k.loops[0].Sending?
    ensures SinkOk(SendReturned(k, 0, true, false)) && Accounted(SendReturned(k, 0, true, false), accepted)
  {
    var b := k.loops[0].batch;
    var k' := k.(seqNo := k.seqNo + |b.msgs|, queue := k.queue[|b.msgs|..]);
    assert Accounted(k', accepted) by { assert k'.queue == accepted[k'.seqNo..]; }
    if b.close { LeaveKeeps(k', accepted, false); } else { LoopHeadKeeps(k', accepted, false); }
  }

  lemma FailureKeeps(k: Sink, accepted: seq<Message>, past: bool)
    requires SinkOk(k) && Accounted(k, accepted) && k.loops != [] && k.loops[0].Sending?
    ensures SinkOk(SendReturned(k, 0, false, past)) && Accounted(SendReturned(k, 0, false, past), accepted)
  {
    if past {
      var k' := k.(seqNo := k.seqNo + |k.queue|, queue := []);
      assert Accounted(k', accepted);
      LeaveKeeps(k', accepted, true);
    } else {
      LoopHeadKeeps(k, accepted, true);
    }
  }

  /** Starting to drain, or closing the stream, touches neither the queue nor the batches. */
  lemma ClosingKeepsWriter(s: Relay, e: Event)
    requires WriterInv(s) && (e.CloseSink? || e.StreamFails? || e.HonourClose?)
    ensures WriterInv(Step(s, e))
  {
    forall b <- s.sink.sent ensures BatchOk(b, s.accepted, Step(s, e).sink.draining) {
      assert BatchOk(b, s.accepted, s.sink.draining);
    }
  }

  lemma EnterKeepsWriter(s: Relay, i: nat)
    requires WriterInv(s)
    ensures WriterInv(Step(s, Enter(i)))
  {
    if i < |s.sink.loops| && s.sink.loops[i].Entering? {
      assert i == 0;
      LoopHeadKeeps(s.sink, s.accepted, false);
    }
  }

  lemma ReturnKeepsWriter(s: Relay, i: nat, ok: bool, past: bool)
    requires WriterInv(s)
    ensures WriterInv(Step(s, Return(i, ok, past)))
  {
    if i < |s.sink.loops| && s.sink.loops[i].Sending? {
      assert i == 0;
      if ok { AckKeeps(s.sink, s.accepted); } else { FailureKeeps(s.sink, s.accepted, past); }
    }
  }

  lemma StepKeepsWriter(s: Relay, e: Event)
    requires WriterInv(s)
    ensures WriterInv(Step(s, e))
  {
    if
    case e.WriteMessage? => if !s.sink.closed && !s.sink.draining { AcceptKeepsWriter(s, e.m); }
    case e.Enter? => EnterKeepsWriter(s, e.i);
    case e.Return? => ReturnKeepsWriter(s, e.i, e.ok, e.pastDeadline);
    case e.CloseSink? || e.StreamFails? || e.HonourClose? => ClosingKeepsWriter(s, e);
    case e.Receive? || e.PushOne? || e.ConsumerTakes? || e.ChannelCloses? =>
      assert Step(s, e).sink == s.sink && Step(s, e).accepted == s.accepted;
  }

  lemma SliceTail(s: seq<Message>, lo: nat, mid: nat, hi: nat)
    requires lo <= mid <= hi <= |s|
    ensures s[lo..hi][mid - lo..] == s[mid..hi] && s[..mid] + s[mid..hi] == s[..hi]
  {
  }

  /** Trimming the overlap of a batch with what was taken before leaves exactly what comes next. */
  lemma TrimmedIsNext(accepted: seq<Message>, b: Batch, draining: bool, at: nat)
    requires BatchOk(b, accepted, draining) && b.seqNo <= at <= |accepted|
    ensures
      var res := ReadBatch(at, b).value;
      accepted[..at] + res == accepted[..at + |res|] && at + |res| >= b.End() && at + |res| <= |accepted|
  {
    var res := ReadBatch(at, b).value;
    if at <= b.End() {
      SliceTail(accepted, b.seqNo, at, b.End());
      assert res == accepted[at..b.End()];
    } else {
      assert res == [] && accepted[..at] + [] == accepted[..at];
    }
  }

  lemma TakeKeepsReader(s: Relay, b: Batch)
    requires Inv(s) && s.reader.Idle() && b in s.sink.sent
    ensures ReaderInv(s.(reader := Take(s.reader, b)))
  {
    assert BatchOk(b, s.accepted, s.sink.draining);
    if b.seqNo <= s.reader.seqNo {
      TrimmedIsNext(s.accepted, b, s.sink.draining, s.reader.seqNo);
      assert s.channel.Delivered() + [] == s.channel.Delivered();
    }
  }

  lemma PushKeepsReader(s: Relay)
    requires ReaderInv(s) && s.reader.status == Running && s.reader.backlog != []
    ensures ReaderInv(Step(s, PushOne))
  {
    var r, c := s.reader, s.channel;
    var d := c.Delivered() + [r.backlog[0]];
    assert d + r.backlog[1..] == c.Delivered() + r.backlog;
    assert c.taken + (c.pending + [r.backlog[0]]) == d;
    assert d <= s.accepted by {
      assert d <= c.Delivered() + r.backlog <= s.accepted;
    }
  }

  lemma ReturnKeepsReader(s: Relay, i: nat, ok: bool, past: bool)
    requires Inv(s) && i < |s.sink.loops| && s.sink.loops[i].Sending?
    ensures ReaderInv(Step(s, Return(i, ok, past)))
  {
    var k := SendReturned(s.sink, i, ok, past);
    assert k.draining == s.sink.draining;
    assert ok ==> k.seqNo == s.sink.loops[i].batch.End();
    assert !ok && !past ==> k.seqNo == s.sink.seqNo;
  }

  lemma StepKeepsReader(s: Relay, e: Event)
    requires Inv(s)
    ensures ReaderInv(Step(s, e))
  {
    if
    case e.WriteMessage? =>
      assert s.accepted[..s.reader.seqNo] == (s.accepted + [e.m])[..s.reader.seqNo];
    case e.Enter? =>
    case e.Return? =>
      if e.i < |s.sink.loops| && s.sink.loops[e.i].Sending? { ReturnKeepsReader(s, e.i, e.ok, e.pastDeadline); }
    case e.CloseSink? || e.StreamFails? || e.ChannelCloses? =>
    case e.HonourClose? => assert s.channel.Delivered() + [] == s.channel.Delivered();
    case e.Receive? => if e.j < |s.sink.sent| && s.reader.Idle() { TakeKeepsReader(s, s.sink.sent[e.j]); }
    case e.PushOne? => if s.reader.status == Running && s.reader.backlog != [] { PushKeepsReader(s); }
    case e.ConsumerTakes? =>
      if s.channel.pending != [] { assert Step(s, e).channel.Delivered() == s.channel.Delivered(); }
  }

  lemma {:induction false} ExecKeepsInv(s: Relay, es: seq<Event>)
    requires Inv(s)
    ensures Inv(Exec(s, es))
  {
    if es != [] {
      ExecKeepsInv(s, es[..|es| - 1]);
      StepKeepsWriter(Exec(s, es[..|es| - 1]), es[|es| - 1]);
      StepKeepsReader(Exec(s, es[..|es| - 1]), es[|es| - 1]);
    }
  }

  // ---------------------------------------------------------------------------------------------------------
  // What every run of writers, retries and network mischief guarantees
  // ---------------------------------------------------------------------------------------------------------

  /** The message channel carries a prefix of the accepted messages: in order, each at most once, none skipped. */
  lemma {:induction false} DeliveredIsPrefixOfAccepted(closeOnFailure: bool, size: nat, es: seq<Event>)
    ensures var s := Exec(Init(closeOnFailure, size), es); s.channel.Delivered() <= s.accepted
  {
    ExecKeepsInv(Init(closeOnFailure, size), es);
  }

  lemma FinishedStepIsFinal(s: Relay, e: Event)
    requires Inv(s) && s.reader.status == Finished
    ensures
      var s' := Step(s, e);
      s'.reader.status == Finished && s'.accepted == s.accepted && s'.channel.Delivered() == s.channel.Delivered()
  {
    if e.ConsumerTakes? && s.channel.pending != [] {
      assert Step(s, e).channel.Delivered() == s.channel.Delivered();
    }
  }

  lemma {:induction false} FinishedIsFinal(s: Relay, es: seq<Event>)
    requires Inv(s) && s.reader.status == Finished
    ensures
      var s' := Exec(s, es);
      s'.reader.status == Finished && s'.accepted == s.accepted && s'.channel.Delivered() == s.channel.Delivered()
  {
    if es != [] {
      FinishedIsFinal(s, es[..|es| - 1]);
      ExecKeepsInv(s, es[..|es| - 1]);
      FinishedStepIsFinal(Exec(s, es[..|es| - 1]), es[|es| - 1]);
    }
  }

  /** A reader that honours a close flag has delivered everything ever accepted, however often the writer's
      deadline made it drop its queue before, and no later event changes either side. */
  lemma {:induction false} CloseMeansAllDelivered(closeOnFailure: bool, size: nat, es: seq<Event>, later: seq<Event>)
    requires Exec(Init(closeOnFailure, size), es).reader.status == Finished
    ensures
      var s := Exec(Init(closeOnFailure, size), es);
      var s' := Exec(s, later);
      s.channel.Delivered() == s.accepted && s'.accepted == s.accepted && s'.channel.Delivered() == s.accepted
  {
    ExecKeepsInv(Init(closeOnFailure, size), es);
    FinishedIsFinal(Exec(Init(closeOnFailure, size), es), later);
  }

  /** At every lock release: the next sequence number plus the queue length is the number of accepted messages,
      the queue is exactly what has not been acknowledged or dropped, at most one write goroutine lives, it does
      exactly while `writing` is set, and without one the queue is empty or the stream is closed. */
  lemma {:induction false} WriterAccounting(closeOnFailure: bool, size: nat, es: seq<Event>)
    ensures
      var s := Exec(Init(closeOnFailure, size), es);
      && s.sink.seqNo + |s.sink.queue| == |s.accepted|
      && s.sink.queue == s.accepted[s.sink.seqNo..]
      && |s.sink.loops| <= 1
      && (s.sink.writing <==> |s.sink.loops| == 1)
      && (s.sink.loops == [] ==> s.sink.queue == [] || s.sink.closed)
  {
    ExecKeepsInv(Init(closeOnFailure, size), es);
  }

  /** The reader reports a dropped message only when something really can have been lost: a deadline dropped the
      queue, or the network acknowledged a batch the reader never took. */
  lemma {:induction false} DropErrorOnlyAfterLoss(closeOnFailure: bool, size: nat, es: seq<Event>)
    requires Exec(Init(closeOnFailure, size), es).reader.status == Dropped
    ensures
      var s := Exec(Init(closeOnFailure, size), es);
      s.gaveUp || s.ackLost
  {
    ExecKeepsInv(Init(closeOnFailure, size), es);
  }

  /** Some send of the run was reported as failed. */
  predicate SendFailed(es: seq<Event>) { exists i :: 0 <= i < |es| && es[i].Return? && !es[i].ok }

  predicate StreamFailed(es: seq<Event>) { exists i :: 0 <= i < |es| && es[i].StreamFails? }

  /** What a region of the write loop does to the stream, given whether a send failed in it. */
  ghost predicate ClosesFor(k: Sink, k': Sink, failed: bool) {
    && k'.closeOnFailure == k.closeOnFailure && k'.draining == k.draining && (k.closed ==> k'.closed)
    && (k'.closed ==> k.closed || k.draining || (k.closeOnFailure && failed))
  }

  lemma ReturnCloses(k: Sink, i: nat, ok: bool, past: bool)
    requires i < |k.loops| && k.loops[i].Sending? && |k.loops[i].batch.msgs| <= |k.queue|
    ensures ClosesFor(k, SendReturned(k, i, ok, past), !ok)
    ensures !ok && past && k.closeOnFailure ==> SendReturned(k, i, ok, past).closed
  {
  }

  lemma StepCloses(s: Relay, e: Event)
    requires ReaderInv(s)
    ensures
      var k, k' := s.sink, Step(s, e).sink;
      && k'.closeOnFailure == k.closeOnFailure && (k.closed ==> k'.closed) && (k.draining ==> k'.draining)
      && (Step(s, e).gaveUp && k.closeOnFailure ==> s.gaveUp || k'.closed)
      && (k'.closed ==> k.closed || k'.draining || e.StreamFails? || (k.closeOnFailure && e.Return? && !e.ok))
  {
    if
    case e.Return? =>
      if e.i < |s.sink.loops| && s.sink.loops[e.i].Sending? && |s.sink.loops[e.i].batch.msgs| <= |s.sink.queue| {
        ReturnCloses(s.sink, e.i, e.ok, e.pastDeadline);
      }
    case e.Enter? =>
    case e.HonourClose? || e.StreamFails? || e.CloseSink? || e.WriteMessage? =>
    case e.Receive? || e.PushOne? || e.ConsumerTakes? || e.ChannelCloses? =>
      assert Step(s, e).sink == s.sink && Step(s, e).gaveUp == s.gaveUp;
  }

  /** A stream error ends the sink for good, and it has three causes only: the stream failed by itself, the sink
      was closed and drained, or, if so configured, a send failed. A queue dropped at the deadline always closes a
      stream so configured. */
  lemma {:induction false} StreamClosesOnlyWhen(closeOnFailure: bool, size: nat, es: seq<Event>)
    ensures
      var s := Exec(Init(closeOnFailure, size), es);
      && s.sink.closeOnFailure == closeOnFailure
      && (s.gaveUp && closeOnFailure ==> s.sink.closed)
      && (s.sink.closed ==> s.sink.draining || StreamFailed(es) || (closeOnFailure && SendFailed(es)))
  {
    if es != [] {
      var init, e := es[..|es| - 1], es[|es| - 1];
      StreamClosesOnlyWhen(closeOnFailure, size, init);
      ExecKeepsInv(Init(closeOnFailure, size), init);
      StepCloses(Exec(Init(closeOnFailure, size), init), e);
      assert forall i :: 0 <= i < |init| ==> init[i] == es[i];
      assert es[|es| - 1] == e;
    }
  }

  /** In every reachable state, an honest acknowledgement of the closing batch means that the reader has taken
      every accepted message; the write goroutine then leaves nothing behind. */
  lemma {:induction false} AcknowledgedCloseIsComplete(closeOnFailure: bool, size: nat, es: seq<Event>, i: nat)
    requires
      var s := Exec(Init(closeOnFailure, size), es);
      && i < |s.sink.loops| && s.sink.loops[i].Sending? && s.sink.loops[i].batch.close
      && s.reader.seqNo >= s.sink.loops[i].batch.End()
    ensures
      var s := Exec(Init(closeOnFailure, size), es);
      var k := Step(s, Return(i, true, false)).sink;
      && s.reader.seqNo == |s.accepted|
      && k.queue == [] && k.loops == [] && k.closed
  {
    ExecKeepsInv(Init(closeOnFailure, size), es);
    AckedCloseInState(Exec(Init(closeOnFailure, size), es), i);
  }

  lemma AckedCloseInState(s: Relay, i: nat)
    requires Inv(s)
    requires i < |s.sink.loops| && s.sink.loops[i].Sending? && s.sink.loops[i].batch.close
    requires s.reader.seqNo >= s.sink.loops[i].batch.End()
    ensures s.reader.seqNo == |s.accepted|
    ensures var k := Step(s, Return(i, true, false)).sink; k.queue == [] && k.loops == [] && k.closed
  {
    var b := s.sink.loops[i].batch;
    assert BatchOk(b, s.accepted, s.sink.draining);
    assert b.msgs == s.sink.queue;
  }

  // ---------------------------------------------------------------------------------------------------------
  // What goes on the wire, and that everything can arrive
  // ---------------------------------------------------------------------------------------------------------

  /** The one write goroutine is sending `b`, and `b` is everything not yet acknowledged or dropped. */
  ghost predicate Ships(s: Relay, b: Batch) {
    && s.sink.loops == [Sending(b)] && b in s.sink.sent && s.sink.seqNo <= |s.accepted|
    && b.seqNo == s.sink.seqNo && b.msgs == s.accepted[s.sink.seqNo..] && b.close == s.sink.draining
  }

  lemma EnterShips(s: Relay, i: nat)
    requires Inv(s) && i < |s.sink.loops| && s.sink.loops[i].Entering?
    ensures
      var s' := Step(s, Enter(i));
      && s'.sink.seqNo == s.sink.seqNo && s'.accepted == s.accepted
      && if s.sink.closed || (!s.sink.draining && s.sink.seqNo == |s.accepted|)
         then s'.sink.loops == [] && s'.sink.sent == s.sink.sent
         else exists b :: Ships(s', b) && s'.sink.sent == s.sink.sent + [b]
  {
    var b := Batch(s.sink.seqNo, s.accepted[s.sink.seqNo..], s.sink.draining);
    assert i == 0 && s.sink.loops[0 := Sending(b)] == [Sending(b)];
    assert b in s.sink.sent + [b];
    if !(s.sink.closed || (!s.sink.draining && s.sink.seqNo == |s.accepted|)) { assert Ships(Step(s, Enter(i)), b); }
  }

  /** Where the sink goes on after a send: past what was acknowledged, past everything when it gave up. */
  function SeqAfter(s: Relay, b: Batch, ok: bool, past: bool): nat {
    if ok then b.seqNo + |b.msgs| else if past then |s.accepted| else s.sink.seqNo
  }

  lemma ReturnShips(s: Relay, i: nat, ok: bool, past: bool)
    requires Inv(s) && i < |s.sink.loops| && s.sink.loops[i].Sending?
    ensures
      var b, s' := s.sink.loops[i].batch, Step(s, Return(i, ok, past));
      && s'.sink.seqNo == SeqAfter(s, b, ok, past) && s'.accepted == s.accepted
      && if (if ok then b.close else past) || s.sink.closed || (!s.sink.draining && s'.sink.seqNo == |s.accepted|)
         then s'.sink.loops == [] && s'.sink.sent == s.sink.sent
         else exists b' :: Ships(s', b') && s'.sink.sent == s.sink.sent + [b']
  {
    var s' := Step(s, Return(i, ok, past));
    ReturnKeepsWriter(s, i, ok, past);
    assert i == 0;
    if ok { AckGoesOn(s.sink); } else { FailureGoesOn(s.sink, past); }
    if s'.sink.loops != [] {
      var b' := s'.sink.loops[0].batch;
      assert b' in s.sink.sent + [b'];
      assert Ships(s', b');
    }
  }

  /** The goroutine left, or it sends the whole queue. */
  ghost predicate GoesOn(k: Sink, k': Sink, leaves: bool) {
    if leaves || k.closed || (!k.draining && k'.queue == []) then k'.loops == [] && k'.sent == k.sent
    else
      var b := Batch(k'.seqNo, k'.queue, k.draining);
      k'.loops == [Sending(b)] && k'.sent == k.sent + [b] && k'.draining == k.draining
  }

  lemma LoopHeadGoesOn(k: Sink, failed: bool)
    requires |k.loops| == 1
    ensures
      var k' := LoopHead(k, 0, failed);
      GoesOn(k, k', false) && k'.seqNo == k.seqNo && k'.queue == k.queue
  {
    var b := Batch(k.seqNo, k.queue, k.draining);
    assert k.loops[0 := Sending(b)] == [Sending(b)];
  }

  lemma AckGoesOn(k: Sink)
    requires SinkOk(k) && k.loops != [] && k.loops[0].Sending?
    ensures
      var b, k' := k.loops[0].batch, SendReturned(k, 0, true, false);
      GoesOn(k, k', b.close) && k'.seqNo == k.seqNo + |b.msgs| && |k'.queue| == |k.queue| - |b.msgs|
  {
    var b := k.loops[0].batch;
    var k1 := k.(seqNo := k.seqNo + |b.msgs|, queue := k.queue[|b.msgs|..]);
    if !b.close { LoopHeadGoesOn(k1, false); }
  }

  lemma FailureGoesOn(k: Sink, past: bool)
    requires SinkOk(k) && k.loops != [] && k.loops[0].Sending?
    ensures
      var k' := SendReturned(k, 0, false, past);
      GoesOn(k, k', past) && k'.seqNo == k.seqNo + (if past then |k.queue| else 0)
  {
    if !past { LoopHeadGoesOn(k, true); }
  }

  /** In every run, whenever the write goroutine is at the head of its loop: it leaves exactly when the stream has an
      error or there is nothing to send and nothing to drain, besides after a close was acknowledged or a deadline
      passed; otherwise it sends everything accepted and not yet acknowledged or dropped, with the close flag exactly
      when the sink drains. */
  lemma ShipsEverything(closeOnFailure: bool, size: nat, es: seq<Event>, e: Event)
    requires e.Enter? || e.Return?
    requires var loops := Exec(Init(closeOnFailure, size), es).sink.loops;
             e.i < |loops| && (e.Enter? <==> loops[e.i].Entering?)
    ensures
      var s := Exec(Init(closeOnFailure, size), es);
      var s' := Step(s, e);
      && s'.sink.seqNo
         == (if e.Enter? then s.sink.seqNo else SeqAfter(s, s.sink.loops[e.i].batch, e.ok, e.pastDeadline))
      && if (e.Return? && if e.ok then s.sink.loops[e.i].batch.close else e.pastDeadline)
            || s.sink.closed || (!s.sink.draining && s'.sink.seqNo == |s.accepted|)
         then s'.sink.loops == [] && s'.sink.sent == s.sink.sent
         else exists b :: Ships(s', b) && s'.sink.sent == s.sink.sent + [b]
  {
    var s := Exec(Init(closeOnFailure, size), es);
    ExecKeepsInv(Init(closeOnFailure, size), es);
    if e.Enter? { EnterShips(s, e.i); } else { ReturnShips(s, e.i, e.ok, e.pastDeadline); }
  }

  /** A message is accepted exactly while the stream has no error and the sink does not drain. */
  lemma AcceptedIff(s: Relay, m: Message)
    ensures Step(s, WriteMessage(m)).accepted
         == if s.sink.closed || s.sink.draining then s.accepted else s.accepted + [m]
  {
  }

  /** The channel never holds more than its size, and a message is turned away exactly when the channel is full or
      closed. */
  lemma {:induction false} ChannelIsBounded(closeOnFailure: bool, size: nat, es: seq<Event>)
    ensures
      var s := Exec(Init(closeOnFailure, size), es);
      && s.channel.size == size && |s.channel.pending| <= size
      && (s.reader.status == Running && s.reader.backlog != [] ==>
            (Step(s, PushOne).reader.status == Rejected <==> s.channel.closed || |s.channel.pending| == size))
  {
    if es != [] {
      ChannelIsBounded(closeOnFailure, size, es[..|es| - 1]);
      ChannelStep(Exec(Init(closeOnFailure, size), es[..|es| - 1]), es[|es| - 1]);
    }
  }

  lemma ChannelStep(s: Relay, e: Event)
    requires |s.channel.pending| <= s.channel.size
    ensures Step(s, e).channel.size == s.channel.size && |Step(s, e).channel.pending| <= s.channel.size
  {
  }

  lemma {:induction false} ExecConcat(s: Relay, es: seq<Event>, fs: seq<Event>)
    ensures Exec(s, es + fs) == Exec(Exec(s, es), fs)
  {
    if fs == [] {
      assert es + fs == es;
    } else {
      ExecConcat(s, es, fs[..|fs| - 1]);
      assert (es + fs)[..|es + fs| - 1] == es + fs[..|fs| - 1];
    }
  }

  function Pushes(n: nat): seq<Event> { seq(n, _ => PushOne) }

  lemma SingleEvent(s: Relay, e: Event)
    ensures Exec(s, [e]) == Step(s, e)
  {
    assert [e][..0] == [];
  }

  /** Nothing hinders the reader: it is idle and the channel has room for all that is still to come. */
  ghost predicate Ready(s: Relay) {
    && Inv(s) && s.reader.Idle() && !s.channel.closed && !s.gaveUp && !s.ackLost && !s.sink.closed
    && |s.channel.pending| + |s.accepted| - s.reader.seqNo <= s.channel.size
  }

  /** The events of undisturbed work: no failure, no deadline. */
  predicate Works(e: Event) { e.Enter? || e.Receive? || e.PushOne? || (e.Return? && e.ok) }

  predicate AllWork(es: seq<Event>) { forall i :: 0 <= i < |es| ==> Works(es[i]) }

  lemma MoveOne(pending: seq<Message>, backlog: seq<Message>)
    requires backlog != []
    ensures pending + [backlog[0]] + backlog[1..] == pending + backlog
  {
  }

  lemma {:induction false} PushBacklog(s: Relay)
    requires s.reader.status == Running && !s.channel.closed
    requires |s.channel.pending| + |s.reader.backlog| <= s.channel.size
    ensures
      var s' := Exec(s, Pushes(|s.reader.backlog|));
      && s' == s.(reader := s.reader.(backlog := []), channel := s'.channel)
      && s'.channel == s.channel.(pending := s.channel.pending + s.reader.backlog)
    decreases |s.reader.backlog|
  {
    var n := |s.reader.backlog|;
    if n == 0 {
      assert s.channel.pending + s.reader.backlog == s.channel.pending;
    } else {
      var s1 := Step(s, PushOne);
      assert Pushes(n) == [PushOne] + Pushes(n - 1);
      ExecConcat(s, [PushOne], Pushes(n - 1));
      SingleEvent(s, PushOne);
      PushBacklog(s1);
      MoveOne(s.channel.pending, s.reader.backlog);
    }
  }

  /** Fetching a batch delivers everything up to its end. */
  lemma Fetch(s: Relay, j: nat) returns (es: seq<Event>)
    requires Ready(s) && j < |s.sink.sent|
    ensures AllWork(es)
    ensures
      var s', b := Exec(s, es), s.sink.sent[j];
      && s'.sink == s.sink && s'.accepted == s.accepted && Inv(s')
      && s'.channel.Delivered() <= s.accepted && |s'.channel.Delivered()| >= b.End()
      && s'.reader.status == Running && s'.reader.backlog == [] && s'.reader.closing == b.close
      && (!b.close ==> Ready(s') && s'.reader.seqNo >= b.End())
  {
    var b, s1 := s.sink.sent[j], Step(s, Receive(j));
    assert BatchOk(b, s.accepted, s.sink.draining);
    StepKeepsWriter(s, Receive(j));
    StepKeepsReader(s, Receive(j));
    assert b.seqNo <= s.reader.seqNo;
    TrimmedIsNext(s.accepted, b, s.sink.draining, s.reader.seqNo);
    var n := |s1.reader.backlog|;
    es := [Receive(j)] + Pushes(n);
    PushBacklog(s1);
    ExecConcat(s, [Receive(j)], Pushes(n));
    SingleEvent(s, Receive(j));
    ExecKeepsInv(s, es);
  }

  lemma ShippedArrives(s: Relay, b: Batch) returns (es: seq<Event>)
    requires Ready(s) && Ships(s, b)
    ensures AllWork(es) && Exec(s, es).accepted == s.accepted && Exec(s, es).channel.Delivered() == s.accepted
  {
    var j :| 0 <= j < |s.sink.sent| && s.sink.sent[j] == b;
    es := Fetch(s, j);
  }

  lemma AllWorkConcat(es: seq<Event>, fs: seq<Event>)
    requires AllWork(es) && AllWork(fs)
    ensures AllWork(es + fs)
  {
  }

  lemma NothingMissing(s: Relay)
    requires Ready(s) && s.reader.seqNo == |s.accepted|
    ensures s.channel.Delivered() == s.accepted
  {
    assert s.channel.Delivered() + [] == s.channel.Delivered() && s.accepted[..|s.accepted|] == s.accepted;
  }

  lemma EnteringArrives(s: Relay) returns (es: seq<Event>)
    requires Ready(s) && s.sink.loops != [] && s.sink.loops[0].Entering? && s.reader.seqNo < |s.accepted|
    ensures AllWork(es) && Exec(s, es).accepted == s.accepted && Exec(s, es).channel.Delivered() == s.accepted
  {
    EnterShips(s, 0);
    StepKeepsWriter(s, Enter(0));
    StepKeepsReader(s, Enter(0));
    var s1 := Step(s, Enter(0));
    var b :| Ships(s1, b);
    var fs := ShippedArrives(s1, b);
    es := [Enter(0)] + fs;
    ExecConcat(s, [Enter(0)], fs);
    SingleEvent(s, Enter(0));
  }

  lemma AcknowledgedArrives(s: Relay) returns (es: seq<Event>)
    requires Ready(s) && s.sink.loops != [] && s.sink.loops[0].Sending? && !s.sink.loops[0].batch.close
    requires s.sink.loops[0].batch.End() <= s.reader.seqNo < |s.accepted|
    ensures AllWork(es) && Exec(s, es).accepted == s.accepted && Exec(s, es).channel.Delivered() == s.accepted
  {
    var e := Return(0, true, false);
    ReturnShips(s, 0, true, false);
    StepKeepsWriter(s, e);
    StepKeepsReader(s, e);
    var s1 := Step(s, e);
    assert !s1.sink.closed;
    var b :| Ships(s1, b);
    var fs := ShippedArrives(s1, b);
    es := [e] + fs;
    ExecConcat(s, [e], fs);
    SingleEvent(s, e);
  }

  lemma SendingArrives(s: Relay) returns (es: seq<Event>)
    requires Ready(s) && s.sink.loops != [] && s.sink.loops[0].Sending?
    ensures AllWork(es) && Exec(s, es).accepted == s.accepted && Exec(s, es).channel.Delivered() == s.accepted
  {
    var b := s.sink.loops[0].batch;
    var j :| 0 <= j < |s.sink.sent| && s.sink.sent[j] == b;
    es := Fetch(s, j);
    var s1 := Exec(s, es);
    if b.close {
      assert BatchOk(b, s.accepted, s.sink.draining);
    } else if s1.reader.seqNo == |s.accepted| {
      NothingMissing(s1);
    } else {
      var fs := AcknowledgedArrives(s1);
      ExecConcat(s, es, fs);
      AllWorkConcat(es, fs);
      es := es + fs;
    }
  }

  /** From every reachable state with an open stream, an idle reader and room in the channel, in which nothing was
      dropped and no acknowledgement was false, undisturbed work delivers everything accepted. */
  lemma EverythingCanArrive(closeOnFailure: bool, size: nat, es: seq<Event>) returns (more: seq<Event>)
    requires
      var s := Exec(Init(closeOnFailure, size), es);
      && s.reader.Idle() && !s.sink.closed && !s.channel.closed && !s.gaveUp && !s.ackLost
      && |s.channel.pending| + |s.accepted| - s.reader.seqNo <= s.channel.size
    ensures AllWork(more)
    ensures
      var s, s' := Exec(Init(closeOnFailure, size), es), Exec(Init(closeOnFailure, size), es + more);
      s'.accepted == s.accepted && s'.channel.Delivered() == s.accepted
  {
    var s := Exec(Init(closeOnFailure, size), es);
    ExecKeepsInv(Init(closeOnFailure, size), es);
    more := [];
    if s.reader.seqNo == |s.accepted| {
      NothingMissing(s);
    } else if s.sink.loops[0].Entering? {
      more := EnteringArrives(s);
    } else {
      more := SendingArrives(s);
    }
    ExecConcat(Init(closeOnFailure, size), es, more);
  }

  /** Fetching what a draining sink has on the wire lets the reader honour the close flag. */
  lemma ShippedCloses(s: Relay, b: Batch) returns (es: seq<Event>)
    requires Ready(s) && Ships(s, b) && s.sink.draining
    ensures AllWork(es) && Closed(s, Exec(s, es + [HonourClose]))
  {
    var j :| 0 <= j < |s.sink.sent| && s.sink.sent[j] == b;
    es := Fetch(s, j);
    ExecConcat(s, es, [HonourClose]);
    SingleEvent(Exec(s, es), HonourClose);
  }

  /** The reader ended on a close flag, the stream is closed and everything is delivered. */
  ghost predicate Closed(s: Relay, s': Relay) {
    && s'.reader.status == Finished && s'.sink.closed
    && s'.accepted == s.accepted && s'.channel.Delivered() == s.accepted
  }

  /** The next turn of the write loop puts the closing batch on the wire. */
  lemma TurnCloses(s: Relay, e: Event) returns (es: seq<Event>)
    requires Ready(s) && s.sink.draining && s.sink.loops != []
    requires if s.sink.loops[0].Entering? then e == Enter(0)
             else e == Return(0, true, false) && !s.sink.loops[0].batch.close
                  && s.sink.loops[0].batch.End() <= s.reader.seqNo
    ensures AllWork(es) && Closed(s, Exec(s, es + [HonourClose]))
  {
    if e.Enter? { EnterShips(s, 0); } else { ReturnShips(s, 0, true, false); }
    StepKeepsWriter(s, e);
    StepKeepsReader(s, e);
    var b :| Ships(Step(s, e), b);
    var fs := ShippedCloses(Step(s, e), b);
    es := [e] + fs;
    ExecConcat(s, [e], fs + [HonourClose]);
    SingleEvent(s, e);
    assert es + [HonourClose] == [e] + (fs + [HonourClose]);
  }

  /** From every such state in which the sink was closed, undisturbed work lets the reader end on the close flag. */
  lemma DrainingCanClose(closeOnFailure: bool, size: nat, es: seq<Event>) returns (more: seq<Event>)
    requires
      var s := Exec(Init(closeOnFailure, size), es);
      && s.reader.Idle() && !s.sink.closed && !s.channel.closed && !s.gaveUp && !s.ackLost
      && |s.channel.pending| + |s.accepted| - s.reader.seqNo <= s.channel.size
      && s.sink.draining
    ensures AllWork(more)
    ensures
      var s, s' := Exec(Init(closeOnFailure, size), es), Exec(Init(closeOnFailure, size), es + more + [HonourClose]);
      && s'.reader.status == Finished && s'.sink.closed
      && s'.accepted == s.accepted && s'.channel.Delivered() == s.accepted
  {
    var s := Exec(Init(closeOnFailure, size), es);
    ExecKeepsInv(Init(closeOnFailure, size), es);
    if s.sink.loops[0].Entering? {
      more := TurnCloses(s, Enter(0));
    } else {
      more := SendingCloses(s);
    }
    ExecConcat(Init(closeOnFailure, size), es, more + [HonourClose]);
    assert es + more + [HonourClose] == es + (more + [HonourClose]);
  }

  lemma SendingCloses(s: Relay) returns (es: seq<Event>)
    requires Ready(s) && s.sink.draining && s.sink.loops != [] && s.sink.loops[0].Sending?
    ensures AllWork(es) && Closed(s, Exec(s, es + [HonourClose]))
  {
    var b := s.sink.loops[0].batch;
    if b.close {
      assert Ships(s, b);
      es := ShippedCloses(s, b);
    } else {
      var j :| 0 <= j < |s.sink.sent| && s.sink.sent[j] == b;
      es := Fetch(s, j);
      var s1 := Exec(s, es);
      var fs := TurnCloses(s1, Return(0, true, false));
      ExecConcat(s, es, fs + [HonourClose]);
      AllWorkConcat(es, fs);
      assert es + fs + [HonourClose] == es + (fs + [HonourClose]);
      es := es + fs;
    }
  }

  /** Once the sink was closed, or its stream failed, no run adds a message. */
  lemma {:induction false} NothingAcceptedAfter(s: Relay, e: Event, es: seq<Event>)
    requires e.CloseSink? || e.StreamFails?
    ensures var s' := Exec(Step(s, e), es); (s'.sink.draining || s'.sink.closed) && s'.accepted == s.accepted
  {
    if es != [] {
      NothingAcceptedAfter(s, e, es[..|es| - 1]);
      RefusesStep(Exec(Step(s, e), es[..|es| - 1]), es[|es| - 1]);
    }
  }

  lemma RefusesStep(s: Relay, e: Event)
    requires s.sink.draining || s.sink.closed
    ensures (Step(s, e).sink.draining || Step(s, e).sink.closed) && Step(s, e).accepted == s.accepted
  {
    if e.Return? && e.i < |s.sink.loops| && s.sink.loops[e.i].Sending?
       && |s.sink.loops[e.i].batch.msgs| <= |s.sink.queue| {
      ReturnCloses(s.sink, e.i, e.ok, e.pastDeadline);
    }
  }

  // ---------------------------------------------------------------------------------------------------------
  // The imperative code, one method per locked region
  // ---------------------------------------------------------------------------------------------------------

  class SignalMessageSink {
    const closeOnFailure: bool
    var seqNo: nat
    var queue: seq<Message>
    var writing: bool
    var draining: bool
    // the stream
    var closed: bool
    var sent: seq<Batch>
    // the write goroutines
    var loops: seq<WriteLoop>

    function View(): Sink
      reads this
    {
      Sink(closeOnFailure, seqNo, queue, writing, draining, closed, loops, sent)
    }

    constructor (closeOnFailure: bool)
      ensures View() == Init(closeOnFailure, 0).sink
    {
      this.closeOnFailure := closeOnFailure;
      seqNo, queue, writing, draining, closed, sent, loops := 0, [], false, false, false, [], [];
    }

    method WriteMessage(m: Message) returns (ok: bool)
      modifies this
      ensures ok == (!old(closed) && !old(draining))
      ensures View() == Write(old(View()), m)
    {
      if closed || draining {
        return false;
      }
      queue := queue + [m];
      if !writing {
        writing := true;
        loops := loops + [Entering];
      }
      return true;
    }

    method Close()
      modifies this
      ensures View() == Drain(old(View()))
    {
      draining := true;
      if !writing {
        writing := true;
        loops := loops + [Entering];
      }
    }

    /** signal.go lines 315-322: leave the loop, or put a batch on the wire. */
    method RunToSend(i: nat, failed: bool)
      requires i < |loops|
      modifies this
      ensures View() == LoopHead(old(View()), i, failed)
    {
      var close := draining;
      if (!close && |queue| == 0) || closed {
        End(i, failed);
      } else {
        var msg := Batch(seqNo, queue, close);
        loops := loops[i := Sending(msg)];
        sent := sent + [msg];
      }
    }

    /** signal.go lines 324-353: what the goroutine does from the return of Send to its next Send or its end. */
    method SendDone(i: nat, ok: bool, pastDeadline: bool)
      requires SinkOk(View()) && i < |loops| && loops[i].Sending?
      modifies this
      ensures View() == SendReturned(old(View()), i, ok, pastDeadline)
    {
      var n, close := |loops[i].batch.msgs|, loops[i].batch.close;
      if !ok && pastDeadline {
        seqNo := seqNo + |queue|;
        queue := [];
        End(i, true);
        return;
      }
      if ok {
        seqNo := seqNo + n;
        queue := queue[n..];
        if close {
          End(i, false);
          return;
        }
      }
      RunToSend(i, !ok);
    }

    method End(i: nat, failed: bool)
      requires i < |loops|
      modifies this
      ensures View() == Leave(old(View()), i, failed)
    {
      writing := false;
      if draining {
        closed := true;
      }
      if failed && closeOnFailure {
        closed := true;
      }
      loops := loops[..i] + loops[i + 1..];
    }
  }

  class MessageChannel {
    const size: nat
    var pending: seq<Message>
    var taken: seq<Message>
    var isClosed: bool

    function View(): Channel
      reads this
    {
      Channel(size, pending, taken, isClosed)
    }

    constructor (size: nat)
      ensures View() == Channel(size, [], [], false)
    {
      this.size, pending, taken, isClosed := size, [], [], false;
    }

    /** Never blocks: a full or closed channel refuses the message and keeps its contents. */
    method WriteMessage(m: Message) returns (ok: bool)
      modifies this
      ensures ok == old(View()).Accepts()
      ensures View() == if ok then old(View()).(pending := old(pending) + [m]) else old(View())
    {
      if isClosed || |pending| >= size {
        return false;
      }
      pending := pending + [m];
      return true;
    }

    method Close()
      modifies this
      ensures View() == old(View()).(closed := true)
    {
      isClosed := true;
    }
  }

  /** Write a whole backlog, stopping at the first refusal. */
  function PushAll(r: Reader, c: Channel): (Reader, Channel)
    decreases |r.backlog|
  {
    if r.status != Running || r.backlog == [] then (r, c)
    else var (r', c') := Push(r, c); if r'.status == Running then PushAll(r', c') else (r', c')
  }

  /** One turn of the copy loop: take the batch, write it, honour its close flag. */
  function CopyBatch(r: Reader, c: Channel, b: Batch): (Reader, Channel) {
    var (r', c') := PushAll(Take(r, b), c);
    (if r'.status == Running && r'.closing then Finish(r') else r', c')
  }

  /** The copy loop over the batches a stream yields: stop at an error or after an honoured close flag. */
  function Copy(r: Reader, c: Channel, stream: seq<Batch>): (Reader, Channel)
    decreases |stream|
  {
    if r.status != Running || stream == [] then (r, c)
    else
      var (r', c') := CopyBatch(r, c, stream[0]);
      Copy(r', c', stream[1..])
  }

  lemma {:induction false} PushAllIsARun(s: Relay, n: nat)
    requires s.reader.status == Running ==> n >= |s.reader.backlog|
    ensures Exec(s, Pushes(n)) == var (r, c) := PushAll(s.reader, s.channel); s.(reader := r, channel := c)
    decreases n
  {
    if n > 0 {
      assert Pushes(n) == [PushOne] + Pushes(n - 1);
      ExecConcat(s, [PushOne], Pushes(n - 1));
      SingleEvent(s, PushOne);
      PushAllIsARun(Step(s, PushOne), n - 1);
      PushOneThenAll(s);
    }
  }

  lemma PushOneThenAll(s: Relay)
    ensures
      var s1 := Step(s, PushOne);
      var (r, c) := PushAll(s.reader, s.channel);
      var (r1, c1) := PushAll(s1.reader, s1.channel);
      r == r1 && c == c1 && s1.(reader := r, channel := c) == s.(reader := r, channel := c)
  {
  }

  /** The code's copy loop is one run of the relay's reader events: CopyBatch on a batch from the network is
      Receive, then a PushOne for each message, then HonourClose. */
  lemma CopyBatchIsARun(s: Relay, j: nat)
    requires s.reader.Idle() && j < |s.sink.sent|
    ensures
      var s' := Exec(s, [Receive(j)] + Pushes(|s.sink.sent[j].msgs|) + [HonourClose]);
      (s'.reader, s'.channel) == CopyBatch(s.reader, s.channel, s.sink.sent[j]) && s'.accepted == s.accepted
  {
    var n := |s.sink.sent[j].msgs|;
    var s1 := Step(s, Receive(j));
    SingleEvent(s, Receive(j));
    ExecConcat(s, [Receive(j)], Pushes(n));
    PushAllIsARun(s1, n);
    var s2 := Exec(s1, Pushes(n));
    ExecConcat(s, [Receive(j)] + Pushes(n), [HonourClose]);
    SingleEvent(s2, HonourClose);
    PushAllEmpties(s1.reader, s1.channel);
    FinishIsHonourClose(s2);
  }

  lemma FinishIsHonourClose(s: Relay)
    requires s.reader.status == Running ==> s.reader.backlog == []
    ensures Step(s, HonourClose).reader
         == (if s.reader.status == Running && s.reader.closing then Finish(s.reader) else s.reader)
    ensures Step(s, HonourClose).channel == s.channel && Step(s, HonourClose).accepted == s.accepted
  {
  }

  lemma {:induction false} PushAllEmpties(r: Reader, c: Channel)
    ensures var r' := PushAll(r, c).0;
            r'.closing == r.closing && (r'.status == Running ==> r'.backlog == [])
    decreases |r.backlog|
  {
    if r.status == Running && r.backlog != [] {
      var (r', c') := Push(r, c);
      if r'.status == Running { PushAllEmpties(r', c'); }
    }
  }

  class SignalMessageReader {
    var seqNo: nat

    constructor ()
      ensures seqNo == 0
    {
      seqNo := 0;
    }

    method Read(msg: Batch) returns (res: Result<seq<Message>, ()>)
      modifies this
      ensures res == ReadBatch(old(seqNo), msg)
      ensures seqNo == if res.Ok? then old(seqNo) + |res.value| else old(seqNo)
    {
      var msgs := msg.msgs;
      if seqNo < msg.seqNo {
        return Err(());
      }
      if seqNo > msg.seqNo {
        var n := seqNo - msg.seqNo;
        if n > |msgs| {
          n := |msgs|;
        }
        msgs := msgs[n..];
      }
      seqNo := seqNo + |msgs|;
      return Ok(msgs);
    }
  }

  /** signal.go lines 210-216: hand the messages of one batch to the channel, up to the first refusal. */
  method WriteBatch(res: seq<Message>, ch: MessageChannel, ghost r: Reader) returns (ok: bool)
    requires r.status == Running && r.backlog == res
    modifies ch
    ensures var (r', c) := PushAll(r, old(ch.View()));
            ch.View() == c && r'.status == (if ok then Running else Rejected) && (ok ==> r' == r.(backlog := []))
  {
    ghost var rest := r;
    for j := 0 to |res|
      invariant rest == r.(backlog := res[j..])
      invariant PushAll(r, old(ch.View())) == PushAll(rest, ch.View())
    {
      ok := ch.WriteMessage(res[j]);
      if !ok {
        return false;
      }
      rest := rest.(backlog := res[j + 1..]);
    }
    return true;
  }

  /** signal.go lines 203-221, the body of the copy loop. */
  method CopyOne(msg: Batch, reader: SignalMessageReader, ch: MessageChannel) returns (status: Status)
    requires reader as object != ch
    modifies reader, ch
    ensures var (r, c) := CopyBatch(Reader(old(reader.seqNo), [], false, Running), old(ch.View()), msg);
            && ch.View() == c && status == r.status
            && (status == Running ==> r == Reader(reader.seqNo, [], false, Running))
  {
    ghost var r := Take(Reader(reader.seqNo, [], false, Running), msg);
    var read := reader.Read(msg);
    if read.Err? {
      return Dropped;
    }
    var ok := WriteBatch(read.value, ch, r);
    if !ok {
      return Rejected;
    }
    return if msg.close then Finished else Running;
  }

  method CopySignalStreamToMessageChannel(stream: seq<Batch>, ch: MessageChannel) returns (status: Status)
    modifies ch
    ensures var (r, c) := Copy(Reader(0, [], false, Running), old(ch.View()), stream);
            status == r.status && ch.View() == c
  {
    var reader := new SignalMessageReader();
    for i := 0 to |stream|
      invariant Copy(Reader(0, [], false, Running), old(ch.View()), stream)
             == Copy(Reader(reader.seqNo, [], false, Running), ch.View(), stream[i..])
    {
      assert stream[i..][0] == stream[i] && stream[i..][1..] == stream[i + 1..];
      status := CopyOne(stream[i], reader, ch);
      if status != Running {
        return;
      }
    }
    status := Running;
  }
}
