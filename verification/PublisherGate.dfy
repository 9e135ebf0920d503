/** The publisher's side of reliable data: the sequence gate of participant.go (onReceivedDataMessage,
    handleReceivedDataMessage) and the cache of migrationdatacache.go that waits for the previous node's successor. */
module PublisherGate {
  import opened Wrappers

  newtype uint32 = x: int | 0 <= x < 0x1_0000_0000

  datatype CacheState = Waiting | Timeout | Done

  /** A migration cache; packets are known by their sequence number. */
  datatype Cache = Cache(lastSeq: uint32, pkts: seq<uint32>, state: CacheState)

  /** `lastSeq + 1` in the source's 32-bit arithmetic. */
  function Next(q: uint32): uint32 { if q == 0xFFFF_FFFF then 0 else q + 1 }

  /** MigrationDataCache.Add; `expired` is the outcome of the deadline test. */
  function Add(c: Cache, q: uint32, expired: bool): Cache {
    if c.state != Waiting || q <= c.lastSeq then c
    else if q == Next(c.lastSeq) then c.(state := Done)
    else c.(pkts := c.pkts + [q], state := if expired then Timeout else Waiting)
  }

  /** `forwarded` are the sequenced reliable packets passed on to the room. */
  datatype Publisher = Publisher(lastPub: uint32, cache: Option<Cache>, stopped: bool, forwarded: seq<uint32>)

  /** The gate of handleReceivedDataMessage. */
  function Handle(p: Publisher, q: uint32): Publisher {
    if p.lastPub >= q then p else p.(lastPub := q, forwarded := p.forwarded + [q])
  }

  function HandleAll(p: Publisher, qs: seq<uint32>): Publisher {
    if qs == [] then p else Handle(HandleAll(p, qs[..|qs| - 1]), qs[|qs| - 1])
  }

  /** onReceivedDataMessage for a reliable packet with a sequence number. */
  function Receive(p: Publisher, q: uint32, expired: bool): Publisher {
    if p.stopped then p
    else if p.cache.None? then Handle(p, q)
    else
      var c := Add(p.cache.value, q, expired);
      match c.state
      case Waiting => p.(cache := Some(c))
      case Timeout => HandleAll(p.(cache := None), c.pkts)
      case Done => Handle(p.(cache := None), q)
  }

  datatype Event = Packet(q: uint32, expired: bool) | InstallCache(lastSeq: uint32) | StopByMigrateOut

  function Step(p: Publisher, e: Event): Publisher {
    match e
    case Packet(q, expired) => if q == 0 then p else Receive(p, q, expired)
    case InstallCache(lastSeq) => if lastSeq > 0 then p.(cache := Some(Cache(lastSeq, [], Waiting))) else p
    case StopByMigrateOut => p.(stopped := true)
  }

  function Exec(p: Publisher, es: seq<Event>): Publisher {
    if es == [] then p else Step(Exec(p, es[..|es| - 1]), es[|es| - 1])
  }

  ghost predicate Increasing(qs: seq<uint32>) { forall i, j :: 0 <= i < j < |qs| ==> qs[i] < qs[j] }

  /** `p'` has forwarded more than `p`: an increasing continuation above everything before. */
  ghost predicate Continues(p: Publisher, p': Publisher) {
    && p.forwarded <= p'.forwarded
    && p.lastPub <= p'.lastPub
    && Increasing(p'.forwarded[|p.forwarded|..])
    && (forall q <- p'.forwarded[|p.forwarded|..] :: p.lastPub < q <= p'.lastPub)
  }

  lemma ContinuesTrans(a: Publisher, b: Publisher, c: Publisher)
    requires Continues(a, b) && Continues(b, c)
    ensures Continues(a, c)
  {
    var n, m := |a.forwarded|, |b.forwarded|;
    var ab, bc := b.forwarded[n..], c.forwarded[m..];
    assert c.forwarded[n..] == ab + bc;
    assert Increasing(ab + bc) by {
      forall i, j | 0 <= i < j < |ab + bc| ensures (ab + bc)[i] < (ab + bc)[j] {
        if i < |ab| <= j { assert ab[i] in ab && bc[j - |ab|] in bc; }
      }
    }
  }

  lemma HandleContinues(p: Publisher, q: uint32)
    ensures Continues(p, Handle(p, q))
  {
    if p.lastPub < q { assert Handle(p, q).forwarded[|p.forwarded|..] == [q]; }
  }

  lemma {:induction false} HandleAllContinues(p: Publisher, qs: seq<uint32>)
    ensures Continues(p, HandleAll(p, qs))
    ensures HandleAll(p, qs).cache == p.cache && HandleAll(p, qs).stopped == p.stopped
  {
    if qs != [] {
      HandleAllContinues(p, qs[..|qs| - 1]);
      var m := HandleAll(p, qs[..|qs| - 1]);
      HandleContinues(m, qs[|qs| - 1]);
      ContinuesTrans(p, m, HandleAll(p, qs));
    }
  }

  lemma StepContinues(p: Publisher, e: Event)
    ensures Continues(p, Step(p, e))
  {
    if e.Packet? && e.q != 0 && !p.stopped {
      if p.cache.None? {
        HandleContinues(p, e.q);
      } else {
        var c, p' := Add(p.cache.value, e.q, e.expired), p.(cache := None);
        HandleAllContinues(p', c.pkts);
        HandleContinues(p', e.q);
      }
    }
  }

  /** Over any packet arrivals, cache installations, timeouts and flushes, what a publisher forwards is strictly
      increasing and lies above the sequence it started from. */
  lemma {:induction false} ForwardedIncreases(p: Publisher, es: seq<Event>)
    ensures Continues(p, Exec(p, es))
  {
    if es != [] {
      var m := Exec(p, es[..|es| - 1]);
      ForwardedIncreases(p, es[..|es| - 1]);
      StepContinues(m, es[|es| - 1]);
      ContinuesTrans(p, m, Exec(p, es));
    }
  }

  /** Once reliable data is stopped by a migration away, nothing is forwarded any more. */
  lemma {:induction false} StoppedForwardsNothing(p: Publisher, es: seq<Event>)
    ensures var p' := Exec(Step(p, StopByMigrateOut), es); p'.stopped && p'.forwarded == p.forwarded
  {
    if es != [] { StoppedForwardsNothing(p, es[..|es| - 1]); }
  }

  /** Without a cache, a packet is forwarded exactly when it is past everything forwarded before. */
  lemma GateForwardsIff(p: Publisher, q: uint32, expired: bool)
    requires !p.stopped && p.cache == None
    ensures
      var p' := Step(p, Packet(q, expired));
      if q > p.lastPub then p'.forwarded == p.forwarded + [q] && p'.lastPub == q else p' == p
  {
  }

  // ---------------------------------------------------------------------------------------------------------
  // What the cache lets through
  // ---------------------------------------------------------------------------------------------------------

  function Packets(qs: seq<(uint32, bool)>): seq<Event> {
    seq(|qs|, i requires 0 <= i < |qs| => Packet(qs[i].0, qs[i].1))
  }

  /** The packets from past `lastSeq`, in arrival order. */
  function Later(qs: seq<(uint32, bool)>, lastSeq: uint32): seq<uint32> {
    if qs == [] then []
    else Later(qs[..|qs| - 1], lastSeq) + (if qs[|qs| - 1].0 > lastSeq then [qs[|qs| - 1].0] else [])
  }

  /** What a cache waits for: the successor of its last sequence, or a later packet past the deadline. */
  predicate Ends(q: (uint32, bool), lastSeq: uint32) {
    q.0 > lastSeq && (q.0 as int == lastSeq as int + 1 || q.1)
  }

  function AddAll(c: Cache, qs: seq<(uint32, bool)>): Cache {
    if qs == [] then c else Add(AddAll(c, qs[..|qs| - 1]), qs[|qs| - 1].0, qs[|qs| - 1].1)
  }

  lemma {:induction false} WaitingKeepsLater(lastSeq: uint32, qs: seq<(uint32, bool)>)
    requires forall j :: 0 <= j < |qs| ==> !Ends(qs[j], lastSeq)
    ensures AddAll(Cache(lastSeq, [], Waiting), qs) == Cache(lastSeq, Later(qs, lastSeq), Waiting)
  {
    if qs != [] {
      WaitingKeepsLater(lastSeq, qs[..|qs| - 1]);
      assert !Ends(qs[|qs| - 1], lastSeq);
    }
  }

  /** The first packet to end the wait decides how a cache ends, for good: done on the successor, and otherwise with
      all packets from past its last sequence up to this one. */
  lemma {:induction false} FirstToEndDecides(lastSeq: uint32, qs: seq<(uint32, bool)>, i: nat)
    requires i < |qs| && Ends(qs[i], lastSeq) && forall j :: 0 <= j < i ==> !Ends(qs[j], lastSeq)
    ensures AddAll(Cache(lastSeq, [], Waiting), qs)
         == if qs[i].0 as int == lastSeq as int + 1 then Cache(lastSeq, Later(qs[..i], lastSeq), Done)
            else Cache(lastSeq, Later(qs[..i], lastSeq) + [qs[i].0], Timeout)
  {
    var init := qs[..|qs| - 1];
    if i == |init| {
      WaitingKeepsLater(lastSeq, init);
    } else {
      FirstToEndDecides(lastSeq, init, i);
      assert init[..i] == qs[..i];
    }
  }

  /** While a cache waits, packets change nothing but the cache, and it keeps all those past the last sequence. */
  ghost predicate StillWaiting(p: Publisher, lastSeq: uint32, qs: seq<(uint32, bool)>, p': Publisher) {
    && p'.cache.Some? && p'.cache.value.state == Waiting && p'.cache.value.lastSeq == lastSeq
    && p'.cache.value.pkts == Later(qs, lastSeq)
    && (forall q <- p'.cache.value.pkts :: q > Next(lastSeq) && lastSeq < 0xFFFF_FFFF)
    && p' == p.(cache := p'.cache)
  }

  lemma ReceiveWaitsUnless(p: Publisher, q: (uint32, bool))
    requires !p.stopped && p.cache.Some? && p.cache.value.state == Waiting
    ensures
      var c, p' := p.cache.value, Step(p, Packet(q.0, q.1));
      && p'.stopped == p.stopped
      && p'.cache == (if Ends(q, c.lastSeq) then None
                      else Some(c.(pkts := c.pkts + (if q.0 > c.lastSeq then [q.0] else []))))
      && (p'.cache.Some? ==> p' == p.(cache := p'.cache))
  {
    var c, p' := p.cache.value, p.(cache := None);
    assert c.pkts + [] == c.pkts;
    if Ends(q, c.lastSeq) { HandleAllContinues(p', Add(c, q.0, q.1).pkts); }
  }

  /** A cache is installed for a positive sequence only, and stays in place exactly until a packet ends the wait. */
  lemma {:induction false} CacheWaitsIff(p: Publisher, lastSeq: uint32, qs: seq<(uint32, bool)>)
    requires !p.stopped && (p.cache == None || lastSeq > 0)
    ensures
      var p' := Exec(Step(p, InstallCache(lastSeq)), Packets(qs));
      && !p'.stopped
      && (p'.cache.Some? <==> lastSeq > 0 && forall i :: 0 <= i < |qs| ==> !Ends(qs[i], lastSeq))
      && (p'.cache.Some? ==> p'.cache.value.state == Waiting && p'.cache.value.lastSeq == lastSeq)
  {
    if qs != [] {
      var init, q := qs[..|qs| - 1], qs[|qs| - 1];
      assert Packets(qs)[..|qs| - 1] == Packets(init);
      CacheWaitsIff(p, lastSeq, init);
      var w := Exec(Step(p, InstallCache(lastSeq)), Packets(init));
      if w.cache.Some? { ReceiveWaitsUnless(w, q); }
      assert qs == init + [q];
    }
  }

  /** As long as an installed cache is in place, nothing has been forwarded. */
  lemma {:induction false} WaitingForwardsNothing(p: Publisher, lastSeq: uint32, qs: seq<(uint32, bool)>)
    requires !p.stopped && lastSeq > 0
    requires Exec(Step(p, InstallCache(lastSeq)), Packets(qs)).cache.Some?
    ensures StillWaiting(p, lastSeq, qs, Exec(Step(p, InstallCache(lastSeq)), Packets(qs)))
  {
    if qs != [] {
      var init, q := qs[..|qs| - 1], qs[|qs| - 1];
      assert Packets(qs)[..|qs| - 1] == Packets(init);
      var w := Exec(Step(p, InstallCache(lastSeq)), Packets(init));
      if w.cache.Some? {
        WaitingForwardsNothing(p, lastSeq, init);
        ReceiveWaitsUnless(w, q);
      }
    }
  }

  /** When an installed cache ends as Done, the packet that ends it is the successor of the previous node's last
      sequence, and it is the first one forwarded after the installation if and only if nothing past that
      sequence had been forwarded before; otherwise the gate drops it. */
  lemma {:induction false} DoneForwardsSuccessorFirst(
      p: Publisher, lastSeq: uint32, qs: seq<(uint32, bool)>, q: uint32, expired: bool)
    requires !p.stopped && lastSeq > 0 && q > 0
    requires
      var w := Exec(Step(p, InstallCache(lastSeq)), Packets(qs));
      w.cache.Some? && Add(w.cache.value, q, expired).state == Done
    ensures
      var p' := Step(Exec(Step(p, InstallCache(lastSeq)), Packets(qs)), Packet(q, expired));
      && q as int == lastSeq as int + 1 && p'.cache == None
      && p'.forwarded == (if p.lastPub <= lastSeq then p.forwarded + [q] else p.forwarded)
  {
    WaitingForwardsNothing(p, lastSeq, qs);
  }

  /** A node that takes a publisher over starts its gate at the previous node's last sequence, which is also what it
      installs the cache with (participant.go lines 380 and 1302-1304). */
  function Start(lastSeq: uint32): Publisher { Publisher(lastSeq, None, false, []) }

  lemma {:induction false} HandleAllMoves(p: Publisher, qs: seq<uint32>)
    ensures HandleAll(p, qs).forwarded == p.forwarded ==> HandleAll(p, qs).lastPub == p.lastPub
  {
    if qs != [] {
      var m := HandleAll(p, qs[..|qs| - 1]);
      HandleAllMoves(p, qs[..|qs| - 1]);
      HandleAllContinues(p, qs[..|qs| - 1]);
      HandleContinues(m, qs[|qs| - 1]);
    }
  }

  lemma StepMoves(p: Publisher, e: Event)
    ensures Step(p, e).forwarded == p.forwarded ==> Step(p, e).lastPub == p.lastPub
  {
    if e.Packet? && p.cache.Some? {
      HandleAllMoves(p.(cache := None), Add(p.cache.value, e.q, e.expired).pkts);
    }
  }

  /** The gate moves only with what it forwards. */
  lemma {:induction false} GateMoves(p: Publisher, es: seq<Event>)
    ensures Exec(p, es).forwarded == p.forwarded ==> Exec(p, es).lastPub == p.lastPub
  {
    if es != [] {
      var m := Exec(p, es[..|es| - 1]);
      GateMoves(p, es[..|es| - 1]);
      ForwardedIncreases(p, es[..|es| - 1]);
      StepMoves(m, es[|es| - 1]);
      StepContinues(m, es[|es| - 1]);
    }
  }

  /** So on that node the successor is the first packet it ever forwards, whatever it received before the migration
      completed, if and only if it had forwarded nothing before the cache was installed. */
  lemma SuccessorFirstIffNothingBefore(
      lastSeq: uint32, before: seq<Event>, qs: seq<(uint32, bool)>, q: uint32, expired: bool)
    requires lastSeq > 0 && q > 0 && !Exec(Start(lastSeq), before).stopped
    requires
      var w := Exec(Step(Exec(Start(lastSeq), before), InstallCache(lastSeq)), Packets(qs));
      w.cache.Some? && Add(w.cache.value, q, expired).state == Done
    ensures
      var p := Exec(Start(lastSeq), before);
      var p' := Step(Exec(Step(p, InstallCache(lastSeq)), Packets(qs)), Packet(q, expired));
      p'.forwarded == (if p.forwarded == [] then [q] else p.forwarded)
  {
    DoneForwardsSuccessorFirst(Exec(Start(lastSeq), before), lastSeq, qs, q, expired);
    PastStartIffForwarded(lastSeq, before);
  }

  lemma PastStartIffForwarded(lastSeq: uint32, es: seq<Event>)
    ensures var p := Exec(Start(lastSeq), es); p.lastPub <= lastSeq <==> p.forwarded == []
  {
    var p := Exec(Start(lastSeq), es);
    ForwardedIncreases(Start(lastSeq), es);
    GateMoves(Start(lastSeq), es);
    assert p.forwarded[0..] == p.forwarded;
    if p.forwarded != [] { assert p.forwarded[0] in p.forwarded; }
  }

  /** Something can come before: a reliable channel that the client opens itself (transport.go lines 677-684) takes
      packets before the migration completes and the cache is installed. One from past the successor then passes
      the gate, and the successor, when it comes, is dropped for good. */
  lemma AheadDropsSuccessor(lastSeq: uint32, ahead: uint32, e1: bool, e2: bool)
    requires 0 < lastSeq < 0xFFFF_FFFF && ahead > Next(lastSeq)
    ensures
      Exec(Start(lastSeq), [Packet(ahead, e1), InstallCache(lastSeq), Packet(Next(lastSeq), e2)]).forwarded == [ahead]
  {
    var f1, f2, f3 := Packet(ahead, e1), InstallCache(lastSeq), Packet(Next(lastSeq), e2);
    assert [f1, f2, f3][..2] == [f1, f2] && [f1, f2][..1] == [f1] && [f1][..0] == [];
    var p1 := Step(Start(lastSeq), f1);
    assert Exec(Start(lastSeq), [f1]) == p1;
    assert p1.forwarded == [] + [ahead] && p1.lastPub == ahead;
  }

  /** Which packets of a list pass a gate at `last`: those above it and above every earlier one. */
  function Passed(last: uint32, qs: seq<uint32>): seq<uint32> {
    if qs == [] then []
    else
      var init, q := qs[..|qs| - 1], qs[|qs| - 1];
      Passed(last, init) + (if last < q && forall j :: 0 <= j < |init| ==> init[j] < q then [q] else [])
  }

  lemma {:induction false} HandleAllPasses(p: Publisher, qs: seq<uint32>)
    ensures HandleAll(p, qs).forwarded == p.forwarded + Passed(p.lastPub, qs)
    ensures HandleAll(p, qs).lastPub >= p.lastPub
    ensures forall q <- qs :: q <= HandleAll(p, qs).lastPub
    ensures HandleAll(p, qs).lastPub == p.lastPub || HandleAll(p, qs).lastPub in qs
  {
    if qs != [] {
      var init, q := qs[..|qs| - 1], qs[|qs| - 1];
      HandleAllPasses(p, init);
      assert qs == init + [q];
      assert forall j :: 0 <= j < |init| ==> init[j] in init;
    }
  }

  /** A timeout flushes the cached packets through the gate: those above the last forwarded sequence and above
      all packets cached before them, in arrival order; the packet that met the deadline is the last of them. */
  lemma {:induction false} TimeoutFlushesRecords(p: Publisher, lastSeq: uint32, qs: seq<(uint32, bool)>, q: uint32)
    requires !p.stopped && lastSeq > 0 && q > 0
    requires
      var w := Exec(Step(p, InstallCache(lastSeq)), Packets(qs));
      w.cache.Some? && q as int > lastSeq as int + 1
    ensures
      var w := Exec(Step(p, InstallCache(lastSeq)), Packets(qs));
      var p' := Step(w, Packet(q, true));
      p'.cache == None && p'.forwarded == p.forwarded + Passed(p.lastPub, Later(qs, lastSeq) + [q])
  {
    WaitingForwardsNothing(p, lastSeq, qs);
    var w := Exec(Step(p, InstallCache(lastSeq)), Packets(qs));
    HandleAllPasses(w.(cache := None), w.cache.value.pkts + [q]);
    HandleAllContinues(w.(cache := None), w.cache.value.pkts + [q]);
  }

  // ---------------------------------------------------------------------------------------------------------
  // The imperative code
  // ---------------------------------------------------------------------------------------------------------

  class MigrationDataCache {
    const lastSeq: uint32
    var pkts: seq<uint32>
    var state: CacheState

    function View(): Cache
      reads this
    {
      Cache(lastSeq, pkts, state)
    }

    constructor (lastSeq: uint32)
      ensures View() == Cache(lastSeq, [], Waiting)
    {
      this.lastSeq, pkts, state := lastSeq, [], Waiting;
    }

    method AddPacket(q: uint32, expired: bool) returns (r: CacheState)
      modifies this
      ensures View() == Add(old(View()), q, expired) && r == state
    {
      if state == Done || state == Timeout {
        return state;
      }
      if q <= lastSeq {
        return state;
      }
      if q == Next(lastSeq) {
        state := Done;
        return state;
      }
      pkts := pkts + [q];
      if expired {
        state := Timeout;
      }
      return state;
    }
  }

  class ReliablePublisher {
    var lastPubReliableSeq: uint32
    var migrateInPubDataCache: MigrationDataCache?
    var stopReliableByMigrateOut: bool
    var forwarded: seq<uint32>

    ghost function View(): Publisher
      reads this, migrateInPubDataCache
    {
      Publisher(lastPubReliableSeq, if migrateInPubDataCache == null then None else Some(migrateInPubDataCache.View()),
                stopReliableByMigrateOut, forwarded)
    }

    constructor (lastPub: uint32)
      ensures View() == Publisher(lastPub, None, false, [])
    {
      lastPubReliableSeq, migrateInPubDataCache, stopReliableByMigrateOut, forwarded := lastPub, null, false, [];
    }

    method Install(lastSeq: uint32)
      modifies this
      ensures View() == Step(old(View()), InstallCache(lastSeq))
    {
      if lastSeq > 0 {
        migrateInPubDataCache := new MigrationDataCache(lastSeq);
      }
    }

    method OnReceivedDataMessage(q: uint32, expired: bool)
      requires q > 0
      modifies this, migrateInPubDataCache
      ensures View() == Receive(old(View()), q, expired)
    {
      if stopReliableByMigrateOut {
        return;
      }
      if migrateInPubDataCache != null {
        var cache := migrateInPubDataCache;
        var state := cache.AddPacket(q, expired);
        match state {
          case Waiting =>
            return;
          case Timeout =>
            migrateInPubDataCache := null;
            var cachedMsgs := cache.pkts;
            ghost var start := View();
            for i := 0 to |cachedMsgs|
              invariant migrateInPubDataCache == null
              invariant View() == HandleAll(start, cachedMsgs[..i])
            {
              assert cachedMsgs[..i + 1][..i] == cachedMsgs[..i];
              HandleReceivedDataMessage(cachedMsgs[i]);
            }
            assert cachedMsgs[..|cachedMsgs|] == cachedMsgs;
            return;
          case Done =>
            migrateInPubDataCache := null;
        }
      }
      HandleReceivedDataMessage(q);
    }

    method HandleReceivedDataMessage(q: uint32)
      modifies this
      ensures View() == Handle(old(View()), q) && migrateInPubDataCache == old(migrateInPubDataCache)
    {
      if lastPubReliableSeq >= q {
        return;
      }
      lastPubReliableSeq := q;
      forwarded := forwarded + [q];
    }
  }
}
