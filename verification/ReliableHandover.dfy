/** Reliable data hand-over to a joining recipient: pkg/rtc/participant.go (SendDataMessage,
    replayJoiningReliableMessages) against the room's cache-then-broadcast of pkg/rtc/room.go. */
module ReliableHandover {
  type ParticipantID = nat
  type Identity = string

  /** A sequenced reliable message; an empty destination list means everybody. */
  datatype Message = Message(sender: ParticipantID, seqNo: nat, dest: seq<Identity>, body: nat)

  predicate AddressedTo(m: Message, me: Identity) { m.dest == [] || me in m.dest }

  // ---------------------------------------------------------------------------------------------------------
  // The recipient
  // ---------------------------------------------------------------------------------------------------------

  /** `first` and `lastWritten` are joiningMessageFirstSeqs and joiningMessageLastWrittenSeqs; `channel` is what
      went out on the reliable data channel. */
  datatype Recipient = Recipient(
    me: Identity, first: map<ParticipantID, nat>, lastWritten: map<ParticipantID, nat>,
    canWrite: bool, channel: seq<Message>)

  function Send(r: Recipient, m: Message): Recipient {
    if !r.canWrite then
      if m.sender in r.first then r else r.(first := r.first[m.sender := m.seqNo])
    else if m.sender in r.lastWritten && m.seqNo <= r.lastWritten[m.sender] then r
    else r.(lastWritten := r.lastWritten - {m.sender}, channel := r.channel + [m])
  }

  /** GetCachedReliableDataMessage: the cached messages at or past the first sequence asked for. */
  function Cached(cache: seq<Message>, first: map<ParticipantID, nat>): seq<Message> {
    if cache == [] then []
    else
      var m := cache[|cache| - 1];
      Cached(cache[..|cache| - 1], first) + (if m.sender in first && m.seqNo >= first[m.sender] then [m] else [])
  }

  function ReplayOne(r: Recipient, m: Message): Recipient {
    if !AddressedTo(m, r.me) then r
    else
      r.(channel := r.channel + [m],
         lastWritten := if m.sender in r.lastWritten && r.lastWritten[m.sender] >= m.seqNo then r.lastWritten
                        else r.lastWritten[m.sender := m.seqNo])
  }

  function ReplayAll(r: Recipient, ms: seq<Message>): Recipient {
    if ms == [] then r else ReplayOne(ReplayAll(r, ms[..|ms| - 1]), ms[|ms| - 1])
  }

  function Replay(r: Recipient, cache: seq<Message>): Recipient {
    ReplayAll(r, Cached(cache, r.first)).(first := map[], canWrite := true)
  }

  // ---------------------------------------------------------------------------------------------------------
  // The room around it
  // ---------------------------------------------------------------------------------------------------------

  /** `log` lists every message ever put in the cache and `cache` those not evicted since; `busy` holds, per
      sender, the message cached but not yet broadcast. `joined` says whether the recipient is in the room's
      participant list. Three fields are histories: `start` the first sequence observed per sender, `migrated`
      the senders whose start came from the previous node, and `lost` those of which the replay asked for a message
      that was neither cached any more nor still to be broadcast. */
  datatype Room = Room(
    rcpt: Recipient, joined: bool, log: seq<Message>, cache: seq<Message>, busy: map<ParticipantID, Message>,
    start: map<ParticipantID, nat>, migrated: set<ParticipantID>, lost: set<ParticipantID>)

  datatype Event =
    | CacheMessage(m: Message)
    | Broadcast(sender: ParticipantID)
    | Join
    | MigrateIn(sender: ParticipantID, lastSeq: nat)
    | Evict(i: nat)
    | FullyEstablished

  function Init(me: Identity): Room {
    Room(Recipient(me, map[], map[], false, []), false, [], [], map[], map[], {}, {})
  }

  /** The publisher-side gate: one message of a sender at a time, with strictly increasing sequence numbers. */
  predicate MayCache(s: Room, m: Message) {
    m.sender !in s.busy && m.seqNo > 0 && forall x <- s.log :: x.sender == m.sender ==> x.seqNo < m.seqNo
  }

  ghost predicate Wanted(m: Message, me: Identity, first: map<ParticipantID, nat>) {
    AddressedTo(m, me) && m.sender in first && m.seqNo >= first[m.sender]
  }

  predicate Busy(s: Room, m: Message) { m.sender in s.busy && s.busy[m.sender] == m }

  ghost function Step(s: Room, e: Event): Room {
    match e
    case CacheMessage(m) =>
      if MayCache(s, m) then s.(log := s.log + [m], cache := s.cache + [m], busy := s.busy[m.sender := m]) else s
    case Broadcast(p) =>
      if p !in s.busy then s
      else
        var m := s.busy[p];
        var s' := s.(busy := s.busy - {p});
        if s.joined && AddressedTo(m, s.rcpt.me) then
          s'.(rcpt := Send(s.rcpt, m), start := if p in s.start then s.start else s.start[p := m.seqNo])
        else s'
    case Join => s.(joined := true)
    case MigrateIn(p, lastSeq) =>
      if s.rcpt.canWrite then s
      else s.(rcpt := s.rcpt.(first := s.rcpt.first[p := lastSeq + 1]), start := s.start[p := lastSeq + 1],
              migrated := s.migrated + {p})
    case Evict(i) => if i < |s.cache| then s.(cache := s.cache[..i] + s.cache[i + 1..]) else s
    case FullyEstablished =>
      if s.joined then
        s.(rcpt := Replay(s.rcpt, s.cache),
           lost := s.lost + (set m | m in s.log && Wanted(m, s.rcpt.me, s.rcpt.first)
                                     && m !in s.cache && !Busy(s, m) :: m.sender))
      else s
  }

  ghost function Exec(s: Room, es: seq<Event>): Room {
    if es == [] then s else Step(Exec(s, es[..|es| - 1]), es[|es| - 1])
  }

  // ---------------------------------------------------------------------------------------------------------
  // Invariants
  // ---------------------------------------------------------------------------------------------------------

  /** Each sender's messages appear in strictly increasing sequence order. */
  ghost predicate Ordered(ms: seq<Message>) {
    forall i, j :: 0 <= i < j < |ms| && ms[i].sender == ms[j].sender ==> ms[i].seqNo < ms[j].seqNo
  }

  ghost predicate CacheInv(s: Room) {
    && Ordered(s.log)
    && Ordered(s.cache)
    && (forall m <- s.cache :: m in s.log)
    && (forall p <- s.busy :: s.busy[p] in s.log && s.busy[p].sender == p
                              && forall m <- s.log :: m.sender == p ==> m.seqNo <= s.busy[p].seqNo)
  }

  ghost predicate ChannelInv(s: Room) {
    var r := s.rcpt;
    && Ordered(r.channel)
    && (forall m <- r.channel :: m in s.log && AddressedTo(m, r.me))
    && (!r.canWrite ==> r.channel == [] && r.lastWritten == map[] && s.start == r.first)
    && (r.canWrite ==> s.joined && r.first == map[])
    && WrittenInv(r)
    && (forall m <- r.channel :: m.sender in s.busy && s.busy[m.sender].seqNo <= m.seqNo ==>
          m.sender in r.lastWritten && s.busy[m.sender].seqNo <= r.lastWritten[m.sender])
  }

  /** Every remembered last sequence is that of a message the replay wrote. */
  ghost predicate WrittenInv(r: Recipient) {
    forall p <- r.lastWritten :: exists m <- r.channel :: m.sender == p && m.seqNo == r.lastWritten[p]
  }

  /** Nothing below the start of a sender that did not migrate, and (unless some of it was lost) everything
      from it on that is not still being broadcast. */
  ghost predicate ExactInv(s: Room) {
    var r := s.rcpt;
    && (forall m <- r.channel :: m.sender in s.start && (m.seqNo >= s.start[m.sender] || m.sender in s.migrated))
    && (r.canWrite ==>
          forall m <- s.log :: Wanted(m, r.me, s.start) && m.sender !in s.lost && !Busy(s, m) ==> m in r.channel)
    && (forall p <- s.start :: p !in s.migrated ==> exists m <- s.log :: m.sender == p && m.seqNo == s.start[p])
  }

  ghost predicate Inv(s: Room) { CacheInv(s) && ChannelInv(s) && ExactInv(s) }

  lemma OrderedSnoc(ms: seq<Message>, m: Message)
    requires Ordered(ms) && forall x <- ms :: x.sender == m.sender ==> x.seqNo < m.seqNo
    ensures Ordered(ms + [m])
  {
  }

  lemma OrderedLast(ms: seq<Message>)
    requires Ordered(ms) && ms != []
    ensures forall x <- ms[..|ms| - 1] :: x.sender == ms[|ms| - 1].sender ==> x.seqNo < ms[|ms| - 1].seqNo
  {
  }

  lemma {:induction false} CachedFacts(cache: seq<Message>, first: map<ParticipantID, nat>)
    requires Ordered(cache)
    ensures Ordered(Cached(cache, first))
    ensures forall m :: m in Cached(cache, first) <==> m in cache && m.sender in first && m.seqNo >= first[m.sender]
  {
    if cache != [] {
      var init, m := cache[..|cache| - 1], cache[|cache| - 1];
      CachedFacts(init, first);
      OrderedLast(cache);
      assert cache == init + [m];
      if m.sender in first && m.seqNo >= first[m.sender] { OrderedSnoc(Cached(init, first), m); }
    }
  }

  /** What a replay of `ms` leaves: exactly the addressed messages, in order, and their last number per sender. */
  ghost predicate Replayed(r: Recipient, ms: seq<Message>) {
    && Ordered(r.channel)
    && (forall m :: m in r.channel <==> m in ms && AddressedTo(m, r.me))
    && WrittenInv(r)
    && (forall m <- r.channel :: m.sender in r.lastWritten && m.seqNo <= r.lastWritten[m.sender])
  }

  lemma ReplayOneWritten(r: Recipient, m: Message)
    requires WrittenInv(r)
    ensures WrittenInv(ReplayOne(r, m))
  {
    var r' := ReplayOne(r, m);
    forall p <- r'.lastWritten ensures exists x <- r'.channel :: x.sender == p && x.seqNo == r'.lastWritten[p] {
      if p == m.sender && r'.lastWritten != r.lastWritten {
        assert m in r'.channel;
      } else {
        assert p in r.lastWritten;
        var x :| x in r.channel && x.sender == p && x.seqNo == r.lastWritten[p];
        assert x in r'.channel;
      }
    }
  }

  lemma ReplayOneFacts(r: Recipient, ms: seq<Message>, m: Message)
    requires Replayed(r, ms) && forall x <- ms :: x.sender == m.sender ==> x.seqNo < m.seqNo
    ensures Replayed(ReplayOne(r, m), ms + [m])
  {
    ReplayOneWritten(r, m);
    if AddressedTo(m, r.me) {
      OrderedSnoc(r.channel, m);
      ReplayOneLast(r, m);
    }
  }

  lemma ReplayOneLast(r: Recipient, m: Message)
    requires AddressedTo(m, r.me)
    requires forall x <- r.channel :: x.sender in r.lastWritten && x.seqNo <= r.lastWritten[x.sender]
    ensures var r' := ReplayOne(r, m);
            forall x <- r'.channel :: x.sender in r'.lastWritten && x.seqNo <= r'.lastWritten[x.sender]
  {
  }

  lemma {:induction false} ReplayAllFacts(r: Recipient, ms: seq<Message>)
    requires r.channel == [] && r.lastWritten == map[] && Ordered(ms)
    ensures
      var r' := ReplayAll(r, ms);
      && r'.me == r.me && r'.first == r.first && r'.canWrite == r.canWrite
      && Replayed(r', ms)
  {
    if ms != [] {
      var init, m := ms[..|ms| - 1], ms[|ms| - 1];
      ReplayAllFacts(r, init);
      OrderedLast(ms);
      ReplayOneFacts(ReplayAll(r, init), init, m);
      assert ms == init + [m];
    }
  }

  lemma {:induction false} CachedNothing(cache: seq<Message>)
    ensures Cached(cache, map[]) == []
  {
    if cache != [] { CachedNothing(cache[..|cache| - 1]); }
  }

  lemma CacheKeepsCache(s: Room, m: Message)
    requires CacheInv(s) && MayCache(s, m)
    ensures CacheInv(Step(s, CacheMessage(m)))
  {
    OrderedSnoc(s.log, m);
    OrderedSnoc(s.cache, m);
  }

  lemma CacheKeepsChannel(s: Room, m: Message)
    requires CacheInv(s) && ChannelInv(s) && MayCache(s, m)
    ensures ChannelInv(Step(s, CacheMessage(m)))
  {
    forall x <- s.rcpt.channel | x.sender == m.sender ensures x.seqNo < m.seqNo {
      assert x in s.log;
    }
  }

  lemma CacheKeepsExact(s: Room, m: Message)
    requires Inv(s) && MayCache(s, m)
    ensures ExactInv(Step(s, CacheMessage(m)))
  {
    var s' := Step(s, CacheMessage(m));
    forall p <- s.start | p !in s.migrated ensures exists x <- s'.log :: x.sender == p && x.seqNo == s.start[p] {
      var x :| x in s.log && x.sender == p && x.seqNo == s.start[p];
      assert x in s'.log;
    }
  }

  /** A message already written by the replay is recognised by its number. */
  lemma SuppressedWasWritten(s: Room, p: ParticipantID)
    requires CacheInv(s) && ChannelInv(s) && p in s.busy
    requires p in s.rcpt.lastWritten && s.busy[p].seqNo <= s.rcpt.lastWritten[p]
    ensures s.busy[p] in s.rcpt.channel
  {
    var x :| x in s.rcpt.channel && x.sender == p && x.seqNo == s.rcpt.lastWritten[p];
    assert x in s.log && s.busy[p] in s.log;
  }

  lemma SendKeepsWritten(r: Recipient, m: Message)
    requires WrittenInv(r)
    ensures WrittenInv(Send(r, m))
  {
    var r' := Send(r, m);
    forall q <- r'.lastWritten ensures exists x <- r'.channel :: x.sender == q && x.seqNo == r'.lastWritten[q] {
      var x :| x in r.channel && x.sender == q && x.seqNo == r.lastWritten[q];
      assert x in r'.channel;
    }
  }

  lemma SendKeepsChannel(s: Room, p: ParticipantID)
    requires CacheInv(s) && ChannelInv(s)
    requires p in s.busy && s.joined && AddressedTo(s.busy[p], s.rcpt.me) && s.rcpt.canWrite
    ensures ChannelInv(Step(s, Broadcast(p)))
  {
    var m, r, s' := s.busy[p], s.rcpt, Step(s, Broadcast(p));
    SendKeepsWritten(r, m);
    SendKeepsPending(s, p);
    if !(p in r.lastWritten && m.seqNo <= r.lastWritten[p]) {
      NewestInChannel(s, p);
      OrderedSnoc(r.channel, m);
    }
  }

  lemma SendKeepsPending(s: Room, p: ParticipantID)
    requires CacheInv(s) && ChannelInv(s) && p in s.busy && s.rcpt.canWrite
    ensures var r, busy := Send(s.rcpt, s.busy[p]), s.busy - {p};
            forall x <- r.channel :: x.sender in busy && busy[x.sender].seqNo <= x.seqNo ==>
              x.sender in r.lastWritten && busy[x.sender].seqNo <= r.lastWritten[x.sender]
  {
    var r, busy := Send(s.rcpt, s.busy[p]), s.busy - {p};
    forall x <- r.channel | x.sender in busy && busy[x.sender].seqNo <= x.seqNo
      ensures x.sender in r.lastWritten && busy[x.sender].seqNo <= r.lastWritten[x.sender]
    {
      assert x.sender in s.busy && x.sender != p && x in s.rcpt.channel;
    }
  }

  lemma NewestInChannel(s: Room, p: ParticipantID)
    requires CacheInv(s) && ChannelInv(s) && p in s.busy
    requires !(p in s.rcpt.lastWritten && s.busy[p].seqNo <= s.rcpt.lastWritten[p])
    ensures forall x <- s.rcpt.channel :: x.sender == p ==> x.seqNo < s.busy[p].seqNo
  {
  }

  lemma SendKeepsExact(s: Room, p: ParticipantID)
    requires Inv(s)
    requires p in s.busy && s.joined && AddressedTo(s.busy[p], s.rcpt.me) && s.rcpt.canWrite
    ensures ExactInv(Step(s, Broadcast(p)))
  {
    var m, s' := s.busy[p], Step(s, Broadcast(p));
    assert m in s.log && m.sender == p;
    assert m in s'.rcpt.channel by {
      if p in s.rcpt.lastWritten && m.seqNo <= s.rcpt.lastWritten[p] { SuppressedWasWritten(s, p); }
    }
    StartKeepsOld(s, p, m);
    forall x <- s.log | Wanted(x, s'.rcpt.me, s'.start) && x.sender !in s.lost && !Busy(s', x)
      ensures x in s'.rcpt.channel
    {
      if x != m { WantedBefore(s, p, m, x); }
    }
  }

  lemma StartKeepsOld(s: Room, p: ParticipantID, m: Message)
    requires CacheInv(s) && ExactInv(s) && p in s.busy && m == s.busy[p]
    ensures p in s.start && p !in s.migrated ==> m.seqNo >= s.start[p]
  {
    if p in s.start && p !in s.migrated {
      var x :| x in s.log && x.sender == p && x.seqNo == s.start[p];
    }
  }

  /** Any other message wanted after the broadcast of `m` was wanted before it. */
  lemma WantedBefore(s: Room, p: ParticipantID, m: Message, x: Message)
    requires Inv(s) && x.sender !in s.lost && s.rcpt.canWrite && p in s.busy && m == s.busy[p] && x in s.log && x != m
    requires Wanted(x, s.rcpt.me, if p in s.start then s.start else s.start[p := m.seqNo])
    requires x.sender in s.busy - {p} ==> s.busy[x.sender] != x
    ensures x in s.rcpt.channel
  {
    if x.sender == p {
      assert x.seqNo <= m.seqNo && m in s.log;
      if x.seqNo == m.seqNo { SameNumber(s, x, m); }
    }
  }

  lemma SameNumber(s: Room, x: Message, m: Message)
    requires CacheInv(s) && x in s.log && m in s.log && x.sender == m.sender && x.seqNo == m.seqNo
    ensures x == m
  {
  }

  lemma BroadcastKeeps(s: Room, p: ParticipantID)
    requires Inv(s) && p in s.busy
    ensures Inv(Step(s, Broadcast(p)))
  {
    var m := s.busy[p];
    if s.joined && AddressedTo(m, s.rcpt.me) && s.rcpt.canWrite {
      SendKeepsChannel(s, p);
      SendKeepsExact(s, p);
    } else {
      assert m in s.log;
    }
  }

  lemma ReplayKeepsChannel(s: Room)
    requires Inv(s) && s.joined && !s.rcpt.canWrite
    ensures ChannelInv(Step(s, FullyEstablished))
  {
    CachedFacts(s.cache, s.rcpt.first);
    ReplayAllFacts(s.rcpt, Cached(s.cache, s.rcpt.first));
  }

  lemma ReplayKeepsExact(s: Room)
    requires Inv(s) && s.joined && !s.rcpt.canWrite
    ensures ExactInv(Step(s, FullyEstablished))
  {
    CachedFacts(s.cache, s.rcpt.first);
    ReplayAllFacts(s.rcpt, Cached(s.cache, s.rcpt.first));
  }

  lemma ReplayTwice(s: Room)
    requires Inv(s) && s.joined && s.rcpt.canWrite
    ensures Step(s, FullyEstablished) == s
  {
    CachedNothing(s.cache);
    assert forall m <- s.log :: !Wanted(m, s.rcpt.me, s.rcpt.first);
  }

  lemma ReplayKeeps(s: Room)
    requires Inv(s) && s.joined
    ensures Inv(Step(s, FullyEstablished))
  {
    if s.rcpt.canWrite {
      ReplayTwice(s);
    } else {
      ReplayKeepsChannel(s);
      ReplayKeepsExact(s);
    }
  }

  lemma MigrateKeeps(s: Room, p: ParticipantID, lastSeq: nat)
    requires Inv(s)
    ensures Inv(Step(s, MigrateIn(p, lastSeq)))
  {
  }

  lemma OrderedWithout(ms: seq<Message>, i: nat)
    requires Ordered(ms) && i < |ms|
    ensures Ordered(ms[..i] + ms[i + 1..]) && forall m <- ms[..i] + ms[i + 1..] :: m in ms
  {
    var rest := ms[..i] + ms[i + 1..];
    assert forall k :: 0 <= k < |rest| ==> rest[k] == ms[if k < i then k else k + 1];
  }

  lemma EvictKeepsCache(s: Room, i: nat)
    requires CacheInv(s) && i < |s.cache|
    ensures CacheInv(Step(s, Evict(i)))
  {
    OrderedWithout(s.cache, i);
  }

  /** Only CacheInv speaks of the cache. */
  lemma EvictKeepsChannel(s: Room, i: nat)
    requires ChannelInv(s)
    ensures ChannelInv(Step(s, Evict(i)))
  {
  }

  lemma EvictKeepsExact(s: Room, i: nat)
    requires ExactInv(s)
    ensures ExactInv(Step(s, Evict(i)))
  {
    assert forall m :: Busy(Step(s, Evict(i)), m) <==> Busy(s, m);
  }

  lemma EvictKeeps(s: Room, i: nat)
    requires Inv(s)
    ensures Inv(Step(s, Evict(i)))
  {
    if i < |s.cache| { EvictKeepsCache(s, i); }
    EvictKeepsChannel(s, i);
    EvictKeepsExact(s, i);
  }

  lemma StepKeepsInv(s: Room, e: Event)
    requires Inv(s)
    ensures Inv(Step(s, e))
  {
    match e
    case CacheMessage(m) => if MayCache(s, m) { CacheKeepsCache(s, m); CacheKeepsChannel(s, m); CacheKeepsExact(s, m); }
    case Broadcast(p) => if p in s.busy { BroadcastKeeps(s, p); }
    case Join =>
    case MigrateIn(p, lastSeq) => MigrateKeeps(s, p, lastSeq);
    case Evict(i) => EvictKeeps(s, i);
    case FullyEstablished => if s.joined { ReplayKeeps(s); }
  }

  lemma {:induction false} ExecKeepsInv(s: Room, es: seq<Event>)
    requires Inv(s)
    ensures Inv(Exec(s, es))
  {
    if es != [] {
      ExecKeepsInv(s, es[..|es| - 1]);
      StepKeepsInv(Exec(s, es[..|es| - 1]), es[|es| - 1]);
    }
  }

  // ---------------------------------------------------------------------------------------------------------
  // Every interleaving of senders, evictions and the replay
  // ---------------------------------------------------------------------------------------------------------

  lemma InitInv(me: Identity)
    ensures Inv(Init(me))
  {
  }

  /** Whatever was evicted: no sender's message is repeated or overtaken on the recipient's channel, and only
      messages addressed to it appear there. */
  lemma {:induction false} NoDuplicatesNoReordering(me: Identity, es: seq<Event>)
    ensures
      var s := Exec(Init(me), es);
      Ordered(s.rcpt.channel) && forall m <- s.rcpt.channel :: m in s.log && AddressedTo(m, me)
  {
    InitInv(me);
    ExecKeepsInv(Init(me), es);
    MeStays(me, es);
  }

  lemma StepKeepsMe(s: Room, e: Event)
    ensures Step(s, e).rcpt.me == s.rcpt.me
  {
    if e.FullyEstablished? { ReplayAllKeepsMe(s.rcpt, Cached(s.cache, s.rcpt.first)); }
  }

  lemma {:induction false} MeStays(me: Identity, es: seq<Event>)
    ensures Exec(Init(me), es).rcpt.me == me
  {
    if es != [] {
      MeStays(me, es[..|es| - 1]);
      StepKeepsMe(Exec(Init(me), es[..|es| - 1]), es[|es| - 1]);
    }
  }

  lemma {:induction false} ReplayAllKeepsMe(r: Recipient, ms: seq<Message>)
    ensures ReplayAll(r, ms).me == r.me
  {
    if ms != [] { ReplayAllKeepsMe(r, ms[..|ms| - 1]); }
  }

  /** The messages of sender `p` among `ms`, in order. */
  function From(ms: seq<Message>, p: ParticipantID): seq<Message> {
    if ms == [] then []
    else From(ms[..|ms| - 1], p) + (if ms[|ms| - 1].sender == p then [ms[|ms| - 1]] else [])
  }

  /** Of those, the ones addressed to `me` from number `start` on. */
  function Due(ms: seq<Message>, p: ParticipantID, me: Identity, start: nat): seq<Message> {
    if ms == [] then []
    else
      var m := ms[|ms| - 1];
      Due(ms[..|ms| - 1], p, me, start) + (if m.sender == p && AddressedTo(m, me) && m.seqNo >= start then [m] else [])
  }

  ghost predicate Increasing(ms: seq<Message>) {
    forall i, j :: 0 <= i < j < |ms| ==> ms[i].seqNo < ms[j].seqNo
  }

  lemma IncreasingSnoc(ms: seq<Message>, m: Message)
    requires Increasing(ms) && forall x <- ms :: x.seqNo < m.seqNo
    ensures Increasing(ms + [m])
  {
  }

  lemma {:induction false} FromFacts(ms: seq<Message>, p: ParticipantID)
    requires Ordered(ms)
    ensures Increasing(From(ms, p))
    ensures forall m :: m in From(ms, p) <==> m in ms && m.sender == p
  {
    if ms != [] {
      FromFacts(ms[..|ms| - 1], p);
      OrderedLast(ms);
      assert ms == ms[..|ms| - 1] + [ms[|ms| - 1]];
      if ms[|ms| - 1].sender == p { IncreasingSnoc(From(ms[..|ms| - 1], p), ms[|ms| - 1]); }
    }
  }

  lemma {:induction false} DueFacts(ms: seq<Message>, p: ParticipantID, me: Identity, start: nat)
    requires Ordered(ms)
    ensures Increasing(Due(ms, p, me, start))
    ensures forall m :: m in Due(ms, p, me, start) <==>
              m in ms && m.sender == p && AddressedTo(m, me) && m.seqNo >= start
  {
    if ms != [] {
      var m := ms[|ms| - 1];
      DueFacts(ms[..|ms| - 1], p, me, start);
      OrderedLast(ms);
      assert ms == ms[..|ms| - 1] + [m];
      if m.sender == p && AddressedTo(m, me) && m.seqNo >= start {
        IncreasingSnoc(Due(ms[..|ms| - 1], p, me, start), m);
      }
    }
  }

  /** Two increasing sequences with the same elements are equal. */
  lemma {:induction false} IncreasingDetermined(a: seq<Message>, b: seq<Message>)
    requires Increasing(a) && Increasing(b) && forall m :: m in a <==> m in b
    ensures a == b
  {
    if a == [] || b == [] {
      if a != [] { HasElement(a); }
      if b != [] { HasElement(b); }
    } else {
      SameLast(a, b);
      WithoutLast(a);
      WithoutLast(b);
      IncreasingDetermined(a[..|a| - 1], b[..|b| - 1]);
      assert a == a[..|a| - 1] + [a[|a| - 1]] && b == b[..|b| - 1] + [b[|b| - 1]];
    }
  }

  lemma SameLast(a: seq<Message>, b: seq<Message>)
    requires Increasing(a) && Increasing(b) && a != [] && b != [] && forall m :: m in a <==> m in b
    ensures a[|a| - 1] == b[|b| - 1]
  {
    assert a[|a| - 1] in b && b[|b| - 1] in a;
    LastIsLargest(a, b[|b| - 1]);
    LastIsLargest(b, a[|a| - 1]);
  }

  lemma HasElement(ms: seq<Message>)
    requires ms != []
    ensures exists m :: m in ms
  {
    assert ms[0] in ms;
  }

  lemma LastIsLargest(a: seq<Message>, m: Message)
    requires Increasing(a) && m in a
    ensures m.seqNo <= a[|a| - 1].seqNo && (m.seqNo == a[|a| - 1].seqNo ==> m == a[|a| - 1])
  {
  }

  lemma WithoutLast(a: seq<Message>)
    requires Increasing(a) && a != []
    ensures Increasing(a[..|a| - 1])
    ensures forall m {:trigger m in a[..|a| - 1]} {:trigger m in a} :: m in a[..|a| - 1] <==> m in a && m != a[|a| - 1]
  {
    assert a == a[..|a| - 1] + [a[|a| - 1]];
  }

  // ---------------------------------------------------------------------------------------------------------
  // Exactly once, from the first observed message on
  // ---------------------------------------------------------------------------------------------------------

  /** Nothing of sender `p` on the channel lies before its start. */
  ghost predicate NoneBelow(s: Room, p: ParticipantID) {
    p in s.start ==> forall m <- s.rcpt.channel :: m.sender == p ==> m.seqNo >= s.start[p]
  }

  /** The event does not broadcast to the open recipient a message of `p` from before its start. Only a start that
      was handed over by a migration can be past a message still to come. */
  ghost predicate PastStart(s: Room, e: Event, p: ParticipantID) {
    e == Broadcast(p) && p in s.busy && p in s.start && s.joined && s.rcpt.canWrite && AddressedTo(s.busy[p], s.rcpt.me)
    ==> s.busy[p].seqNo >= s.start[p]
  }

  /** No event of the run does. */
  ghost predicate NeverLags(me: Identity, es: seq<Event>, p: ParticipantID) {
    es == [] || (NeverLags(me, es[..|es| - 1], p) && PastStart(Exec(Init(me), es[..|es| - 1]), es[|es| - 1], p))
  }

  lemma ReplayStartsAtFirst(s: Room, p: ParticipantID)
    requires Inv(s) && s.joined
    ensures NoneBelow(Step(s, FullyEstablished), p) <==> NoneBelow(s, p)
  {
    if s.rcpt.canWrite {
      ReplayTwice(s);
    } else {
      CachedFacts(s.cache, s.rcpt.first);
      ReplayAllFacts(s.rcpt, Cached(s.cache, s.rcpt.first));
    }
  }

  lemma BroadcastKeepsNoneBelowIff(s: Room, q: ParticipantID, p: ParticipantID)
    requires Inv(s) && q in s.busy
    ensures NoneBelow(Step(s, Broadcast(q)), p) <==> NoneBelow(s, p) && PastStart(s, Broadcast(q), p)
  {
    var m, s' := s.busy[q], Step(s, Broadcast(q));
    if s.joined && AddressedTo(m, s.rcpt.me) && s.rcpt.canWrite {
      if q in s.rcpt.lastWritten && m.seqNo <= s.rcpt.lastWritten[q] {
        SuppressedWasWritten(s, q);
        assert s'.rcpt.channel == s.rcpt.channel && s'.start == s.start;
      } else {
        assert s'.rcpt.channel == s.rcpt.channel + [m];
        assert m in s'.rcpt.channel && forall x <- s.rcpt.channel :: x in s'.rcpt.channel;
      }
    }
  }

  /** An event keeps the channel from the start on exactly when it does not broadcast an older message. */
  lemma StepKeepsNoneBelowIff(s: Room, e: Event, p: ParticipantID)
    requires Inv(s)
    ensures NoneBelow(Step(s, e), p) <==> NoneBelow(s, p) && PastStart(s, e, p)
  {
    match e
    case Broadcast(q) => if q in s.busy { BroadcastKeepsNoneBelowIff(s, q, p); }
    case FullyEstablished => if s.joined { ReplayStartsAtFirst(s, p); }
    case CacheMessage(m) =>
    case Join =>
    case MigrateIn(q, lastSeq) =>
    case Evict(i) =>
  }

  lemma {:induction false} NoneBelowIffNeverLags(me: Identity, es: seq<Event>, p: ParticipantID)
    ensures NoneBelow(Exec(Init(me), es), p) <==> NeverLags(me, es, p)
  {
    if es != [] {
      NoneBelowIffNeverLags(me, es[..|es| - 1], p);
      InitInv(me);
      ExecKeepsInv(Init(me), es[..|es| - 1]);
      StepKeepsNoneBelowIff(Exec(Init(me), es[..|es| - 1]), es[|es| - 1], p);
    }
  }

  /** A sender whose start was observed, not handed over, never lags. */
  lemma ObservedSendersNeverLag(me: Identity, es: seq<Event>, p: ParticipantID)
    requires p !in Exec(Init(me), es).migrated
    ensures NeverLags(me, es, p)
  {
    InitInv(me);
    ExecKeepsInv(Init(me), es);
    NoneBelowIffNeverLags(me, es, p);
  }

  /** Of the sender, a message wanted is missing and not still to be broadcast. */
  ghost predicate Misses(s: Room, p: ParticipantID) {
    exists m <- s.log :: m.sender == p && Wanted(m, s.rcpt.me, s.start) && m !in s.rcpt.channel && !Busy(s, m)
  }

  /** Of a sender that lost something, a message wanted is not on the channel and never will be. */
  ghost predicate LostOk(s: Room) {
    && (!s.rcpt.canWrite ==> s.lost == {})
    && forall p <- s.lost :: Misses(s, p)
  }

  lemma ReplayLoses(s: Room)
    requires Inv(s) && LostOk(s) && s.joined
    ensures LostOk(Step(s, FullyEstablished))
  {
    var s' := Step(s, FullyEstablished);
    if s.rcpt.canWrite {
      ReplayTwice(s);
    } else {
      CachedFacts(s.cache, s.rcpt.first);
      ReplayAllFacts(s.rcpt, Cached(s.cache, s.rcpt.first));
      forall p <- s'.lost ensures Misses(s', p) {
        var m :| m in s.log && Wanted(m, s.rcpt.me, s.rcpt.first) && m !in s.cache && !Busy(s, m) && m.sender == p;
        assert m !in s'.rcpt.channel;
      }
    }
  }

  /** A message once missed stays missed. */
  lemma MissedStays(s: Room, e: Event, m: Message)
    requires Inv(s) && s.rcpt.canWrite && !e.FullyEstablished?
    requires m in s.log && Wanted(m, s.rcpt.me, s.start) && m !in s.rcpt.channel && !Busy(s, m)
    ensures
      var s' := Step(s, e);
      m in s'.log && Wanted(m, s'.rcpt.me, s'.start) && m !in s'.rcpt.channel && !Busy(s', m)
  {
    if e.CacheMessage? && MayCache(s, e.m) { assert m != e.m; }
  }

  lemma MissingStays(s: Room, e: Event, p: ParticipantID)
    requires Inv(s) && s.rcpt.canWrite && !e.FullyEstablished? && Misses(s, p)
    ensures Misses(Step(s, e), p)
  {
    var m :| m in s.log && m.sender == p && Wanted(m, s.rcpt.me, s.start) && m !in s.rcpt.channel && !Busy(s, m);
    MissedStays(s, e, m);
  }

  lemma StepKeepsLost(s: Room, e: Event)
    requires Inv(s) && LostOk(s)
    ensures LostOk(Step(s, e))
  {
    if e.FullyEstablished? {
      if s.joined { ReplayLoses(s); }
    } else {
      assert Step(s, e).lost == s.lost;
      forall p <- s.lost ensures Misses(Step(s, e), p) {
        MissingStays(s, e, p);
      }
    }
  }

  lemma {:induction false} ExecKeepsLost(me: Identity, es: seq<Event>)
    ensures LostOk(Exec(Init(me), es))
  {
    if es != [] {
      ExecKeepsLost(me, es[..|es| - 1]);
      InitInv(me);
      ExecKeepsInv(Init(me), es[..|es| - 1]);
      StepKeepsLost(Exec(Init(me), es[..|es| - 1]), es[|es| - 1]);
    }
  }

  lemma ChannelIsDue(s: Room, p: ParticipantID)
    requires Inv(s) && s.rcpt.canWrite && p in s.start && p !in s.busy && p !in s.lost && NoneBelow(s, p)
    ensures From(s.rcpt.channel, p) == Due(s.log, p, s.rcpt.me, s.start[p])
  {
    FromFacts(s.rcpt.channel, p);
    DueFacts(s.log, p, s.rcpt.me, s.start[p]);
    IncreasingDetermined(From(s.rcpt.channel, p), Due(s.log, p, s.rcpt.me, s.start[p]));
  }

  lemma ChannelIsNotDue(s: Room, p: ParticipantID)
    requires Inv(s) && LostOk(s) && p in s.start && (p in s.lost || !NoneBelow(s, p))
    ensures From(s.rcpt.channel, p) != Due(s.log, p, s.rcpt.me, s.start[p])
  {
    FromFacts(s.rcpt.channel, p);
    DueFacts(s.log, p, s.rcpt.me, s.start[p]);
    var from, due := From(s.rcpt.channel, p), Due(s.log, p, s.rcpt.me, s.start[p]);
    if p in s.lost {
      var m :| m in s.log && m.sender == p && Wanted(m, s.rcpt.me, s.start) && m !in s.rcpt.channel;
      assert m in due && m !in from;
    } else {
      var m :| m in s.rcpt.channel && m.sender == p && m.seqNo < s.start[p];
      assert m in from && m !in due;
    }
  }

  /** Once the channel is open: the recipient's channel carries exactly the messages of sender `p` addressed to it
      from the first one it observed on, each once and in increasing order, whenever no message of `p` is between
      cache and broadcast, if and only if the replay found all it asked for of `p`, in the cache or still to be
      broadcast, and `p` was never broadcast from before its start. Other senders and their evictions do not
      matter. */
  lemma ExactlyOnceFromFirstObserved(me: Identity, es: seq<Event>, p: ParticipantID)
    requires var s := Exec(Init(me), es); s.rcpt.canWrite && p in s.start && p !in s.busy
    ensures
      var s := Exec(Init(me), es);
      From(s.rcpt.channel, p) == Due(s.log, p, me, s.start[p]) <==> p !in s.lost && NeverLags(me, es, p)
  {
    InitInv(me);
    ExecKeepsInv(Init(me), es);
    ExecKeepsLost(me, es);
    MeStays(me, es);
    NoneBelowIffNeverLags(me, es, p);
    var s := Exec(Init(me), es);
    if p !in s.lost && NoneBelow(s, p) { ChannelIsDue(s, p); } else { ChannelIsNotDue(s, p); }
  }

  /** Who hears what, by the positions of the destination list. Only recipients that a message names, or all if it
      names nobody, have it on their channel. */
  lemma {:induction false} OnlyAddresseesHear(me: Identity, es: seq<Event>)
    ensures forall m <- Exec(Init(me), es).rcpt.channel ::
              |m.dest| == 0 || exists i :: 0 <= i < |m.dest| && m.dest[i] == me
  {
    NoDuplicatesNoReordering(me, es);
    forall m <- Exec(Init(me), es).rcpt.channel | |m.dest| > 0
      ensures exists i :: 0 <= i < |m.dest| && m.dest[i] == me
    {
      assert AddressedTo(m, me);
    }
  }

  /** And once the channel is open, they do have every such message of a sender from its start on, unless the replay
      lost some of it or the message is still to be broadcast. */
  lemma EveryAddresseeHears(me: Identity, es: seq<Event>, m: Message)
    requires
      var s := Exec(Init(me), es);
      && s.rcpt.canWrite && m in s.log && m.sender in s.start && m.seqNo >= s.start[m.sender]
      && m.sender !in s.lost && !(m.sender in s.busy && s.busy[m.sender] == m)
    requires |m.dest| == 0 || exists i :: 0 <= i < |m.dest| && m.dest[i] == me
    ensures m in Exec(Init(me), es).rcpt.channel
  {
    InitInv(me);
    ExecKeepsInv(Init(me), es);
    MeStays(me, es);
    assert AddressedTo(m, me) by {
      if |m.dest| > 0 {
        var i :| 0 <= i < |m.dest| && m.dest[i] == me;
      }
    }
    assert Wanted(m, me, Exec(Init(me), es).start);
  }

  /** A sender without a start has sent the recipient nothing. */
  lemma {:induction false} NothingBeforeFirstObserved(me: Identity, es: seq<Event>, p: ParticipantID)
    requires p !in Exec(Init(me), es).start
    ensures From(Exec(Init(me), es).rcpt.channel, p) == []
  {
    InitInv(me);
    ExecKeepsInv(Init(me), es);
    var s := Exec(Init(me), es);
    FromFacts(s.rcpt.channel, p);
    if From(s.rcpt.channel, p) != [] { HasElement(From(s.rcpt.channel, p)); }
  }

  /** Before it is in the participant list a recipient hears nothing, and knows a first sequence exactly of the
      senders handed over by the previous node. */
  lemma {:induction false} OutsideHearsNothing(me: Identity, es: seq<Event>, p: ParticipantID)
    requires forall i :: 0 <= i < |es| ==> !es[i].Join?
    ensures
      var s := Exec(Init(me), es);
      && !s.joined && !s.rcpt.canWrite && s.rcpt.channel == []
      && (p in s.rcpt.first <==> exists i :: 0 <= i < |es| && es[i].MigrateIn? && es[i].sender == p)
  {
    if es != [] {
      var init, e := es[..|es| - 1], es[|es| - 1];
      OutsideHearsNothing(me, init, p);
      assert es == init + [e] && es[|es| - 1] == e;
      assert !e.Join?;
      if p in Exec(Init(me), init).rcpt.first {
        var i :| 0 <= i < |init| && init[i].MigrateIn? && init[i].sender == p;
        assert es[i].MigrateIn? && es[i].sender == p;
      }
    }
  }

  lemma PrefixStep(s: Room, es: seq<Event>, k: nat)
    requires k < |es|
    ensures Exec(s, es[..k + 1]) == Step(Exec(s, es[..k]), es[k])
  {
    assert es[..k + 1][..k] == es[..k];
  }

  lemma FiveSteps(s: Room, es: seq<Event>)
    requires |es| == 5
    ensures Exec(s, es) == Step(Step(Step(Step(Step(s, es[0]), es[1]), es[2]), es[3]), es[4])
  {
    PrefixStep(s, es, 0);
    PrefixStep(s, es, 1);
    PrefixStep(s, es, 2);
    PrefixStep(s, es, 3);
    PrefixStep(s, es, 4);
    assert es[..5] == es;
  }

  /** Lagging happens: direct writes do not consult a start handed over by a migration, so any message of the
      sender from before it reaches an open recipient. */
  lemma HandedOverStartIsNotEnforced(me: Identity, lastSeq: nat, m: Message, es: seq<Event>)
    requires 0 < m.seqNo <= lastSeq && AddressedTo(m, me)
    requires es == [Join, MigrateIn(m.sender, lastSeq), FullyEstablished, CacheMessage(m), Broadcast(m.sender)]
    ensures
      var s := Exec(Init(me), es);
      s.start == map[m.sender := lastSeq + 1] && m in s.rcpt.channel && m.seqNo < s.start[m.sender]
      && !NeverLags(me, es, m.sender)
  {
    FiveSteps(Init(me), es);
    JoinAndMigrate(me, m.sender, lastSeq);
    var s2 := Step(Step(Init(me), Join), MigrateIn(m.sender, lastSeq));
    EstablishedOnEmpty(s2);
    LaggingSenderGetsThrough(Step(s2, FullyEstablished), m);
    NoneBelowIffNeverLags(me, es, m.sender);
  }

  /** Losing happens too: a message that was broadcast before the replay and evicted before it never arrives. */
  lemma EvictedBeforeReplayIsLost(me: Identity, m: Message, es: seq<Event>)
    requires m.seqNo > 0 && AddressedTo(m, me)
    requires es == [Join, CacheMessage(m), Broadcast(m.sender), Evict(0), FullyEstablished]
    ensures
      var s := Exec(Init(me), es);
      s.rcpt.canWrite && s.start == map[m.sender := m.seqNo] && m.sender in s.lost && s.rcpt.channel == []
  {
    FiveSteps(Init(me), es);
    var s2 := Step(Step(Init(me), Join), CacheMessage(m));
    assert s2.log == [m] && s2.cache == [m] && s2.busy == map[m.sender := m];
    var s4 := Step(Step(s2, Broadcast(m.sender)), Evict(0));
    assert s4.busy == map[] && s4.log == [m] && s4.cache == [] && s4.joined;
    assert s4.rcpt.first == map[m.sender := m.seqNo] == s4.start && s4.rcpt.channel == [];
    assert m in s4.log && Wanted(m, me, s4.rcpt.first);
    assert Cached([], s4.rcpt.first) == [];
  }

  lemma JoinAndMigrate(me: Identity, p: ParticipantID, lastSeq: nat)
    ensures
      var s := Step(Step(Init(me), Join), MigrateIn(p, lastSeq));
      && s.joined && s.log == [] && s.cache == [] && s.busy == map[] && s.start == map[p := lastSeq + 1]
      && s.rcpt.channel == [] && s.rcpt.lastWritten == map[] && s.rcpt.me == me
  {
  }

  lemma EstablishedOnEmpty(s: Room)
    requires s.joined && s.log == [] && s.cache == [] && s.rcpt.channel == [] && s.rcpt.lastWritten == map[]
    ensures
      var s' := Step(s, FullyEstablished);
      && s'.rcpt.canWrite && s'.joined && s'.start == s.start && s'.log == [] && s'.busy == s.busy
      && s'.rcpt.lastWritten == map[] && s'.rcpt.channel == [] && s'.rcpt.me == s.rcpt.me
  {
    assert Cached([], s.rcpt.first) == [];
  }

  lemma LaggingSenderGetsThrough(s: Room, m: Message)
    requires s.rcpt.canWrite && s.joined && m.sender in s.start && s.log == [] && s.busy == map[]
    requires s.rcpt.lastWritten == map[] && s.rcpt.channel == [] && m.seqNo > 0 && AddressedTo(m, s.rcpt.me)
    ensures var s' := Step(Step(s, CacheMessage(m)), Broadcast(m.sender));
            s'.start == s.start && m in s'.rcpt.channel
  {
    var s1 := Step(s, CacheMessage(m));
    assert s1.busy == map[m.sender := m];
    assert Step(s1, Broadcast(m.sender)).rcpt.channel == [] + [m];
  }

  // ---------------------------------------------------------------------------------------------------------
  // The imperative code
  // ---------------------------------------------------------------------------------------------------------

  predicate Names(m: Message, me: Identity) { |m.dest| == 0 || exists i :: 0 <= i < |m.dest| && m.dest[i] == me }

  lemma {:induction false} CachedMembers(cache: seq<Message>, first: map<ParticipantID, nat>, m: Message)
    ensures m in Cached(cache, first) <==> m in cache && m.sender in first && m.seqNo >= first[m.sender]
  {
    if cache != [] {
      CachedMembers(cache[..|cache| - 1], first, m);
      assert cache == cache[..|cache| - 1] + [cache[|cache| - 1]];
    }
  }

  lemma {:induction false} ReplayAllMembers(r: Recipient, ms: seq<Message>, m: Message)
    ensures ReplayAll(r, ms).me == r.me
    ensures m in ReplayAll(r, ms).channel <==> m in r.channel || (m in ms && Names(m, r.me))
  {
    if ms != [] {
      ReplayAllMembers(r, ms[..|ms| - 1], m);
      assert ms == ms[..|ms| - 1] + [ms[|ms| - 1]];
    }
  }

  lemma ReplayMembers(r: Recipient, cache: seq<Message>, m: Message)
    ensures m in Replay(r, cache).channel <==>
              || m in r.channel
              || (m in cache && m.sender in r.first && m.seqNo >= r.first[m.sender] && Names(m, r.me))
  {
    CachedMembers(cache, r.first, m);
    ReplayAllMembers(r, Cached(cache, r.first), m);
  }

  class ReliableData {
    const me: Identity
    var joiningMessageFirstSeqs: map<ParticipantID, nat>
    var joiningMessageLastWrittenSeqs: map<ParticipantID, nat>
    var canWriteReliable: bool
    var channel: seq<Message>

    function View(): Recipient
      reads this
    {
      Recipient(me, joiningMessageFirstSeqs, joiningMessageLastWrittenSeqs, canWriteReliable, channel)
    }

    constructor (me: Identity)
      ensures View() == Init(me).rcpt
    {
      this.me := me;
      joiningMessageFirstSeqs, joiningMessageLastWrittenSeqs, canWriteReliable, channel := map[], map[], false, [];
    }

    method SendDataMessage(m: Message)
      modifies this
      ensures View() == Send(old(View()), m)
    {
      if !canWriteReliable {
        if m.sender !in joiningMessageFirstSeqs {
          joiningMessageFirstSeqs := joiningMessageFirstSeqs[m.sender := m.seqNo];
        }
        return;
      }
      if m.sender in joiningMessageLastWrittenSeqs {
        if m.seqNo <= joiningMessageLastWrittenSeqs[m.sender] {
          return;
        }
        joiningMessageLastWrittenSeqs := joiningMessageLastWrittenSeqs - {m.sender};
      }
      assert joiningMessageLastWrittenSeqs == old(joiningMessageLastWrittenSeqs) - {m.sender};
      channel := channel + [m];
    }

    /** The body of the replay loop. */
    method ReplayMessage(m: Message)
      modifies this`joiningMessageLastWrittenSeqs, this`channel
      ensures View() == ReplayOne(old(View()), m)
    {
      if |m.dest| != 0 && me !in m.dest {
        return;
      }
      if m.sender !in joiningMessageLastWrittenSeqs || joiningMessageLastWrittenSeqs[m.sender] < m.seqNo {
        joiningMessageLastWrittenSeqs := joiningMessageLastWrittenSeqs[m.sender := m.seqNo];
      }
      channel := channel + [m];
    }

    /** Adds exactly the cached messages at or past the first sequence of their sender that name this recipient or
        nobody. */
    method ReplayJoiningReliableMessages(cache: seq<Message>)
      modifies this
      ensures View() == Replay(old(View()), cache)
      ensures forall m :: m in channel <==>
                || m in old(channel)
                || (m in cache && m.sender in old(joiningMessageFirstSeqs)
                    && m.seqNo >= old(joiningMessageFirstSeqs)[m.sender]
                    && (|m.dest| == 0 || exists i :: 0 <= i < |m.dest| && m.dest[i] == me))
    {
      forall m {
        ReplayMembers(View(), cache, m);
      }
      var msgs := GetCachedReliableDataMessage(cache, joiningMessageFirstSeqs);
      for i := 0 to |msgs|
        invariant View() == ReplayAll(old(View()), msgs[..i])
      {
        assert msgs[..i + 1][..i] == msgs[..i];
        ReplayMessage(msgs[i]);
      }
      assert msgs[..|msgs|] == msgs;
      joiningMessageFirstSeqs := map[];
      canWriteReliable := true;
    }
  }

  /** The room's side of the replay, room.go lines 1882-1891. */
  method GetCachedReliableDataMessage(cache: seq<Message>, seqs: map<ParticipantID, nat>) returns (msgs: seq<Message>)
    ensures msgs == Cached(cache, seqs)
  {
    msgs := [];
    for i := 0 to |cache|
      invariant msgs == Cached(cache[..i], seqs)
    {
      assert cache[..i + 1][..i] == cache[..i];
      var m := cache[i];
      if m.sender in seqs && m.seqNo >= seqs[m.sender] {
        msgs := msgs + [m];
      }
    }
    assert cache[..|cache|] == cache;
  }
}
