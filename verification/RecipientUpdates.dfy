/** What one recipient hears about the others: pkg/rtc/participant_signal.go (SendJoinResponse,
    SendParticipantUpdate) with its queue, its version filter and its writes outside the lock. */
module RecipientUpdates {
  import opened Wrappers
  import VersionStamping

  type ParticipantID = nat

  /** `content` is how many of the participant's changes the info includes. */
  datatype Info = Info(sid: ParticipantID, version: nat, hidden: bool, content: nat)

  datatype State = Joining | Joined | Active | Disconnected

  datatype Signal = JoinResponse(infos: seq<Info>) | ParticipantUpdate(infos: seq<Info>)

  datatype JoinPhase = NotStarted | Recorded(infos: seq<Info>) | Written | Finished

  /** `cache` is updateCache, `inflight` the filtered batches not yet written to the signal connection, `wire` what
      was written, `toFlush` the queue a join response hands on. `sent` is a history: the infos of the join
      response and every info that passed the filter, in lock order. */
  datatype Recipient = Recipient(
    me: ParticipantID, migration: bool, state: State, join: JoinPhase, cache: map<ParticipantID, nat>,
    queued: seq<Info>, toFlush: seq<Info>, inflight: seq<seq<Info>>, wire: seq<Signal>, sent: seq<Info>)

  predicate IsReady(r: Recipient) {
    if r.migration then r.state != Disconnected else r.state == Joined || r.state == Active
  }

  predicate IsValid(me: ParticipantID, cache: map<ParticipantID, nat>, pi: Info) {
    && (pi.sid in cache ==> pi.version >= cache[pi.sid])
    && (pi.hidden ==> pi.sid == me)
  }

  /** The filter loop of SendParticipantUpdate: the valid updates and the cache afterwards. */
  function Filter(me: ParticipantID, cache: map<ParticipantID, nat>, infos: seq<Info>)
    : (seq<Info>, map<ParticipantID, nat>)
  {
    if infos == [] then ([], cache)
    else
      var (valid, c) := Filter(me, cache, infos[..|infos| - 1]);
      var pi := infos[|infos| - 1];
      if IsValid(me, c, pi) then (valid + [pi], c[pi.sid := pi.version]) else (valid, c)
  }

  /** The locked part of SendParticipantUpdate. */
  function Update(r: Recipient, infos: seq<Info>): Recipient {
    if r.state == Disconnected then r
    else if !IsReady(r) then r.(queued := r.queued + infos)
    else
      var (valid, c) := Filter(r.me, r.cache, infos);
      r.(cache := c, inflight := r.inflight + [valid], sent := r.sent + valid)
  }

  function AddAll(cache: map<ParticipantID, nat>, infos: seq<Info>): map<ParticipantID, nat> {
    if infos == [] then cache
    else AddAll(cache, infos[..|infos| - 1])[infos[|infos| - 1].sid := infos[|infos| - 1].version]
  }

  predicate DistinctSids(infos: seq<Info>) {
    forall i, j :: 0 <= i < j < |infos| ==> infos[i].sid != infos[j].sid
  }

  datatype Event =
    | JoinRecord(infos: seq<Info>)
    | JoinWrite
    | JoinFinish
    | Flush
    | UpdateCall(infos: seq<Info>)
    | Write(i: nat)
    | Activate
    | Disconnect

  function Init(me: ParticipantID, migration: bool): Recipient {
    Recipient(me, migration, Joining, NotStarted, map[], [], [], [], [], [])
  }

  predicate Answered(r: Recipient) { r.join.Written? || r.join.Finished? }

  /** Events that are not possible change nothing. A migrating recipient gets no join response; any other one
      connects, and so becomes active, only after it was answered. */
  function Step(r: Recipient, e: Event): Recipient {
    match e
    case JoinRecord(infos) =>
      if r.join.NotStarted? && !r.migration && DistinctSids(infos) then
        r.(join := Recorded(infos), cache := AddAll(r.cache, infos), sent := r.sent + infos)
      else r
    case JoinWrite =>
      if r.join.Recorded? then r.(join := Written, wire := r.wire + [JoinResponse(r.join.infos)]) else r
    case JoinFinish =>
      if r.join.Written? then
        r.(join := Finished, state := if r.state == Joining then Joined else r.state,
           toFlush := r.toFlush + r.queued, queued := [])
      else r
    case Flush => if r.toFlush == [] then r else Update(r.(toFlush := []), r.toFlush)
    case UpdateCall(infos) => Update(r, infos)
    case Write(i) =>
      if i < |r.inflight| then
        r.(wire := r.wire + [ParticipantUpdate(r.inflight[i])], inflight := r.inflight[..i] + r.inflight[i + 1..])
      else r
    case Activate =>
      if (r.state == Joining || r.state == Joined) && (r.migration || Answered(r)) then r.(state := Active) else r
    case Disconnect => r.(state := Disconnected)
  }

  function Exec(r: Recipient, es: seq<Event>): Recipient {
    if es == [] then r else Step(Exec(r, es[..|es| - 1]), es[|es| - 1])
  }

  // ---------------------------------------------------------------------------------------------------------
  // The filter
  // ---------------------------------------------------------------------------------------------------------

  ghost predicate Monotone(infos: seq<Info>) {
    forall i, j :: 0 <= i < j < |infos| && infos[i].sid == infos[j].sid ==> infos[i].version <= infos[j].version
  }

  /** The last info sent about a participant. */
  function Last(infos: seq<Info>, sid: ParticipantID): Option<Info> {
    if infos == [] then None
    else if infos[|infos| - 1].sid == sid then Some(infos[|infos| - 1])
    else Last(infos[..|infos| - 1], sid)
  }

  /** The cache is the version of the last info sent about each participant, and no earlier one was larger. */
  ghost predicate Tracks(cache: map<ParticipantID, nat>, sent: seq<Info>) {
    && Monotone(sent)
    && (forall pi <- sent :: pi.sid in cache && pi.version <= cache[pi.sid])
    && (forall sid <- cache :: Last(sent, sid).Some? && Last(sent, sid).value.version == cache[sid])
  }

  lemma LastSnoc(sent: seq<Info>, pi: Info, sid: ParticipantID)
    ensures Last(sent + [pi], sid) == if pi.sid == sid then Some(pi) else Last(sent, sid)
  {
    assert (sent + [pi])[..|sent|] == sent;
  }

  lemma TracksSnoc(cache: map<ParticipantID, nat>, sent: seq<Info>, pi: Info)
    requires Tracks(cache, sent) && (pi.sid in cache ==> pi.version >= cache[pi.sid])
    ensures Tracks(cache[pi.sid := pi.version], sent + [pi])
  {
    forall sid ensures Last(sent + [pi], sid) == if pi.sid == sid then Some(pi) else Last(sent, sid) {
      LastSnoc(sent, pi, sid);
    }
  }

  /** What the filter adds: it keeps the tracking, and everything it passes was in the call and is visible. */
  ghost predicate Filtered(me: ParticipantID, cache: map<ParticipantID, nat>, infos: seq<Info>, sent: seq<Info>,
      valid: seq<Info>, c: map<ParticipantID, nat>)
  {
    && Tracks(c, sent + valid)
    && (forall pi <- valid :: pi in infos && (pi.hidden ==> pi.sid == me))
    && (forall pi <- infos :: (pi.hidden ==> pi.sid == me) ==> pi.sid in c && pi.version <= c[pi.sid])
    && (forall sid <- cache :: sid in c && cache[sid] <= c[sid])
  }

  lemma FilteredSnoc(me: ParticipantID, cache: map<ParticipantID, nat>, infos: seq<Info>, sent: seq<Info>,
      valid: seq<Info>, c: map<ParticipantID, nat>, pi: Info)
    requires Filtered(me, cache, infos, sent, valid, c)
    ensures if IsValid(me, c, pi) then Filtered(me, cache, infos + [pi], sent, valid + [pi], c[pi.sid := pi.version])
            else Filtered(me, cache, infos + [pi], sent, valid, c)
  {
    if IsValid(me, c, pi) {
      TracksSnoc(c, sent + valid, pi);
      assert sent + valid + [pi] == sent + (valid + [pi]);
    }
  }

  lemma {:induction false} FilterTracks(
      me: ParticipantID, cache: map<ParticipantID, nat>, infos: seq<Info>, sent: seq<Info>)
    requires Tracks(cache, sent)
    ensures var (valid, c) := Filter(me, cache, infos); Filtered(me, cache, infos, sent, valid, c)
  {
    if infos == [] {
      assert sent + [] == sent;
    } else {
      var init, pi := infos[..|infos| - 1], infos[|infos| - 1];
      FilterTracks(me, cache, init, sent);
      var (valid, c) := Filter(me, cache, init);
      FilteredSnoc(me, cache, init, sent, valid, c, pi);
      assert infos == init + [pi];
    }
  }

  lemma {:induction false} AddAllTracks(infos: seq<Info>)
    requires DistinctSids(infos)
    ensures Tracks(AddAll(map[], infos), infos)
    ensures forall sid :: sid in AddAll(map[], infos) <==> exists pi <- infos :: pi.sid == sid
  {
    if infos != [] {
      var init, pi := infos[..|infos| - 1], infos[|infos| - 1];
      AddAllTracks(init);
      assert infos == init + [pi];
      TracksSnoc(AddAll(map[], init), init, pi);
    }
  }

  // ---------------------------------------------------------------------------------------------------------
  // Every interleaving
  // ---------------------------------------------------------------------------------------------------------

  ghost predicate Inv(r: Recipient) {
    && Tracks(r.cache, r.sent)
    && (!r.migration && !Answered(r) ==>
          && !IsReady(r) && r.inflight == [] && r.wire == []
          && (r.join.NotStarted? ==> r.cache == map[] && r.sent == [])
          && (r.join.Recorded? ==> r.sent == r.join.infos))
    && (!r.migration && Answered(r) ==> r.wire != [] && r.wire[0].JoinResponse?)
    && (r.migration ==> r.join.NotStarted?)
    && (forall k :: 0 <= k < |r.wire| && (k > 0 || r.migration) ==> r.wire[k].ParticipantUpdate?)
  }

  lemma UpdateKeepsInv(r: Recipient, infos: seq<Info>)
    requires Inv(r)
    ensures Inv(Update(r, infos))
  {
    if r.state != Disconnected && IsReady(r) { FilterTracks(r.me, r.cache, infos, r.sent); }
  }

  lemma RecordKeepsInv(r: Recipient, infos: seq<Info>)
    requires Inv(r) && r.join.NotStarted? && !r.migration && DistinctSids(infos)
    ensures Inv(Step(r, JoinRecord(infos)))
  {
    var r' := Step(r, JoinRecord(infos));
    assert r'.cache == AddAll(map[], infos) && r'.sent == infos by { assert [] + infos == infos; }
    assert Tracks(r'.cache, r'.sent) by { AddAllTracks(infos); }
  }

  lemma StepKeepsInv(r: Recipient, e: Event)
    requires Inv(r)
    ensures Inv(Step(r, e))
  {
    if
    case e.JoinRecord? =>
      if r.join.NotStarted? && !r.migration && DistinctSids(e.infos) { RecordKeepsInv(r, e.infos); }
    case e.UpdateCall? => UpdateKeepsInv(r, e.infos);
    case e.Flush? => if r.toFlush != [] { UpdateKeepsInv(r.(toFlush := []), r.toFlush); }
    case e.JoinWrite? || e.JoinFinish? =>
    case e.Write? || e.Activate? || e.Disconnect? =>
  }

  lemma {:induction false} ExecKeepsInv(r: Recipient, es: seq<Event>)
    requires Inv(r)
    ensures Inv(Exec(r, es))
  {
    if es != [] {
      ExecKeepsInv(r, es[..|es| - 1]);
      StepKeepsInv(Exec(r, es[..|es| - 1]), es[|es| - 1]);
    }
  }

  /** The versions that pass a recipient's filter never decrease for any participant, starting from those of the
      join response, and the filter knows exactly the last one sent. */
  lemma {:induction false} SentVersionsNeverDecrease(me: ParticipantID, migration: bool, es: seq<Event>)
    ensures var r := Exec(Init(me, migration), es); Tracks(r.cache, r.sent)
  {
    ExecKeepsInv(Init(me, migration), es);
  }

  /** No participant update is written before the join response. */
  lemma {:induction false} NoUpdateBeforeJoinResponse(me: ParticipantID, es: seq<Event>)
    ensures
      var wire := Exec(Init(me, false), es).wire;
      forall k :: 0 <= k < |wire| ==> (wire[k].JoinResponse? <==> k == 0)
  {
    ExecKeepsInv(Init(me, false), es);
    MigrationStays(Init(me, false), es);
  }

  lemma {:induction false} MigrationStays(r: Recipient, es: seq<Event>)
    ensures Exec(r, es).migration == r.migration && Exec(r, es).me == r.me
  {
    if es != [] { MigrationStays(r, es[..|es| - 1]); }
  }

  // ---------------------------------------------------------------------------------------------------------
  // What passes, and that nothing is dropped
  // ---------------------------------------------------------------------------------------------------------

  /** An info passes the filter exactly when it is visible to the recipient and not older than anything sent about its
      participant before, in this call or an earlier one. */
  lemma PassesIff(me: ParticipantID, cache: map<ParticipantID, nat>, sent: seq<Info>, infos: seq<Info>, pi: Info)
    requires Tracks(cache, sent)
    ensures
      var valid := Filter(me, cache, infos).0;
      Filter(me, cache, infos + [pi]).0
      == if (!pi.hidden || pi.sid == me) && (forall x <- sent + valid :: x.sid == pi.sid ==> x.version <= pi.version)
         then valid + [pi] else valid
  {
    var (valid, c) := Filter(me, cache, infos);
    assert (infos + [pi])[..|infos|] == infos;
    FilterTracks(me, cache, infos, sent);
    if pi.sid in c {
      LastIsSent(sent + valid, pi.sid);
      var x := Last(sent + valid, pi.sid).value;
      assert x in sent + valid && x.sid == pi.sid && x.version == c[pi.sid];
    }
  }

  lemma {:induction false} LastIsSent(infos: seq<Info>, sid: ParticipantID)
    ensures Last(infos, sid).Some? ==> Last(infos, sid).value in infos && Last(infos, sid).value.sid == sid
  {
    if infos != [] { LastIsSent(infos[..|infos| - 1], sid); }
  }

  /** The recipient gets updates: it is connected, and joined unless it came by migration. */
  predicate Serving(r: Recipient) {
    r.state != Disconnected && (r.migration || r.state != Joining)
  }

  /** The infos of a call, as often as they occur in it. */
  function CalledBy(r: Recipient, e: Event): multiset<Info> {
    if e.UpdateCall? && r.state != Disconnected then multiset(e.infos) else multiset{}
  }

  /** Those that an event puts through the filter. */
  function OfferedBy(r: Recipient, e: Event): multiset<Info> {
    if !Serving(r) then multiset{}
    else if e.UpdateCall? then multiset(e.infos) else if e.Flush? then multiset(r.toFlush) else multiset{}
  }

  function Called(r: Recipient, es: seq<Event>): multiset<Info> {
    if es == [] then multiset{}
    else Called(r, es[..|es| - 1]) + CalledBy(Exec(r, es[..|es| - 1]), es[|es| - 1])
  }

  function Offered(r: Recipient, es: seq<Event>): multiset<Info> {
    if es == [] then multiset{}
    else Offered(r, es[..|es| - 1]) + OfferedBy(Exec(r, es[..|es| - 1]), es[|es| - 1])
  }

  function Held(r: Recipient): multiset<Info> { multiset(r.toFlush) + multiset(r.queued) }

  lemma UpdateConserves(r: Recipient, infos: seq<Info>)
    requires r.state != Disconnected
    ensures
      var r' := Update(r, infos);
      r'.state == r.state && r'.toFlush == r.toFlush && r'.queued == if Serving(r) then r.queued else r.queued + infos
  {
  }

  lemma JoinConserves(r: Recipient)
    ensures Held(Step(r, JoinFinish)) == Held(r)
  {
    assert multiset(r.toFlush + r.queued) == multiset(r.toFlush) + multiset(r.queued);
  }

  /** One event moves infos between call, queue and filter without losing or repeating any. */
  ghost predicate Conserves(r: Recipient, e: Event) {
    Held(r) + CalledBy(r, e) == Held(Step(r, e)) + OfferedBy(r, e)
  }

  lemma CallConserves(r: Recipient, infos: seq<Info>)
    requires r.state != Disconnected
    ensures Conserves(r, UpdateCall(infos))
  {
    UpdateConserves(r, infos);
    assert multiset(r.queued + infos) == multiset(r.queued) + multiset(infos);
  }

  lemma FlushConserves(r: Recipient)
    requires r.state != Disconnected
    ensures Conserves(r, Flush)
  {
    if r.toFlush != [] {
      UpdateConserves(r.(toFlush := []), r.toFlush);
      assert multiset(r.queued + r.toFlush) == multiset(r.queued) + multiset(r.toFlush);
    }
  }

  lemma OtherConserves(r: Recipient, e: Event)
    requires !e.UpdateCall? && !e.Flush? && !e.JoinFinish?
    ensures Conserves(r, e)
  {
    assert Held(Step(r, e)) == Held(r);
  }

  lemma StepConserves(r: Recipient, e: Event)
    requires Step(r, e).state != Disconnected
    ensures r.state != Disconnected && Conserves(r, e)
  {
    if r.state == Disconnected { StaysDisconnected(r, e); }
    if
    case e.UpdateCall? => CallConserves(r, e.infos);
    case e.Flush? => FlushConserves(r);
    case e.JoinFinish? => JoinConserves(r);
    case !e.UpdateCall? && !e.Flush? && !e.JoinFinish? => OtherConserves(r, e);
  }

  lemma StaysDisconnected(r: Recipient, e: Event)
    requires r.state == Disconnected
    ensures Step(r, e).state == Disconnected
  {
  }

  /** Once it disconnected, a recipient stays so and no run adds a batch for it. */
  lemma {:induction false} DisconnectedIsOver(r: Recipient, es: seq<Event>)
    ensures
      var r' := Exec(Step(r, Disconnect), es);
      r'.state == Disconnected && forall b <- r'.inflight :: b in r.inflight
  {
    if es != [] {
      DisconnectedIsOver(r, es[..|es| - 1]);
      StaysDisconnected(Exec(Step(r, Disconnect), es[..|es| - 1]), es[|es| - 1]);
    }
  }

  lemma AddUp(called: multiset<Info>, offered: multiset<Info>, held: multiset<Info>,
      c: multiset<Info>, o: multiset<Info>, held': multiset<Info>)
    requires called == offered + held && held + c == held' + o
    ensures called + c == offered + o + held'
  {
    forall x ensures (called + c)[x] == (offered + o + held')[x] {
      assert (held + c)[x] == (held' + o)[x];
    }
  }

  /** Over every run of a recipient still connected: each info passed to it went through the filter exactly once, or
      is held back. */
  lemma {:induction false} NothingIsDropped(me: ParticipantID, migration: bool, es: seq<Event>)
    requires Exec(Init(me, migration), es).state != Disconnected
    ensures
      var r0 := Init(me, migration);
      Called(r0, es) == Offered(r0, es) + Held(Exec(r0, es))
  {
    if es != [] {
      var init, e := es[..|es| - 1], es[|es| - 1];
      var r0 := Init(me, migration);
      var r := Exec(r0, init);
      StepConserves(r, e);
      NothingIsDropped(me, migration, init);
      AddUp(Called(r0, init), Offered(r0, init), Held(r), CalledBy(r, e), OfferedBy(r, e), Held(Step(r, e)));
    }
  }

  /** And it is held back only before the join finished, or for the flush that follows. */
  ghost predicate HoldsOk(r: Recipient) {
    && (r.migration || r.join.Finished? ==> r.state == Disconnected || (Serving(r) && r.queued == []))
    && (!r.join.Finished? ==> r.toFlush == [])
    && (r.migration ==> r.join.NotStarted?)
  }

  lemma {:induction false} HeldOnlyBeforeJoined(me: ParticipantID, migration: bool, es: seq<Event>)
    ensures HoldsOk(Exec(Init(me, migration), es))
  {
    if es != [] { HeldOnlyBeforeJoined(me, migration, es[..|es| - 1]); }
  }

  // ---------------------------------------------------------------------------------------------------------
  // From the filter to the wire
  // ---------------------------------------------------------------------------------------------------------

  function OnWire(wire: seq<Signal>): seq<Info> {
    if wire == [] then [] else OnWire(wire[..|wire| - 1]) + wire[|wire| - 1].infos
  }

  function Flatten(batches: seq<seq<Info>>): seq<Info> {
    if batches == [] then [] else Flatten(batches[..|batches| - 1]) + batches[|batches| - 1]
  }

  /** No info of `b` has a smaller version than one of `a` about the same participant. */
  ghost predicate Below(a: seq<Info>, b: seq<Info>) {
    forall x <- a, y <- b :: x.sid == y.sid ==> x.version <= y.version
  }

  lemma MonotoneConcat(a: seq<Info>, b: seq<Info>)
    ensures Monotone(a + b) <==> Monotone(a) && Monotone(b) && Below(a, b)
  {
    var s := a + b;
    if Monotone(s) {
      assert forall i :: 0 <= i < |a| ==> a[i] == s[i];
      assert forall i :: 0 <= i < |b| ==> b[i] == s[|a| + i];
    }
  }

  lemma {:induction false} FlattenConcat(a: seq<seq<Info>>, b: seq<seq<Info>>)
    ensures Flatten(a + b) == Flatten(a) + Flatten(b)
  {
    if b == [] {
      assert a + b == a;
    } else {
      FlattenConcat(a, b[..|b| - 1]);
      assert (a + b)[..|a + b| - 1] == a + b[..|b| - 1];
    }
  }

  lemma FlattenOne(batch: seq<Info>)
    ensures Flatten([batch]) == batch
  {
    assert [batch][..0] == [];
  }

  lemma SplitAt<T>(s: seq<T>, i: nat)
    requires i < |s|
    ensures s == s[..i] + [s[i]] + s[i + 1..]
  {
  }

  lemma FlattenThree(before: seq<seq<Info>>, batch: seq<Info>, after: seq<seq<Info>>)
    ensures Flatten(before + [batch] + after) == Flatten(before) + batch + Flatten(after)
  {
    FlattenConcat(before + [batch], after);
    FlattenConcat(before, [batch]);
    FlattenOne(batch);
  }

  lemma FlattenAt(batches: seq<seq<Info>>, i: nat)
    requires i < |batches|
    ensures Flatten(batches) == Flatten(batches[..i]) + batches[i] + Flatten(batches[i + 1..])
    ensures Flatten(batches[..i] + batches[i + 1..]) == Flatten(batches[..i]) + Flatten(batches[i + 1..])
  {
    SplitAt(batches, i);
    FlattenThree(batches[..i], batches[i], batches[i + 1..]);
    FlattenConcat(batches[..i], batches[i + 1..]);
  }

  lemma OnWireSnoc(wire: seq<Signal>, signal: Signal)
    ensures OnWire(wire + [signal]) == OnWire(wire) + signal.infos
  {
    assert (wire + [signal])[..|wire|] == wire;
  }

  /** What was sent is on the wire, in flight, or in a join response about to be written, and the batches in flight
      are in the order in which they were filtered. */
  ghost predicate WireInv(r: Recipient) {
    var w, f := OnWire(r.wire), Flatten(r.inflight);
    && (forall x <- w :: x in r.sent) && (forall x <- f :: x in r.sent)
    && (forall x <- r.sent :: x in w || x in f || (r.join.Recorded? && x in r.join.infos))
    && Monotone(f)
  }

  /** Nothing on the wire is out of order, now or once the batches in flight follow in their order. */
  ghost predicate Ordered(r: Recipient) {
    Monotone(OnWire(r.wire)) && Below(OnWire(r.wire), Flatten(r.inflight))
  }

  /** No batch filtered earlier and still in flight has a smaller version of a participant in batch `i`. */
  ghost predicate NoOvertake(r: Recipient, i: nat)
    requires i < |r.inflight|
  {
    Below(r.inflight[i], Flatten(r.inflight[..i]))
  }

  lemma MonotoneThree(a: seq<Info>, b: seq<Info>, c: seq<Info>)
    ensures Monotone(a + b + c) <==>
              Monotone(a) && Monotone(b) && Monotone(c) && Below(a, b) && Below(a, c) && Below(b, c)
  {
    MonotoneConcat(a + b, c);
    MonotoneConcat(a, b);
    assert forall x :: x in a + b <==> x in a || x in b;
  }

  lemma BelowConcat(a: seq<Info>, b: seq<Info>, c: seq<Info>)
    ensures Below(a, b + c) <==> Below(a, b) && Below(a, c)
    ensures Below(a + b, c) <==> Below(a, c) && Below(b, c)
  {
    assert forall x :: x in b + c <==> x in b || x in c;
    assert forall x :: x in a + b <==> x in a || x in b;
  }

  lemma OrderAfterSwap(w: seq<Info>, a: seq<Info>, b: seq<Info>, c: seq<Info>)
    requires Monotone(a + b + c)
    ensures Monotone(w + b) && Below(w + b, a + c) <==> Monotone(w) && Below(w, a + b + c) && Below(b, a)
  {
    MonotoneThree(a, b, c);
    MonotoneConcat(w, b);
    BelowConcat(w, a + b, c);
    BelowConcat(w, a, b);
    BelowConcat(w, b, a + c);
    BelowConcat(w, a, c);
    BelowConcat(b, a, c);
  }

  lemma WriteMoves(r: Recipient, i: nat)
    requires i < |r.inflight|
    ensures
      var r' := Step(r, Write(i));
      && r'.join == r.join && r'.sent == r.sent
      && OnWire(r'.wire) == OnWire(r.wire) + r.inflight[i]
      && Flatten(r'.inflight) == Flatten(r.inflight[..i]) + Flatten(r.inflight[i + 1..])
      && Flatten(r.inflight) == Flatten(r.inflight[..i]) + r.inflight[i] + Flatten(r.inflight[i + 1..])
  {
    FlattenAt(r.inflight, i);
    OnWireSnoc(r.wire, ParticipantUpdate(r.inflight[i]));
  }

  /** A write keeps the order exactly when it overtakes no smaller version. */
  lemma WriteKeepsOrderIff(r: Recipient, i: nat)
    requires WireInv(r) && i < |r.inflight|
    ensures Ordered(Step(r, Write(i))) <==> Ordered(r) && NoOvertake(r, i)
  {
    WriteMoves(r, i);
    OrderAfterSwap(OnWire(r.wire), Flatten(r.inflight[..i]), r.inflight[i], Flatten(r.inflight[i + 1..]));
  }

  lemma WriteKeepsWire(r: Recipient, i: nat)
    requires Inv(r) && WireInv(r) && i < |r.inflight|
    ensures WireInv(Step(r, Write(i)))
  {
    var w, a, b, c := OnWire(r.wire), Flatten(r.inflight[..i]), r.inflight[i], Flatten(r.inflight[i + 1..]);
    WriteMoves(r, i);
    MonotoneThree(a, b, c);
    MonotoneConcat(a, c);
    MembersOfThree(a, b, c);
    MembersOfTwo(a, c);
    MembersOfTwo(w, b);
  }

  lemma MembersOfTwo<T>(a: seq<T>, b: seq<T>)
    ensures forall x :: x in a + b <==> x in a || x in b
  {
  }

  lemma MembersOfThree<T>(a: seq<T>, b: seq<T>, c: seq<T>)
    ensures forall x :: x in a + b + c <==> x in a || x in b || x in c
  {
  }

  lemma UpdateKeepsWire(r: Recipient, infos: seq<Info>)
    requires Inv(r) && WireInv(r)
    ensures WireInv(Update(r, infos)) && (Ordered(Update(r, infos)) <==> Ordered(r))
  {
    if r.state != Disconnected && IsReady(r) {
      var valid, w, f := Filter(r.me, r.cache, infos).0, OnWire(r.wire), Flatten(r.inflight);
      FilterTracks(r.me, r.cache, infos, r.sent);
      assert Monotone(r.sent + valid);
      MonotoneConcat(r.sent, valid);
      assert (r.inflight + [valid])[..|r.inflight|] == r.inflight;
      MonotoneConcat(f, valid);
      BelowConcat(w, f, valid);
      assert forall x :: x in f + valid <==> x in f || x in valid;
      assert forall x :: x in r.sent + valid <==> x in r.sent || x in valid;
    }
  }

  lemma JoinWriteKeepsWire(r: Recipient)
    requires Inv(r) && WireInv(r) && r.join.Recorded?
    ensures WireInv(Step(r, JoinWrite)) && (Ordered(Step(r, JoinWrite)) <==> Ordered(r))
  {
    OnWireSnoc(r.wire, JoinResponse(r.join.infos));
    assert r.sent == r.join.infos && OnWire(r.wire) == [] && Flatten(r.inflight) == [];
    assert [] + r.join.infos == r.join.infos;
  }

  /** No other event touches the order. */
  lemma StepKeepsWire(r: Recipient, e: Event)
    requires Inv(r) && WireInv(r)
    ensures WireInv(Step(r, e))
    ensures !e.Write? || e.i >= |r.inflight| ==> (Ordered(Step(r, e)) <==> Ordered(r))
  {
    if
    case e.UpdateCall? => UpdateKeepsWire(r, e.infos);
    case e.Flush? => if r.toFlush != [] { UpdateKeepsWire(r.(toFlush := []), r.toFlush); }
    case e.Write? => if e.i < |r.inflight| { WriteKeepsWire(r, e.i); }
    case e.JoinWrite? => if r.join.Recorded? { JoinWriteKeepsWire(r); }
    case e.JoinRecord? => assert r.join.NotStarted? && !r.migration ==> r.sent == [] && [] + e.infos == e.infos;
    case e.JoinFinish? || e.Activate? || e.Disconnect? =>
  }

  lemma {:induction false} ExecKeepsWire(me: ParticipantID, migration: bool, es: seq<Event>)
    ensures Inv(Exec(Init(me, migration), es)) && WireInv(Exec(Init(me, migration), es))
  {
    if es != [] {
      ExecKeepsWire(me, migration, es[..|es| - 1]);
      StepKeepsInv(Exec(Init(me, migration), es[..|es| - 1]), es[|es| - 1]);
      StepKeepsWire(Exec(Init(me, migration), es[..|es| - 1]), es[|es| - 1]);
    }
  }

  /** The event is not a write that overtakes a smaller version. */
  ghost predicate KeepsTurn(r: Recipient, e: Event) {
    e.Write? && e.i < |r.inflight| ==> NoOvertake(r, e.i)
  }

  /** No write of the run does. */
  ghost predicate NoneOvertakes(me: ParticipantID, migration: bool, es: seq<Event>) {
    es == [] || (NoneOvertakes(me, migration, es[..|es| - 1])
                 && KeepsTurn(Exec(Init(me, migration), es[..|es| - 1]), es[|es| - 1]))
  }

  lemma {:induction false} OrderedIffNoneOvertakes(me: ParticipantID, migration: bool, es: seq<Event>)
    ensures Ordered(Exec(Init(me, migration), es)) <==> NoneOvertakes(me, migration, es)
  {
    if es != [] {
      var init, e := es[..|es| - 1], es[|es| - 1];
      var r := Exec(Init(me, migration), init);
      OrderedIffNoneOvertakes(me, migration, init);
      ExecKeepsWire(me, migration, init);
      StepKeepsWire(r, e);
      if e.Write? && e.i < |r.inflight| { WriteKeepsOrderIff(r, e.i); }
    }
  }

  /** The versions a recipient reads from its signal connection never decrease if no write overtakes a smaller
      version of a participant; and once everything is written, only then. */
  lemma WireVersionsNeverDecreaseIff(me: ParticipantID, migration: bool, es: seq<Event>)
    ensures
      var r := Exec(Init(me, migration), es);
      && (NoneOvertakes(me, migration, es) ==> Monotone(OnWire(r.wire)))
      && (r.inflight == [] ==> (Monotone(OnWire(r.wire)) <==> NoneOvertakes(me, migration, es)))
  {
    OrderedIffNoneOvertakes(me, migration, es);
  }

  lemma FilterOne(me: ParticipantID, cache: map<ParticipantID, nat>, pi: Info)
    requires IsValid(me, cache, pi)
    ensures Filter(me, cache, [pi]) == ([pi], cache[pi.sid := pi.version])
  {
    assert [pi][..0] == [] && Filter(me, cache, []) == ([], cache);
    assert [] + [pi] == [pi];
  }

  /** The lock does not prevent it: after any run that leaves a recipient ready and nothing in flight, two updates
      of a participant with increasing versions, both passing the filter, can be written so that what the
      recipient reads goes back. */
  lemma OvertakingWriteGoesBack(me: ParticipantID, migration: bool, es: seq<Event>, x: Info, y: Info)
    requires
      var r := Exec(Init(me, migration), es);
      r.state != Disconnected && IsReady(r) && r.inflight == [] && IsValid(r.me, r.cache, x)
    requires x.sid == y.sid && x.version < y.version && !y.hidden
    ensures
      var r := Exec(Init(me, migration), es + [UpdateCall([x]), UpdateCall([y]), Write(1), Write(0)]);
      r.inflight == [] && !Monotone(OnWire(r.wire))
  {
    var r := Exec(Init(me, migration), es);
    FourSteps(Init(me, migration), es, [UpdateCall([x]), UpdateCall([y]), Write(1), Write(0)]);
    BothInFlight(r, x, y);
    WrittenBackwards(Update(Update(r, [x]), [y]), x, y);
  }

  lemma BothInFlight(r: Recipient, x: Info, y: Info)
    requires r.state != Disconnected && IsReady(r) && r.inflight == [] && IsValid(r.me, r.cache, x)
    requires x.sid == y.sid && x.version < y.version && !y.hidden
    ensures Update(Update(r, [x]), [y]).inflight == [[x], [y]]
  {
    FilterOne(r.me, r.cache, x);
    FilterOne(r.me, r.cache[x.sid := x.version], y);
    var r1 := Update(r, [x]);
    assert r1.inflight == [[x]] && r1.cache == r.cache[x.sid := x.version];
  }

  lemma WrittenBackwards(r: Recipient, x: Info, y: Info)
    requires r.inflight == [[x], [y]] && x.sid == y.sid && x.version < y.version
    ensures var r' := Step(Step(r, Write(1)), Write(0)); r'.inflight == [] && !Monotone(OnWire(r'.wire))
  {
    var r1 := Step(r, Write(1));
    assert r1.inflight == [[x]] && r1.wire == r.wire + [ParticipantUpdate([y])];
    assert Step(r1, Write(0)).wire == r1.wire + [ParticipantUpdate([x])];
    OnWireSnoc(r.wire, ParticipantUpdate([y]));
    OnWireSnoc(r1.wire, ParticipantUpdate([x]));
    BackwardsAtEnd(OnWire(r.wire), x, y);
  }

  lemma BackwardsAtEnd(w: seq<Info>, x: Info, y: Info)
    requires x.sid == y.sid && x.version < y.version
    ensures !Monotone(w + [y] + [x])
  {
    var s := w + [y] + [x];
    assert s[|w|] == y && s[|w| + 1] == x;
  }

  lemma ExecSnoc(r: Recipient, es: seq<Event>, e: Event)
    ensures Exec(r, es + [e]) == Step(Exec(r, es), e)
  {
    assert (es + [e])[..|es|] == es;
  }

  lemma TwoOf<T>(a: T, b: T)
    ensures [a, b] == [a] + [b]
  {
  }

  lemma FourOf<T>(s: seq<T>)
    requires |s| == 4
    ensures s == [s[0], s[1]] + [s[2], s[3]]
  {
  }

  lemma Associate<T>(a: seq<T>, b: seq<T>, c: seq<T>)
    ensures a + (b + c) == a + b + c
  {
  }

  lemma TwoSteps(r: Recipient, es: seq<Event>, e: Event, f: Event)
    ensures Exec(r, es + [e, f]) == Step(Step(Exec(r, es), e), f)
  {
    ExecSnoc(r, es, e);
    ExecSnoc(r, es + [e], f);
    TwoOf(e, f);
    Associate(es, [e], [f]);
  }

  lemma FourSteps(r: Recipient, es: seq<Event>, fs: seq<Event>)
    requires |fs| == 4
    ensures Exec(r, es + fs) == Step(Step(Step(Step(Exec(r, es), fs[0]), fs[1]), fs[2]), fs[3])
  {
    FourOf(fs);
    Associate(es, [fs[0], fs[1]], [fs[2], fs[3]]);
    TwoSteps(r, es, fs[0], fs[1]);
    TwoSteps(r, es + [fs[0], fs[1]], fs[2], fs[3]);
  }

  /** Such runs exist: an ordinary join makes the recipient ready. */
  lemma JoinMakesReady(me: ParticipantID, es: seq<Event>)
    requires es == [JoinRecord([]), JoinWrite, JoinFinish, Activate]
    ensures
      var r := Exec(Init(me, false), es);
      r.state == Active && IsReady(r) && r.inflight == [] && r.cache == map[] && r.me == me
  {
    assert [] + es == es;
    FourSteps(Init(me, false), [], es);
    var r1 := Step(Init(me, false), es[0]);
    assert r1.join == Recorded([]) && r1.cache == map[];
  }

  // ---------------------------------------------------------------------------------------------------------
  // The recipient ends on the newest state
  // ---------------------------------------------------------------------------------------------------------

  lemma {:induction false} LastIn(infos: seq<Info>, sid: ParticipantID)
    ensures Last(infos, sid).Some? ==> Last(infos, sid).value in infos && Last(infos, sid).value.sid == sid
    ensures Monotone(infos) ==>
              forall x <- infos :: x.sid == sid ==>
                Last(infos, sid).Some? && x.version <= Last(infos, sid).value.version
  {
    if infos != [] {
      var init, last := infos[..|infos| - 1], infos[|infos| - 1];
      LastIn(init, sid);
      assert infos == init + [last];
      MonotoneConcat(init, [last]);
    }
  }

  /** An event that runs `pi` through the filter. */
  predicate Offers(r: Recipient, e: Event, pi: Info) {
    Serving(r) && ((e.UpdateCall? && pi in e.infos) || (e.Flush? && pi in r.toFlush))
  }

  /** Event `k` of the run or a later one did so. */
  predicate OfferedSince(me: ParticipantID, migration: bool, es: seq<Event>, k: nat, pi: Info) {
    k < |es| && (OfferedSince(me, migration, es[..|es| - 1], k, pi)
                 || Offers(Exec(Init(me, migration), es[..|es| - 1]), es[|es| - 1], pi))
  }

  lemma {:induction false} TheOffer(me: ParticipantID, migration: bool, es: seq<Event>, k: nat, pi: Info)
    returns (j: nat)
    requires OfferedSince(me, migration, es, k, pi)
    ensures k <= j < |es| && Offers(Exec(Init(me, migration), es[..j]), es[j], pi)
  {
    var init := es[..|es| - 1];
    if OfferedSince(me, migration, init, k, pi) {
      j := TheOffer(me, migration, init, k, pi);
      assert init[..j] == es[..j] && init[j] == es[j];
    } else {
      j := |es| - 1;
    }
  }

  /** One event takes a held info through the filter, or keeps holding it. */
  lemma HeldStep(r: Recipient, e: Event, pi: Info)
    requires pi in r.queued || pi in r.toFlush || (e.UpdateCall? && pi in e.infos)
    ensures
      var r' := Step(r, e);
      Offers(r, e, pi) || pi in r'.queued || pi in r'.toFlush || r'.state == Disconnected
  {
  }

  /** Every info passed to a recipient is put through the filter at once or by a later flush, unless the recipient
      disconnects; until then it is held. */
  lemma {:induction false} EveryUpdateIsAccountedFor(
      me: ParticipantID, migration: bool, es: seq<Event>, k: nat, pi: Info)
    requires k < |es| && es[k].UpdateCall? && pi in es[k].infos
    ensures
      var r := Exec(Init(me, migration), es);
      || r.state == Disconnected || pi in r.queued || pi in r.toFlush
      || OfferedSince(me, migration, es, k, pi)
  {
    var init, e := es[..|es| - 1], es[|es| - 1];
    if k < |init| {
      assert init[k] == es[k];
      EveryUpdateIsAccountedFor(me, migration, init, k, pi);
      if Exec(Init(me, migration), init).state == Disconnected {
        StaysDisconnected(Exec(Init(me, migration), init), e);
        return;
      } else if OfferedSince(me, migration, init, k, pi) {
        return;
      }
    }
    HeldStep(Exec(Init(me, migration), init), e, pi);
  }

  /** A recipient still connected, whose join finished if it had one, and who flushed what that handed on. */
  ghost predicate Caught(r: Recipient) {
    r.state != Disconnected && (r.migration || r.join.Finished?) && r.toFlush == []
  }

  /** So such a recipient has had every info ever passed to it put through the filter. */
  lemma CaughtUp(me: ParticipantID, migration: bool, es: seq<Event>, k: nat, pi: Info) returns (j: nat)
    requires k < |es| && es[k].UpdateCall? && pi in es[k].infos && Caught(Exec(Init(me, migration), es))
    ensures k <= j < |es| && Offers(Exec(Init(me, migration), es[..j]), es[j], pi)
  {
    EveryUpdateIsAccountedFor(me, migration, es, k, pi);
    HeldOnlyBeforeJoined(me, migration, es);
    MigrationStays(Init(me, migration), es);
    j := TheOffer(me, migration, es, k, pi);
  }

  lemma UpdateKeepsFloor(r: Recipient, infos: seq<Info>, sid: ParticipantID, floor: nat)
    requires Inv(r)
    requires (sid in r.cache && r.cache[sid] >= floor)
          || (IsReady(r) && exists pi <- infos :: pi.sid == sid && pi.version == floor && !pi.hidden)
    ensures sid in Update(r, infos).cache && Update(r, infos).cache[sid] >= floor
  {
    FilterTracks(r.me, r.cache, infos, r.sent);
  }

  lemma StepKeepsFloor(r: Recipient, e: Event, sid: ParticipantID, floor: nat)
    requires Inv(r)
    requires (sid in r.cache && r.cache[sid] >= floor && (r.migration || Answered(r)))
          || exists pi :: Offers(r, e, pi) && pi.sid == sid && pi.version == floor && !pi.hidden
    ensures sid in Step(r, e).cache && Step(r, e).cache[sid] >= floor
    ensures Step(r, e).migration || Answered(Step(r, e))
  {
    if e.UpdateCall? {
      UpdateKeepsFloor(r, e.infos, sid, floor);
    } else if e.Flush? && r.toFlush != [] {
      UpdateKeepsFloor(r.(toFlush := []), r.toFlush, sid, floor);
    }
  }

  /** Once event `k` of a run has put an info through the filter, the last info sent about its participant is
      never older. */
  lemma {:induction false} NeverOlderThanOffered(me: ParticipantID, migration: bool, es: seq<Event>, k: nat, pi: Info)
    requires k < |es| && !pi.hidden && Offers(Exec(Init(me, migration), es[..k]), es[k], pi)
    ensures
      var r := Exec(Init(me, migration), es);
      && (r.migration || Answered(r))
      && pi.sid in r.cache && r.cache[pi.sid] >= pi.version
      && Last(r.sent, pi.sid).Some? && Last(r.sent, pi.sid).value.version >= pi.version
  {
    var init := es[..|es| - 1];
    ExecKeepsWire(me, migration, init);
    ExecKeepsWire(me, migration, es);
    if k < |init| {
      assert init[..k] == es[..k] && init[k] == es[k];
      NeverOlderThanOffered(me, migration, init, k, pi);
    }
    StepKeepsFloor(Exec(Init(me, migration), init), es[|es| - 1], pi.sid, pi.version);
  }

  /** `n` is a finished snapshot, begun after every change of its participant was complete. */
  ghost predicate Complete(s: VersionStamping.Stamper, n: VersionStamping.Snapshot) {
    n in s.snaps && n.at.Finished? && forall c :: 0 <= c < |s.appliedAt| ==> c in n.doneAtBegin
  }

  /** Every info about `sid` in the list is a finished snapshot of the stamped participant. */
  ghost predicate Snapshots(s: VersionStamping.Stamper, infos: seq<Info>, sid: ParticipantID) {
    forall x <- infos :: x.sid == sid ==>
      exists n <- s.snaps :: n.at.Finished? && n.version == x.version && n.seen == x.content
  }

  lemma AtLeastCompleteIsComplete(
      stamps: seq<VersionStamping.Event>, f: VersionStamping.Snapshot, infos: seq<Info>, x: Info)
    requires Complete(VersionStamping.Exec(stamps), f) && Snapshots(VersionStamping.Exec(stamps), infos, x.sid)
    requires x in infos && x.version >= f.version
    ensures x.content >= |VersionStamping.Exec(stamps).appliedAt|
  {
    var s := VersionStamping.Exec(stamps);
    var n :| n in s.snaps && n.at.Finished? && n.version == x.version && n.seen == x.content;
    if n.seen < |s.appliedAt| { VersionStamping.LaterSnapshotLargerVersion(stamps, n, f, n.seen); }
  }

  /** Stamping and filter together. Let every info about a participant that a recipient is ever sent be a finished
      snapshot of that participant. If one begun after all its changes were complete is ever passed to the recipient,
      and the recipient has caught up, then the last info it is sent about the participant includes every change. */
  lemma RecipientEndsOnNewest(
      stamps: seq<VersionStamping.Event>, f: VersionStamping.Snapshot,
      me: ParticipantID, migration: bool, es: seq<Event>, k: nat, pi: Info)
    requires Complete(VersionStamping.Exec(stamps), f) && pi.version == f.version
    requires k < |es| && es[k].UpdateCall? && pi in es[k].infos && !pi.hidden && Caught(Exec(Init(me, migration), es))
    requires Snapshots(VersionStamping.Exec(stamps), Exec(Init(me, migration), es).sent, pi.sid)
    ensures
      var newest := Last(Exec(Init(me, migration), es).sent, pi.sid);
      newest.Some? && newest.value.content >= |VersionStamping.Exec(stamps).appliedAt|
  {
    var sent := Exec(Init(me, migration), es).sent;
    var j := CaughtUp(me, migration, es, k, pi);
    NeverOlderThanOffered(me, migration, es, j, pi);
    LastIn(sent, pi.sid);
    AtLeastCompleteIsComplete(stamps, f, sent, Last(sent, pi.sid).value);
  }

  /** And to the wire: if moreover no write overtook a smaller version and nothing is in flight any more, the last
      info the recipient reads about the participant includes every change. */
  lemma RecipientReadsNewest(
      stamps: seq<VersionStamping.Event>, f: VersionStamping.Snapshot,
      me: ParticipantID, migration: bool, es: seq<Event>, k: nat, pi: Info)
    requires Complete(VersionStamping.Exec(stamps), f) && pi.version == f.version
    requires k < |es| && es[k].UpdateCall? && pi in es[k].infos && !pi.hidden && Caught(Exec(Init(me, migration), es))
    requires Snapshots(VersionStamping.Exec(stamps), Exec(Init(me, migration), es).sent, pi.sid)
    requires NoneOvertakes(me, migration, es) && Exec(Init(me, migration), es).inflight == []
    ensures
      var newest := Last(OnWire(Exec(Init(me, migration), es).wire), pi.sid);
      newest.Some? && newest.value.content >= |VersionStamping.Exec(stamps).appliedAt|
  {
    var r := Exec(Init(me, migration), es);
    var w := OnWire(r.wire);
    var j := CaughtUp(me, migration, es, k, pi);
    NeverOlderThanOffered(me, migration, es, j, pi);
    WireVersionsNeverDecreaseIff(me, migration, es);
    ExecKeepsWire(me, migration, es);
    LastIn(r.sent, pi.sid);
    LastIn(w, pi.sid);
    assert Last(r.sent, pi.sid).value in w;
    AtLeastCompleteIsComplete(stamps, f, r.sent, Last(w, pi.sid).value);
  }

  // ---------------------------------------------------------------------------------------------------------
  // The imperative code
  // ---------------------------------------------------------------------------------------------------------

  class SignalRecipient {
    const me: ParticipantID
    const migration: bool
    var state: State
    var updateCache: map<ParticipantID, nat>
    var queuedUpdates: seq<Info>

    constructor (me: ParticipantID, migration: bool)
      ensures this.me == me && this.migration == migration
      ensures state == Joining && updateCache == map[] && queuedUpdates == []
    {
      this.me, this.migration, state, updateCache, queuedUpdates := me, migration, Joining, map[], [];
    }

    /** The recipient as Update sees it, with nothing in flight. */
    function View(): Recipient
      reads this
    {
      Init(me, migration).(state := state, cache := updateCache, queued := queuedUpdates)
    }

    /** The locked part; the valid updates are then written, even when there are none. */
    method SendParticipantUpdate(participantsToUpdate: seq<Info>) returns (validUpdates: Option<seq<Info>>)
      modifies this`updateCache, this`queuedUpdates
      ensures
        var r := Update(old(View()), participantsToUpdate);
        && View() == r.(inflight := [], sent := [])
        && validUpdates == if r.inflight == [] then None else Some(r.inflight[0])
    {
      if state == Disconnected {
        return None;
      }
      if !IsReady(View()) {
        queuedUpdates := queuedUpdates + participantsToUpdate;
        return None;
      }
      var valid := [];
      for i := 0 to |participantsToUpdate|
        invariant (valid, updateCache) == Filter(me, old(updateCache), participantsToUpdate[..i])
        invariant queuedUpdates == old(queuedUpdates)
      {
        assert participantsToUpdate[..i + 1][..i] == participantsToUpdate[..i];
        var pi := participantsToUpdate[i];
        var isValid := true;
        if pi.sid in updateCache && pi.version < updateCache[pi.sid] {
          isValid := false;
        }
        if pi.hidden && pi.sid != me {
          isValid := false;
        }
        if isValid {
          updateCache := updateCache[pi.sid := pi.version];
          valid := valid + [pi];
        }
      }
      assert participantsToUpdate[..|participantsToUpdate|] == participantsToUpdate;
      return Some(valid);
    }

    /** The two locked parts of SendJoinResponse around the write of the response. */
    method RecordJoinResponse(otherParticipants: seq<Info>)
      modifies this`updateCache
      ensures updateCache == AddAll(old(updateCache), otherParticipants)
    {
      for i := 0 to |otherParticipants|
        invariant updateCache == AddAll(old(updateCache), otherParticipants[..i])
      {
        assert otherParticipants[..i + 1][..i] == otherParticipants[..i];
        updateCache := updateCache[otherParticipants[i].sid := otherParticipants[i].version];
      }
      assert otherParticipants[..|otherParticipants|] == otherParticipants;
    }

    method FinishJoin() returns (queued: seq<Info>)
      modifies this`state, this`queuedUpdates
      ensures state == (if old(state) == Joining then Joined else old(state))
      ensures queued == old(queuedUpdates) && queuedUpdates == []
    {
      if state == Joining {
        state := Joined;
      }
      queued := queuedUpdates;
      queuedUpdates := [];
    }
  }
}
