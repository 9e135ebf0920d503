/** The publish queue per client id of pkg/rtc/participant_publisher.go: pending add-track requests, the `queued`
    gate that serialises re-publishing, and the two locked regions in which a track closes. */
module PublishQueue {
  import opened Wrappers

  type Cid = nat
  type Sid = nat

  /** A pending TrackInfo: its track id and the number of the request it came from. */
  datatype Pending = Pending(sid: Sid, request: nat)

  /** pendingTrackInfo: the requests of one client id not yet published, oldest first. */
  datatype Entry = Entry(infos: seq<Pending>, queued: bool)

  /** A published track: the client id it was requested with and the one its SDP shows. */
  datatype Track = Track(cid: Cid, sdpCid: Cid, info: Pending)

  /** `open` are the published tracks, `closing` the client ids of tracks already removed from them whose close
      callback has not run yet. Histories: the client ids requested and published, in order (requests are
      numbered from 0), every track id ever generated, and the client ids parked only because of an SDP id. */
  datatype Publisher = Publisher(
    pending: map<Cid, Entry>, open: seq<Track>, closing: seq<Cid>,
    requested: seq<Cid>, published: seq<Track>, usedSids: set<Sid>, parkedBySdp: set<Cid>)

  function Init(): Publisher { Publisher(map[], [], [], [], [], {}, {}) }

  predicate OpenFrom(p: Publisher, cid: Cid) { exists t <- p.open :: t.cid == cid }
  predicate OpenBySdp(p: Publisher, cid: Cid) { exists t <- p.open :: t.sdpCid == cid }

  datatype Event =
    | AddTrack(cid: Cid, freshSid: Sid)
    | MediaReceived(cid: Cid, sdpCid: Cid)
    | Unpublish(i: nat)
    | CloseCallback(i: nat)

  /** setTrackID: a client id already pending keeps its track id. */
  function TrackIDFor(p: Publisher, cid: Cid, freshSid: Sid): Sid {
    if cid in p.pending && p.pending[cid].infos != [] then p.pending[cid].infos[0].sid else freshSid
  }

  /** The tail of addPendingTrackLocked. */
  function Add(p: Publisher, cid: Cid, freshSid: Sid): Publisher {
    var ti := Pending(TrackIDFor(p, cid, freshSid), |p.requested|);
    var entry :=
      if cid in p.pending then Entry(p.pending[cid].infos + [ti], p.pending[cid].queued)
      else Entry([ti], OpenFrom(p, cid) || OpenBySdp(p, cid));
    p.(pending := p.pending[cid := entry], requested := p.requested + [cid], usedSids := p.usedSids + {freshSid},
       parkedBySdp := if cid !in p.pending && !OpenFrom(p, cid) && OpenBySdp(p, cid) then p.parkedBySdp + {cid}
                      else p.parkedBySdp)
  }

  /** addMediaTrack: the head of the entry becomes a published track; what remains waits for its close. */
  function Publish(p: Publisher, cid: Cid, sdpCid: Cid): Publisher
    requires cid in p.pending && p.pending[cid].infos != []
  {
    var infos := p.pending[cid].infos;
    var t := Track(cid, sdpCid, infos[0]);
    p.(pending := if |infos| == 1 then p.pending - {cid} else p.pending[cid := Entry(infos[1..], true)],
       open := p.open + [t], published := p.published + [t],
       parkedBySdp := p.parkedBySdp - {cid})
  }

  /** Media whose SDP id belongs to a published track joins that track. Otherwise it is for the client id of that
      name if one is pending; failing that, for any client id of its kind (the code scans a map, in no fixed
      order). A queued client id takes no media. */
  predicate TakesMedia(p: Publisher, cid: Cid, sdpCid: Cid) {
    && !OpenFrom(p, sdpCid) && !OpenBySdp(p, sdpCid)
    && (sdpCid in p.pending ==> sdpCid == cid)
    && cid in p.pending && !p.pending[cid].queued && p.pending[cid].infos != []
  }

  /** Events that are not possible change nothing. A fresh track id has never been used. */
  function Step(p: Publisher, e: Event): Publisher {
    match e
    case AddTrack(cid, freshSid) => if freshSid in p.usedSids then p else Add(p, cid, freshSid)
    case MediaReceived(cid, sdpCid) =>
      if TakesMedia(p, cid, sdpCid) then Publish(p, cid, sdpCid) else p
    case Unpublish(i) =>
      if i < |p.open| then p.(open := p.open[..i] + p.open[i + 1..], closing := p.closing + [p.open[i].cid]) else p
    case CloseCallback(i) =>
      if i < |p.closing| then
        var cid := p.closing[i];
        p.(closing := p.closing[..i] + p.closing[i + 1..],
           pending := if cid in p.pending then p.pending[cid := p.pending[cid].(queued := false)] else p.pending,
           parkedBySdp := p.parkedBySdp - {cid})
      else p
  }

  function Exec(p: Publisher, es: seq<Event>): Publisher {
    if es == [] then p else Step(Exec(p, es[..|es| - 1]), es[|es| - 1])
  }

  // ---------------------------------------------------------------------------------------------------------
  // What holds of every run
  // ---------------------------------------------------------------------------------------------------------

  /** The numbers of the requests for `cid`, in order. */
  function RequestsOf(requested: seq<Cid>, cid: Cid): seq<nat> {
    if requested == [] then []
    else
      RequestsOf(requested[..|requested| - 1], cid) +
      (if requested[|requested| - 1] == cid then [|requested| - 1] else [])
  }

  /** The requests of `cid` already published, in order of publication. */
  function PublishedOf(published: seq<Track>, cid: Cid): seq<nat> {
    if published == [] then []
    else
      PublishedOf(published[..|published| - 1], cid) +
      (if published[|published| - 1].cid == cid then [published[|published| - 1].info.request] else [])
  }

  function Numbers(infos: seq<Pending>): seq<nat> { seq(|infos|, i requires 0 <= i < |infos| => infos[i].request) }

  function Waiting(p: Publisher, cid: Cid): seq<nat> {
    if cid in p.pending then Numbers(p.pending[cid].infos) else []
  }

  /** No request is lost, duplicated or overtaken: for each client id, what was published followed by what is
      pending is what was requested. No entry is empty and all its infos share one track id; entries of different
      client ids never share one, and generated ids are never reused. */
  ghost predicate QueueOk(p: Publisher) {
    && (forall cid :: PublishedOf(p.published, cid) + Waiting(p, cid) == RequestsOf(p.requested, cid))
    && (forall cid <- p.pending :: p.pending[cid].infos != [])
    && (forall cid <- p.pending :: forall i <- p.pending[cid].infos ::
          i.sid == p.pending[cid].infos[0].sid && i.sid in p.usedSids)
    && (forall c, d :: c in p.pending && d in p.pending && c != d ==>
          p.pending[c].infos[0].sid != p.pending[d].infos[0].sid)
  }

  lemma AddKeepsQueue(p: Publisher, cid: Cid, freshSid: Sid)
    requires QueueOk(p) && freshSid !in p.usedSids
    ensures QueueOk(Add(p, cid, freshSid))
  {
    var p' := Add(p, cid, freshSid);
    assert p'.requested[..|p'.requested| - 1] == p.requested;
    var ti := Pending(TrackIDFor(p, cid, freshSid), |p.requested|);
    forall c ensures PublishedOf(p'.published, c) + Waiting(p', c) == RequestsOf(p'.requested, c) {
      if c == cid {
        var before := if cid in p.pending then p.pending[cid].infos else [];
        assert p'.pending[cid].infos == before + [ti];
        assert Waiting(p', c) == Waiting(p, c) + [|p.requested|];
        assert PublishedOf(p.published, c) + (Waiting(p, c) + [|p.requested|])
            == PublishedOf(p.published, c) + Waiting(p, c) + [|p.requested|];
      } else {
        assert Waiting(p', c) == Waiting(p, c);
        assert RequestsOf(p'.requested, c) == RequestsOf(p.requested, c) + [];
      }
    }
  }

  lemma PublishKeepsQueue(p: Publisher, cid: Cid, sdpCid: Cid)
    requires QueueOk(p) && cid in p.pending
    ensures QueueOk(Publish(p, cid, sdpCid))
  {
    var p' := Publish(p, cid, sdpCid);
    forall c ensures PublishedOf(p'.published, c) + Waiting(p', c) == RequestsOf(p'.requested, c) {
      PublishKeepsOrder(p, cid, sdpCid, c);
    }
  }

  /** The head of an entry moves from the waiting to the published requests of its client id. */
  lemma PublishKeepsOrder(p: Publisher, cid: Cid, sdpCid: Cid, c: Cid)
    requires cid in p.pending && p.pending[cid].infos != []
    ensures
      var p' := Publish(p, cid, sdpCid);
      PublishedOf(p'.published, c) + Waiting(p', c) == PublishedOf(p.published, c) + Waiting(p, c)
  {
    var p', infos := Publish(p, cid, sdpCid), p.pending[cid].infos;
    assert p'.published[..|p'.published| - 1] == p.published;
    if c == cid {
      assert Waiting(p, c) == [infos[0].request] + Waiting(p', c);
      assert PublishedOf(p.published, c) + ([infos[0].request] + Waiting(p', c))
          == PublishedOf(p.published, c) + [infos[0].request] + Waiting(p', c);
    } else {
      assert Waiting(p', c) == Waiting(p, c);
      assert PublishedOf(p'.published, c) == PublishedOf(p.published, c) + [];
    }
  }

  lemma ClosingKeepsQueue(p: Publisher, i: nat)
    requires QueueOk(p)
    ensures QueueOk(Step(p, CloseCallback(i)))
  {
    var p' := Step(p, CloseCallback(i));
    assert p'.pending.Keys == p.pending.Keys && forall c <- p.pending :: p'.pending[c].infos == p.pending[c].infos;
    forall c ensures Waiting(p', c) == Waiting(p, c) {
    }
  }

  lemma StepKeepsQueue(p: Publisher, e: Event)
    requires QueueOk(p)
    ensures QueueOk(Step(p, e))
  {
    match e
    case AddTrack(cid, freshSid) => if freshSid !in p.usedSids { AddKeepsQueue(p, cid, freshSid); }
    case MediaReceived(cid, sdpCid) =>
      if TakesMedia(p, cid, sdpCid) { PublishKeepsQueue(p, cid, sdpCid); }
    case Unpublish(i) =>
    case CloseCallback(i) => ClosingKeepsQueue(p, i);
  }

  /** Requests of a client id are published in the order in which they were made, and none is lost. */
  lemma {:induction false} PublishedInRequestOrder(es: seq<Event>)
    ensures QueueOk(Exec(Init(), es))
  {
    if es != [] {
      PublishedInRequestOrder(es[..|es| - 1]);
      StepKeepsQueue(Exec(Init(), es[..|es| - 1]), es[|es| - 1]);
    }
  }

  // ---------------------------------------------------------------------------------------------------------
  // One open track per client id
  // ---------------------------------------------------------------------------------------------------------

  /** A client id has at most one open track, and while it has one its entry is queued. */
  ghost predicate GateOk(p: Publisher) {
    && (forall i, j :: 0 <= i < j < |p.open| ==> p.open[i].cid != p.open[j].cid)
    && (forall t <- p.open :: t.cid in p.pending ==> p.pending[t.cid].queued)
  }

  /** The close callback of a client id runs before that client id is published again and requested once more. */
  predicate TimelyCallback(p: Publisher, e: Event) {
    e.CloseCallback? && e.i < |p.closing| && p.closing[e.i] in p.pending ==> !OpenFrom(p, p.closing[e.i])
  }

  lemma PublishKeepsGate(p: Publisher, cid: Cid, sdpCid: Cid)
    requires QueueOk(p) && GateOk(p) && cid in p.pending && !p.pending[cid].queued
    ensures GateOk(Publish(p, cid, sdpCid))
  {
    forall i | 0 <= i < |p.open| ensures p.open[i].cid != cid {
      assert p.open[i] in p.open;
    }
  }

  lemma AddKeepsGate(p: Publisher, cid: Cid, freshSid: Sid)
    requires GateOk(p)
    ensures GateOk(Add(p, cid, freshSid))
  {
  }

  lemma UnpublishKeepsGate(p: Publisher, i: nat)
    requires GateOk(p)
    ensures GateOk(Step(p, Unpublish(i)))
  {
  }

  lemma StepKeepsGate(p: Publisher, e: Event)
    requires QueueOk(p) && GateOk(p) && TimelyCallback(p, e)
    ensures GateOk(Step(p, e))
  {
    if
    case e.AddTrack? => if e.freshSid !in p.usedSids { AddKeepsGate(p, e.cid, e.freshSid); }
    case e.MediaReceived? =>
      if TakesMedia(p, e.cid, e.sdpCid) { PublishKeepsGate(p, e.cid, e.sdpCid); }
    case e.Unpublish? => UnpublishKeepsGate(p, e.i);
    case e.CloseCallback? =>
  }

  /** Exactly then: a callback that comes late, with the client id open again and another request pending, opens
      the gate; every other callback keeps it. */
  lemma CallbackKeepsGateIff(p: Publisher, i: nat)
    requires QueueOk(p) && GateOk(p)
    ensures GateOk(Step(p, CloseCallback(i))) <==> TimelyCallback(p, CloseCallback(i))
  {
    if TimelyCallback(p, CloseCallback(i)) {
      StepKeepsGate(p, CloseCallback(i));
    } else {
      var t :| t in p.open && t.cid == p.closing[i];
      assert t in Step(p, CloseCallback(i)).open;
    }
  }

  ghost predicate TimelyCallbacks(es: seq<Event>) {
    forall i :: 0 <= i < |es| ==> TimelyCallback(Exec(Init(), es[..i]), es[i])
  }

  /** With timely callbacks, the next request of a client id is never published while its previous track is open. */
  lemma {:induction false} NeverTwoOpen(es: seq<Event>)
    requires TimelyCallbacks(es)
    ensures GateOk(Exec(Init(), es))
  {
    if es != [] {
      var init := es[..|es| - 1];
      assert forall i :: 0 <= i < |init| ==> init[..i] == es[..i] && init[i] == es[i];
      NeverTwoOpen(init);
      PublishedInRequestOrder(init);
      StepKeepsGate(Exec(Init(), init), es[|es| - 1]);
    }
  }

  lemma {:induction false} ExecConcat(p: Publisher, es: seq<Event>, fs: seq<Event>)
    ensures Exec(p, es + fs) == Exec(Exec(p, es), fs)
  {
    if fs == [] {
      assert es + fs == es;
    } else {
      ExecConcat(p, es, fs[..|fs| - 1]);
      assert (es + fs)[..|es + fs| - 1] == es + fs[..|fs| - 1];
    }
  }

  /** Client id 1 was published and is closing, its callback still to come, and is requested again. */
  lemma ReachesClosing(es: seq<Event>)
    requires es == [AddTrack(1, 10), MediaReceived(1, 1), Unpublish(0), AddTrack(1, 11)]
    ensures var p := Exec(Init(), es);
            p.open == [] && p.closing == [1] && p.pending == map[1 := Entry([Pending(11, 1)], false)]
            && p.usedSids == {10, 11} && |p.requested| == 2
  {
    var p2 := Step(Step(Init(), AddTrack(1, 10)), MediaReceived(1, 1));
    assert p2.open == [Track(1, 1, Pending(10, 0))] && p2.pending == map[];
    var p3 := Step(p2, Unpublish(0));
    assert p3.open == [] && p3.closing == [1];
    FourSteps(Init(), es);
  }

  lemma LateCallbackFrom(p: Publisher, es: seq<Event>)
    requires p.open == [] && p.closing == [1] && p.pending == map[1 := Entry([Pending(11, 1)], false)]
    requires p.usedSids == {10, 11} && |p.requested| == 2
    requires es == [MediaReceived(1, 1), AddTrack(1, 12), CloseCallback(0), MediaReceived(1, 3)]
    ensures var open := Exec(p, es).open; |open| == 2 && open[0].cid == open[1].cid == 1
  {
    var p1 := Step(p, MediaReceived(1, 1));
    assert p1.open == [Track(1, 1, Pending(11, 1))] && p1.pending == map[];
    assert p1.open[0] in p1.open;
    var p2 := Step(p1, AddTrack(1, 12));
    assert p2.pending == map[1 := Entry([Pending(12, 2)], true)];
    var p3 := Step(p2, CloseCallback(0));
    assert p3.pending == map[1 := Entry([Pending(12, 2)], false)];
    FourSteps(p, es);
  }

  /** An id that no open track and no pending entry has. */
  lemma FreshId(p: Publisher) returns (id: Cid)
    ensures !OpenFrom(p, id) && !OpenBySdp(p, id) && id !in p.pending
  {
    var bound := AboveAll(p.pending.Keys);
    id := AboveTracks(p.open, bound);
  }

  lemma {:induction false} AboveAll(ids: set<Cid>) returns (bound: Cid)
    ensures forall id <- ids :: id < bound
  {
    bound := 0;
    var rest := ids;
    while rest != {}
      invariant forall id <- ids :: id in rest || id < bound
    {
      var id :| id in rest;
      rest := rest - {id};
      bound := if id < bound then bound else id + 1;
    }
  }

  lemma {:induction false} AboveTracks(open: seq<Track>, least: Cid) returns (bound: Cid)
    ensures least <= bound && forall t <- open :: t.cid < bound && t.sdpCid < bound
  {
    bound := least;
    for i := 0 to |open|
      invariant least <= bound && forall j :: 0 <= j < i ==> open[j].cid < bound && open[j].sdpCid < bound
    {
      bound := if open[i].cid < bound then bound else open[i].cid + 1;
      bound := if open[i].sdpCid < bound then bound else open[i].sdpCid + 1;
    }
  }

  /** Whenever a callback comes late, the next media the client id takes opens a second track of it, and media
      that it takes can come. */
  lemma LateCallbackLetsTwoOpen(p: Publisher, i: nat) returns (sdpCid: Cid)
    requires QueueOk(p) && i < |p.closing| && !TimelyCallback(p, CloseCallback(i))
    ensures
      var cid := p.closing[i];
      var open := Step(Step(p, CloseCallback(i)), MediaReceived(cid, sdpCid)).open;
      exists j, k :: 0 <= j < k < |open| && open[j].cid == open[k].cid == cid
  {
    var cid, p1 := p.closing[i], Step(p, CloseCallback(i));
    sdpCid := FreshId(p1);
    var t :| t in p.open && t.cid == cid;
    var j :| 0 <= j < |p.open| && p.open[j] == t;
    assert TakesMedia(p1, cid, sdpCid);
    var open := Step(p1, MediaReceived(cid, sdpCid)).open;
    assert open[j].cid == open[|p.open|].cid == cid;
  }

  /** A run in which a late callback lets two tracks of one client id be open at once. */
  lemma LateCallbackOpensTwo()
    ensures exists es: seq<Event> ::
      var open := Exec(Init(), es).open; |open| == 2 && open[0].cid == open[1].cid
  {
    var es1 := [AddTrack(1, 10), MediaReceived(1, 1), Unpublish(0), AddTrack(1, 11)];
    var es2 := [MediaReceived(1, 1), AddTrack(1, 12), CloseCallback(0), MediaReceived(1, 3)];
    ReachesClosing(es1);
    LateCallbackFrom(Exec(Init(), es1), es2);
    ExecConcat(Init(), es1, es2);
  }

  lemma PrefixStep(p: Publisher, es: seq<Event>, k: nat)
    requires k < |es|
    ensures Exec(p, es[..k + 1]) == Step(Exec(p, es[..k]), es[k])
  {
    assert es[..k + 1][..k] == es[..k];
  }

  lemma FourSteps(p: Publisher, es: seq<Event>)
    requires |es| == 4
    ensures Exec(p, es) == Step(Step(Step(Step(p, es[0]), es[1]), es[2]), es[3])
  {
    PrefixStep(p, es, 0);
    PrefixStep(p, es, 1);
    PrefixStep(p, es, 2);
    PrefixStep(p, es, 3);
    assert es[..4] == es;
  }

  // ---------------------------------------------------------------------------------------------------------
  // Media of an open track publishes nothing
  // ---------------------------------------------------------------------------------------------------------

  /** Media publishes exactly when no open track answers to its id, by signal or SDP, a client id of that name is not
      passed over, and the client id it goes to is pending and not queued. */
  lemma MediaPublishesIff(p: Publisher, cid: Cid, sdpCid: Cid)
    requires QueueOk(p)
    ensures
      var p' := Step(p, MediaReceived(cid, sdpCid));
      if (exists t <- p.open :: t.cid == sdpCid || t.sdpCid == sdpCid) || (sdpCid in p.pending && sdpCid != cid)
         || cid !in p.pending || p.pending[cid].queued
      then p' == p
      else p'.published == p.published + [Track(cid, sdpCid, p.pending[cid].infos[0])]
           && p'.open == p.open + [Track(cid, sdpCid, p.pending[cid].infos[0])]
  {
    if t :| t in p.open && (t.cid == sdpCid || t.sdpCid == sdpCid) {
      assert OpenFrom(p, sdpCid) || OpenBySdp(p, sdpCid);
    }
  }

  /** No open track came from media that an earlier one still open answers to. */
  ghost predicate MediaOk(p: Publisher) {
    forall i, j :: 0 <= i < j < |p.open| ==> p.open[i].cid != p.open[j].sdpCid && p.open[i].sdpCid != p.open[j].sdpCid
  }

  lemma StepKeepsMedia(p: Publisher, e: Event)
    requires QueueOk(p) && MediaOk(p)
    ensures MediaOk(Step(p, e))
  {
    var p' := Step(p, e);
    match e
    case MediaReceived(cid, sdpCid) =>
      MediaPublishesIff(p, cid, sdpCid);
      if p' != p {
        forall i, j | 0 <= i < j < |p'.open|
          ensures p'.open[i].cid != p'.open[j].sdpCid && p'.open[i].sdpCid != p'.open[j].sdpCid
        {
          if j == |p.open| { assert p.open[i] in p.open; }
        }
      }
    case Unpublish(i) =>
      if i < |p.open| {
        assert forall k :: 0 <= k < |p'.open| ==> p'.open[k] == p.open[if k < i then k else k + 1];
      }
    case AddTrack(_, _) => assert p'.open == p.open;
    case CloseCallback(_) => assert p'.open == p.open;
  }

  lemma {:induction false} MediaJoinsItsTrack(es: seq<Event>)
    ensures MediaOk(Exec(Init(), es))
  {
    if es != [] {
      MediaJoinsItsTrack(es[..|es| - 1]);
      PublishedInRequestOrder(es[..|es| - 1]);
      StepKeepsMedia(Exec(Init(), es[..|es| - 1]), es[|es| - 1]);
    }
  }

  // ---------------------------------------------------------------------------------------------------------
  // The gate opens again
  // ---------------------------------------------------------------------------------------------------------

  /** A queued entry has an open track of its own client id to wait for, or that track's callback is under way,
      or it was parked because a track of another client id carries this id in its SDP. */
  ghost predicate WaitsForOwn(p: Publisher) {
    forall cid <- p.pending :: p.pending[cid].queued ==> OpenFrom(p, cid) || cid in p.closing || cid in p.parkedBySdp
  }

  lemma {:induction false} QueuedWaitsForOwn(es: seq<Event>)
    ensures WaitsForOwn(Exec(Init(), es))
  {
    if es != [] {
      QueuedWaitsForOwn(es[..|es| - 1]);
      StepKeepsWaiting(Exec(Init(), es[..|es| - 1]), es[|es| - 1]);
    }
  }

  lemma StepKeepsWaiting(p: Publisher, e: Event)
    requires WaitsForOwn(p)
    ensures WaitsForOwn(Step(p, e))
  {
    var p' := Step(p, e);
    forall cid <- p'.pending | p'.pending[cid].queued
      ensures OpenFrom(p', cid) || cid in p'.closing || cid in p'.parkedBySdp
    {
      if OpenFrom(p, cid) {
        var t :| t in p.open && t.cid == cid;
        assert t in p'.open || (e.Unpublish? && p.open[e.i] == t && cid in p'.closing);
      } else if e.MediaReceived? && e.cid == cid && p' != p {
        assert p'.open[|p.open|] in p'.open;
      } else if e.CloseCallback? && e.i < |p.closing| && cid in p.closing {
        assert p.closing[e.i] != cid;
        assert p.closing == p.closing[..e.i] + [p.closing[e.i]] + p.closing[e.i + 1..];
      }
    }
  }

  /** A queued entry with nothing of its own to wait for. */
  predicate Stuck(p: Publisher, cid: Cid) {
    cid in p.pending && p.pending[cid].queued && !OpenFrom(p, cid) && cid !in p.closing
  }

  lemma StuckStays(p: Publisher, cid: Cid, e: Event)
    requires Stuck(p, cid)
    ensures Stuck(Step(p, e), cid)
    ensures Step(p, e).published == p.published || (Step(p, e).published != [] && e.MediaReceived? && e.cid != cid
              && Step(p, e).published == p.published + [Step(p, e).published[|p.published|]]
              && Step(p, e).published[|p.published|].cid == e.cid)
  {
  }

  /** Such an entry is never published, whatever happens later. */
  lemma {:induction false} StuckForever(p: Publisher, cid: Cid, es: seq<Event>)
    requires Stuck(p, cid)
    ensures Stuck(Exec(p, es), cid) && PublishedOf(Exec(p, es).published, cid) == PublishedOf(p.published, cid)
  {
    if es != [] {
      var init, e := es[..|es| - 1], es[|es| - 1];
      StuckForever(p, cid, init);
      var q := Exec(p, init);
      StuckStays(q, cid, e);
      var ts := Step(q, e).published;
      if ts != q.published { assert ts[..|ts| - 1] == q.published; }
    }
  }

  lemma ExecSnoc(p: Publisher, es: seq<Event>, e: Event)
    ensures Exec(p, es + [e]) == Step(Exec(p, es), e)
  {
    assert (es + [e])[..|es|] == es;
  }

  /** An entry that waits for something of its own can be woken. */
  lemma CanWake(p: Publisher, cid: Cid) returns (es: seq<Event>)
    requires cid in p.pending && !Stuck(p, cid)
    ensures
      var p' := Exec(p, es);
      && cid in p'.pending && p'.pending[cid] == p.pending[cid].(queued := false) && p'.published == p.published
  {
    if !p.pending[cid].queued {
      es := [];
    } else if cid in p.closing {
      var i :| 0 <= i < |p.closing| && p.closing[i] == cid;
      es := [] + [CloseCallback(i)];
      ExecSnoc(p, [], CloseCallback(i));
    } else {
      var t :| t in p.open && t.cid == cid;
      var i :| 0 <= i < |p.open| && p.open[i] == t;
      var p1 := Step(p, Unpublish(i));
      assert p1.closing[|p.closing|] == cid;
      es := [] + [Unpublish(i)] + [CloseCallback(|p.closing|)];
      ExecSnoc(p, [], Unpublish(i));
      ExecSnoc(p, [] + [Unpublish(i)], CloseCallback(|p.closing|));
    }
  }

  /** Such an entry can be published to its last request. */
  lemma {:induction false} CanDrain(p: Publisher, cid: Cid) returns (es: seq<Event>)
    requires cid in p.pending && p.pending[cid].infos != [] && !Stuck(p, cid)
    ensures
      var p' := Exec(p, es);
      cid !in p'.pending && PublishedOf(p'.published, cid) == PublishedOf(p.published, cid) + Waiting(p, cid)
    decreases |p.pending[cid].infos|
  {
    es := CanWake(p, cid);
    var p1 := Exec(p, es);
    var sdpCid := FreshId(p1);
    var e := MediaReceived(cid, sdpCid);
    var p2 := Step(p1, e);
    ExecSnoc(p, es, e);
    PublishKeepsOrder(p1, cid, sdpCid, cid);
    assert p2 == Publish(p1, cid, sdpCid) && Waiting(p1, cid) == Waiting(p, cid);
    es := es + [e];
    if |p.pending[cid].infos| > 1 {
      assert p2.open[|p1.open|] in p2.open;
      var rest := CanDrain(p2, cid);
      ExecConcat(p, es, rest);
      es := es + rest;
    } else {
      assert Waiting(p2, cid) == [];
    }
  }

  /** Exactly the stuck entries are lost: the requests of any other can all still be published, those of a stuck
      one never. */
  lemma DrainsIffNotStuck(p: Publisher, cid: Cid)
    requires QueueOk(p) && cid in p.pending
    ensures !Stuck(p, cid) <==>
              exists es: seq<Event> ::
                PublishedOf(Exec(p, es).published, cid) == PublishedOf(p.published, cid) + Waiting(p, cid)
    ensures !Stuck(p, cid) <==>
              exists es: seq<Event> :: PublishedOf(Exec(p, es).published, cid) != PublishedOf(p.published, cid)
  {
    var before := PublishedOf(p.published, cid);
    assert |before + Waiting(p, cid)| > |before|;
    if Stuck(p, cid) {
      forall es: seq<Event> ensures PublishedOf(Exec(p, es).published, cid) == before {
        StuckForever(p, cid, es);
      }
    } else {
      var es := CanDrain(p, cid);
      assert PublishedOf(Exec(p, es).published, cid) == before + Waiting(p, cid);
    }
  }

  /** And the code can reach it: a request whose client id another track carries in its SDP is parked, and the
      close of that track wakes only requests under the client id it was itself requested with. */
  lemma ParkedBySdpIsStuck()
    ensures exists es: seq<Event> :: Stuck(Exec(Init(), es), 2)
  {
    var es := [AddTrack(1, 10), MediaReceived(1, 2), AddTrack(2, 11), Unpublish(0)];
    FourSteps(Init(), es);
    PublishFirst();
    ParkSecond(Step(Step(Init(), AddTrack(1, 10)), MediaReceived(1, 2)));
  }

  lemma PublishFirst()
    ensures
      var p := Step(Step(Init(), AddTrack(1, 10)), MediaReceived(1, 2));
      p.open == [Track(1, 2, Pending(10, 0))] && p.pending == map[] && p.closing == [] && 11 !in p.usedSids
  {
    var p1 := Step(Init(), AddTrack(1, 10));
    assert p1.pending == map[1 := Entry([Pending(10, 0)], false)];
  }

  lemma ParkSecond(p: Publisher)
    requires p.open == [Track(1, 2, Pending(10, 0))] && p.pending == map[] && p.closing == [] && 11 !in p.usedSids
    ensures Stuck(Step(Step(p, AddTrack(2, 11)), Unpublish(0)), 2)
  {
    assert p.open[0] in p.open;
    var p1 := Step(p, AddTrack(2, 11));
    assert 2 in p1.pending && p1.pending[2].queued;
    assert Step(p1, Unpublish(0)).open == [];
  }

  // ---------------------------------------------------------------------------------------------------------
  // The imperative code
  // ---------------------------------------------------------------------------------------------------------

  class PublishingParticipant {
    var pendingTracks: map<Cid, Entry>
    var publishedTracks: seq<Track>
    var closing: seq<Cid>
    ghost var requested: seq<Cid>
    ghost var published: seq<Track>
    ghost var usedSids: set<Sid>
    ghost var parkedBySdp: set<Cid>

    ghost function View(): Publisher
      reads this
    {
      Publisher(pendingTracks, publishedTracks, closing, requested, published, usedSids, parkedBySdp)
    }

    constructor ()
      ensures View() == Init()
    {
      pendingTracks, publishedTracks, closing := map[], [], [];
      requested, published, usedSids, parkedBySdp := [], [], {}, {};
    }

    method SetTrackID(cid: Cid, freshSid: Sid) returns (sid: Sid)
      ensures sid == TrackIDFor(View(), cid, freshSid)
    {
      if cid in pendingTracks && |pendingTracks[cid].infos| > 0 {
        return pendingTracks[cid].infos[0].sid;
      }
      return freshSid;
    }

    /** Whether a published track answers to the client id, by its signal or its SDP id. */
    method HasPublished(cid: Cid) returns (found: bool)
      ensures found == (OpenFrom(View(), cid) || OpenBySdp(View(), cid))
    {
      for i := 0 to |publishedTracks|
        invariant forall j :: 0 <= j < i ==> publishedTracks[j].cid != cid && publishedTracks[j].sdpCid != cid
      {
        if publishedTracks[i].cid == cid || publishedTracks[i].sdpCid == cid {
          return true;
        }
      }
      return false;
    }

    /** `request` is the number of the request; returns whether it was queued rather than acknowledged at once. */
    method AddPendingTrack(cid: Cid, request: nat, freshSid: Sid) returns (queued: bool)
      requires request == |requested|
      modifies this
      ensures View() == Add(old(View()), cid, freshSid)
      ensures queued == (old(OpenFrom(View(), cid) || OpenBySdp(View(), cid)) || cid in old(pendingTracks))
    {
      var sid := SetTrackID(cid, freshSid);
      var publishedAlready := HasPublished(cid);
      ghost var p' := Add(View(), cid, freshSid);
      if publishedAlready || cid in pendingTracks {
        if cid !in pendingTracks {
          pendingTracks := pendingTracks[cid := Entry([Pending(sid, request)], true)];
        } else {
          var entry := pendingTracks[cid];
          pendingTracks := pendingTracks[cid := entry.(infos := entry.infos + [Pending(sid, request)])];
        }
        queued := true;
      } else {
        pendingTracks := pendingTracks[cid := Entry([Pending(sid, request)], false)];
        queued := false;
      }
      requested, usedSids, parkedBySdp := p'.requested, p'.usedSids, p'.parkedBySdp;
    }

    /** The head of the client id's entry becomes a published track. */
    method AddMediaTrack(cid: Cid, sdpCid: Cid)
      requires cid in pendingTracks && pendingTracks[cid].infos != []
      modifies this
      ensures View() == Publish(old(View()), cid, sdpCid)
    {
      var track := Track(cid, sdpCid, pendingTracks[cid].infos[0]);
      publishedTracks := publishedTracks + [track];
      published := published + [track];
      parkedBySdp := parkedBySdp - {cid};
      pendingTracks := pendingTracks[cid := pendingTracks[cid].(infos := pendingTracks[cid].infos[1..])];
      if |pendingTracks[cid].infos| == 0 {
        pendingTracks := pendingTracks - {cid};
        assert pendingTracks == old(pendingTracks) - {cid};
      } else {
        pendingTracks := pendingTracks[cid := pendingTracks[cid].(queued := true)];
      }
    }

    /** mediaTrackReceived; `scanned` is what the scan for a client id of the media's kind would yield. */
    method MediaTrackReceived(scanned: Cid, sdpCid: Cid) returns (isNew: bool)
      requires QueueOk(View())
      modifies this
      ensures
        var cid := if sdpCid in old(pendingTracks) then sdpCid else scanned;
        && isNew == TakesMedia(old(View()), cid, sdpCid)
        && View() == Step(old(View()), MediaReceived(cid, sdpCid))
    {
      var found := HasPublished(sdpCid);
      if found {
        return false;
      }
      var signalCid := scanned;
      if sdpCid in pendingTracks {
        signalCid := sdpCid;
      }
      if signalCid !in pendingTracks || pendingTracks[signalCid].queued {
        return false;
      }
      AddMediaTrack(signalCid, sdpCid);
      return true;
    }

    /** The close callback of addMediaTrack; the head of a woken entry is announced to the client. */
    method OnTrackClosed(i: nat) returns (announced: Option<Pending>)
      requires QueueOk(View()) && i < |closing|
      modifies this
      ensures View() == Step(old(View()), CloseCallback(i))
      ensures announced
           == if old(closing[i]) in pendingTracks then Some(pendingTracks[old(closing[i])].infos[0]) else None
    {
      var cid := closing[i];
      announced := None;
      if cid in pendingTracks {
        announced := Some(pendingTracks[cid].infos[0]);
        pendingTracks := pendingTracks[cid := pendingTracks[cid].(queued := false)];
      }
      closing := closing[..i] + closing[i + 1..];
      parkedBySdp := parkedBySdp - {cid};
    }
  }
}
