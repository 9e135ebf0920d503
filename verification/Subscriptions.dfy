/** The subscription reconciler of pkg/rtc/subscriptionmanager.go in its asynchronous mode: desired state driven
    against actual state, with counters, limits, an index by publisher and status events. */
module Subscriptions {
  import opened Wrappers

  type TrackID = nat
  type PublisherID = nat

  datatype Kind = Video | Audio

  /** A mediaTrackSubscription. `live` is the kind of its subscribed track, if it has one; `kind` the kind first
      resolved; `removing` whether an unsubscribe was started for the live track. */
  datatype Sub = Sub(
    desired: bool, publisher: PublisherID, kind: Option<Kind>, live: Option<Kind>, bound: bool, removing: bool)

  const NewSub := Sub(false, 0, None, None, false, false)

  predicate NeedsSubscribe(s: Sub) { s.desired && s.live.None? }
  predicate NeedsUnsubscribe(s: Sub) { !s.desired && s.live.Some? }
  predicate NeedsCleanup(s: Sub) { !s.desired && s.live.None? }
  predicate Settled(s: Sub) { s.desired && s.live.Some? && s.bound }

  /** One call of onSubscribeStatusChanged. */
  datatype Status = Status(publisher: PublisherID, subscribed: bool)

  datatype Manager = Manager(
    limitVideo: int, limitAudio: int, subs: map<TrackID, Sub>, videoCount: int, audioCount: int,
    subscribedTo: map<PublisherID, set<TrackID>>, statuses: seq<Status>, pendingUnsubscribes: nat)

  function Init(limitVideo: int, limitAudio: int): Manager {
    Manager(limitVideo, limitAudio, map[], 0, 0, map[], [], 0)
  }

  function Limit(m: Manager, kind: Kind): int { if kind.Video? then m.limitVideo else m.limitAudio }
  function Count(m: Manager, kind: Kind): int { if kind.Video? then m.videoCount else m.audioCount }

  function AddCount(m: Manager, kind: Kind, d: int): Manager {
    if kind.Video? then m.(videoCount := m.videoCount + d) else m.(audioCount := m.audioCount + d)
  }

  predicate HasCapacity(m: Manager, kind: Kind) { !(Limit(m, kind) > 0 && Count(m, kind) >= Limit(m, kind)) }

  // ---------------------------------------------------------------------------------------------------------
  // Operations
  // ---------------------------------------------------------------------------------------------------------

  function Mark(m: Manager, p: PublisherID, t: TrackID): Manager {
    if p in m.subscribedTo then m.(subscribedTo := m.subscribedTo[p := m.subscribedTo[p] + {t}])
    else m.(subscribedTo := m.subscribedTo[p := {t}], statuses := m.statuses + [Status(p, true)])
  }

  function Unmark(m: Manager, p: PublisherID, t: TrackID): Manager {
    if p !in m.subscribedTo then m
    else if m.subscribedTo[p] - {t} == {} then
      m.(subscribedTo := m.subscribedTo - {p}, statuses := m.statuses + [Status(p, false)])
    else m.(subscribedTo := m.subscribedTo[p := m.subscribedTo[p] - {t}])
  }

  /** What the environment answers during one subscribe attempt: the participant's permission, the resolved track
      (publisher, kind, permission), whether AddSubscriber succeeds, and whether notFoundTimeout has passed. */
  datatype Attempt = Attempt(canSubscribe: bool, track: Option<Resolved>, added: bool, notFoundTooLong: bool)
  datatype Resolved = Resolved(publisher: PublisherID, kind: Kind, hasPermission: bool)

  function PutSub(m: Manager, t: TrackID, s: Sub): Manager { m.(subs := m.subs[t := s]) }

  /** The part of subscribe after the track was resolved, with addSubscriber and markSubscribedTo. */
  function SubscribeTo(m: Manager, t: TrackID, r: Resolved, added: bool): Manager
    requires t in m.subs
  {
    var s := m.subs[t];
    var s1 := if s.kind.None? then s.(kind := Some(r.kind)) else s;
    if !HasCapacity(m, r.kind) then PutSub(m, t, s1)
    else
      var s2 := s1.(publisher := r.publisher);
      if !r.hasPermission || !added then PutSub(m, t, s2)
      else
        var s3 := s2.(live := Some(r.kind), bound := false, removing := false);
        Mark(AddCount(PutSub(m, t, s3), r.kind, 1), r.publisher, t)
  }

  /** subscribe, and the only error that changes the desired state. */
  function Subscribe(m: Manager, t: TrackID, a: Attempt): Manager
    requires t in m.subs
  {
    var s := m.subs[t];
    if !a.canSubscribe then m
    else if s.kind.Some? && !HasCapacity(m, s.kind.value) then m
    else if a.track.None? then (if a.notFoundTooLong then PutSub(m, t, s.(desired := false)) else m)
    else SubscribeTo(m, t, a.track.value, a.added)
  }

  /** reconcileSubscription; `defer` says that the wait for pending unsubscribes has not run out. */
  function Reconcile(m: Manager, t: TrackID, a: Attempt, defer: bool): Manager
    requires t in m.subs
  {
    var s := m.subs[t];
    if NeedsSubscribe(s) then (if m.pendingUnsubscribes != 0 && defer then m else Subscribe(m, t, a))
    else if NeedsUnsubscribe(s) then
      PutSub(m, t, s.(removing := true)).(pendingUnsubscribes := m.pendingUnsubscribes + 1)
    else if NeedsCleanup(s) then m.(subs := m.subs - {t})
    else m
  }

  /** handleSubscribedTrackClose. */
  function Close(m: Manager, t: TrackID): Manager
    requires t in m.subs
  {
    var s := m.subs[t];
    if s.live.None? then m
    else
      var s' := s.(live := None, bound := false, removing := false);
      Unmark(AddCount(PutSub(m, t, s'), s.live.value, -1), s.publisher, t)
  }

  /** Events are the locked regions; SubscribeToTrack is SetDesired, then (for an unknown track) Insert and
      SetDesired again. Events about an unknown track change nothing. */
  datatype Event =
    | Insert(t: TrackID)
    | SetDesired(t: TrackID, desired: bool)
    | ReconcileOne(t: TrackID, a: Attempt, defer: bool)
    | TrackClosed(t: TrackID)
    | Bound(t: TrackID)
    | RemoveFinished

  function Step(m: Manager, e: Event): Manager {
    match e
    case Insert(t) => PutSub(m, t, NewSub)
    case SetDesired(t, d) => if t in m.subs then PutSub(m, t, m.subs[t].(desired := d)) else m
    case ReconcileOne(t, a, defer) => if t in m.subs then Reconcile(m, t, a, defer) else m
    case TrackClosed(t) => if t in m.subs then Close(m, t) else m
    case Bound(t) => if t in m.subs && m.subs[t].live.Some? then PutSub(m, t, m.subs[t].(bound := true)) else m
    case RemoveFinished => if m.pendingUnsubscribes > 0 then m.(pendingUnsubscribes := m.pendingUnsubscribes - 1) else m
  }

  function Exec(m: Manager, es: seq<Event>): Manager {
    if es == [] then m else Step(Exec(m, es[..|es| - 1]), es[|es| - 1])
  }

  // ---------------------------------------------------------------------------------------------------------
  // Invariants
  // ---------------------------------------------------------------------------------------------------------

  /** The subscriptions holding a live track of a kind, and those of a publisher. */
  function LiveOf(subs: map<TrackID, Sub>, kind: Kind): set<TrackID> {
    set t | t in subs && subs[t].live == Some(kind)
  }

  function LiveFrom(subs: map<TrackID, Sub>, p: PublisherID): set<TrackID> {
    set t | t in subs && subs[t].live.Some? && subs[t].publisher == p
  }

  ghost predicate CountsOk(m: Manager) {
    forall k: Kind :: Count(m, k) == |LiveOf(m.subs, k)| && (Limit(m, k) > 0 ==> Count(m, k) <= Limit(m, k))
  }

  ghost predicate IndexOk(m: Manager) {
    forall p: PublisherID ::
      && (p in m.subscribedTo <==> LiveFrom(m.subs, p) != {})
      && (p in m.subscribedTo ==> m.subscribedTo[p] == LiveFrom(m.subs, p))
  }

  /** The last status reported about a publisher. */
  function LastStatus(statuses: seq<Status>, p: PublisherID): bool {
    if statuses == [] then false
    else if statuses[|statuses| - 1].publisher == p then statuses[|statuses| - 1].subscribed
    else LastStatus(statuses[..|statuses| - 1], p)
  }

  /** Every status differs from the one before it for the same publisher, starting with subscribed. */
  ghost predicate Alternates(statuses: seq<Status>) {
    forall i :: 0 <= i < |statuses| ==> statuses[i].subscribed != LastStatus(statuses[..i], statuses[i].publisher)
  }

  ghost predicate StatusOk(m: Manager) {
    Alternates(m.statuses) && forall p: PublisherID :: LastStatus(m.statuses, p) <==> p in m.subscribedTo
  }

  ghost predicate Inv(m: Manager) { CountsOk(m) && IndexOk(m) && StatusOk(m) }

  /** An insert never overwrites a subscription that holds a live track. */
  ghost predicate SafeInsert(m: Manager, e: Event) {
    e.Insert? ==> e.t !in m.subs || m.subs[e.t].live.None?
  }

  lemma LiveOfPut(subs: map<TrackID, Sub>, t: TrackID, s: Sub, k: Kind)
    ensures LiveOf(subs[t := s], k) == (if s.live == Some(k) then LiveOf(subs, k) + {t} else LiveOf(subs, k) - {t})
    ensures t in LiveOf(subs, k) <==> t in subs && subs[t].live == Some(k)
  {
  }

  lemma LiveFromPut(subs: map<TrackID, Sub>, t: TrackID, s: Sub, p: PublisherID)
    ensures LiveFrom(subs[t := s], p)
         == (if s.live.Some? && s.publisher == p then LiveFrom(subs, p) + {t} else LiveFrom(subs, p) - {t})
    ensures t in LiveFrom(subs, p) <==> t in subs && subs[t].live.Some? && subs[t].publisher == p
  {
  }

  /** Replacing a subscription without touching its live track, or cleaning up one without, keeps everything. */
  lemma QuietPutKeeps(m: Manager, t: TrackID, s: Sub, pending: nat)
    requires Inv(m)
    requires if t in m.subs then s.live == m.subs[t].live && (s.live.Some? ==> s.publisher == m.subs[t].publisher)
             else s.live.None?
    ensures Inv(PutSub(m, t, s).(pendingUnsubscribes := pending))
  {
    var m' := PutSub(m, t, s).(pendingUnsubscribes := pending);
    forall k: Kind ensures LiveOf(m'.subs, k) == LiveOf(m.subs, k) {
      LiveOfPut(m.subs, t, s, k);
    }
    forall p: PublisherID ensures LiveFrom(m'.subs, p) == LiveFrom(m.subs, p) {
      LiveFromPut(m.subs, t, s, p);
    }
  }

  lemma CleanupKeeps(m: Manager, t: TrackID)
    requires Inv(m) && t in m.subs && m.subs[t].live.None?
    ensures Inv(m.(subs := m.subs - {t}))
  {
    forall k: Kind ensures LiveOf(m.subs - {t}, k) == LiveOf(m.subs, k) {
    }
    forall p: PublisherID ensures LiveFrom(m.subs - {t}, p) == LiveFrom(m.subs, p) {
    }
  }

  lemma LastStatusSnoc(statuses: seq<Status>, s: Status, p: PublisherID)
    ensures LastStatus(statuses + [s], p) == if s.publisher == p then s.subscribed else LastStatus(statuses, p)
  {
    assert (statuses + [s])[..|statuses|] == statuses;
  }

  lemma AlternatesSnoc(statuses: seq<Status>, s: Status)
    requires Alternates(statuses) && s.subscribed != LastStatus(statuses, s.publisher)
    ensures Alternates(statuses + [s])
  {
    forall i | 0 <= i < |statuses| + 1
      ensures (statuses + [s])[i].subscribed != LastStatus((statuses + [s])[..i], (statuses + [s])[i].publisher)
    {
      assert (statuses + [s])[..i] == statuses[..i];
      assert statuses[..|statuses|] == statuses;
    }
  }

  lemma ReportKeepsStatus(m: Manager, p: PublisherID, b: bool, subscribedTo: map<PublisherID, set<TrackID>>)
    requires StatusOk(m) && b == (p !in m.subscribedTo) && b == (p in subscribedTo)
    requires forall q: PublisherID :: q != p ==> (q in subscribedTo <==> q in m.subscribedTo)
    ensures StatusOk(m.(subscribedTo := subscribedTo, statuses := m.statuses + [Status(p, b)]))
  {
    AlternatesSnoc(m.statuses, Status(p, b));
    forall q: PublisherID ensures LastStatus(m.statuses + [Status(p, b)], q) <==> q in subscribedTo {
      LastStatusSnoc(m.statuses, Status(p, b), q);
      assert LastStatus(m.statuses, q) <==> q in m.subscribedTo;
    }
  }

  lemma MarkKeepsStatus(m: Manager, p: PublisherID, t: TrackID)
    requires StatusOk(m)
    ensures StatusOk(Mark(m, p, t)) && StatusOk(Unmark(m, p, t))
  {
    assert LastStatus(m.statuses, p) <==> p in m.subscribedTo;
    if p in m.subscribedTo {
      ReportKeepsStatus(m, p, false, m.subscribedTo - {p});
    } else {
      ReportKeepsStatus(m, p, true, m.subscribedTo[p := {t}]);
    }
  }

  /** Adding a live track of `p` and marking it, or removing one and unmarking it, keeps the index. */
  lemma MarkKeepsIndex(before: map<TrackID, Sub>, m: Manager, p: PublisherID, t: TrackID)
    requires IndexOk(m.(subs := before))
    requires forall q: PublisherID :: LiveFrom(m.subs, q) == LiveFrom(before, q) + (if q == p then {t} else {})
    ensures IndexOk(Mark(m, p, t))
  {
    var m' := Mark(m, p, t);
    forall q: PublisherID
      ensures (q in m'.subscribedTo <==> LiveFrom(m'.subs, q) != {})
           && (q in m'.subscribedTo ==> m'.subscribedTo[q] == LiveFrom(m'.subs, q))
    {
      assert q in m.(subs := before).subscribedTo <==> LiveFrom(before, q) != {};
      assert q == p ==> t in LiveFrom(m.subs, q);
    }
  }

  lemma UnmarkKeepsIndex(before: map<TrackID, Sub>, m: Manager, p: PublisherID, t: TrackID)
    requires IndexOk(m.(subs := before)) && t in LiveFrom(before, p)
    requires forall q: PublisherID :: LiveFrom(m.subs, q) == LiveFrom(before, q) - (if q == p then {t} else {})
    ensures IndexOk(Unmark(m, p, t))
  {
    var m' := Unmark(m, p, t);
    forall q: PublisherID
      ensures (q in m'.subscribedTo <==> LiveFrom(m'.subs, q) != {})
           && (q in m'.subscribedTo ==> m'.subscribedTo[q] == LiveFrom(m'.subs, q))
    {
      assert q in m.(subs := before).subscribedTo <==> LiveFrom(before, q) != {};
    }
  }

  lemma GoLiveKeepsCounts(m: Manager, t: TrackID, s: Sub, kind: Kind)
    requires CountsOk(m) && t in m.subs && m.subs[t].live.None? && s.live == Some(kind) && HasCapacity(m, kind)
    ensures CountsOk(AddCount(PutSub(m, t, s), kind, 1))
  {
    var m1 := AddCount(PutSub(m, t, s), kind, 1);
    forall k: Kind ensures |LiveOf(m1.subs, k)| == |LiveOf(m.subs, k)| + (if k == kind then 1 else 0) {
      LiveOfPut(m.subs, t, s, k);
      assert k != kind ==> LiveOf(m1.subs, k) == LiveOf(m.subs, k);
    }
  }

  lemma GoLiveKeepsIndex(m: Manager, t: TrackID, s: Sub, kind: Kind)
    requires IndexOk(m) && t in m.subs && m.subs[t].live.None? && s.live == Some(kind)
    ensures IndexOk(Mark(AddCount(PutSub(m, t, s), kind, 1), s.publisher, t))
  {
    var m1 := AddCount(PutSub(m, t, s), kind, 1);
    forall p: PublisherID
      ensures LiveFrom(m1.subs, p) == LiveFrom(m.subs, p) + (if p == s.publisher then {t} else {})
    {
      LiveFromPut(m.subs, t, s, p);
    }
    assert IndexOk(m1.(subs := m.subs));
    MarkKeepsIndex(m.subs, m1, s.publisher, t);
  }

  lemma GoLiveKeeps(m: Manager, t: TrackID, s: Sub, kind: Kind)
    requires Inv(m) && t in m.subs && m.subs[t].live.None? && s.live == Some(kind) && HasCapacity(m, kind)
    ensures Inv(Mark(AddCount(PutSub(m, t, s), kind, 1), s.publisher, t))
  {
    GoLiveKeepsCounts(m, t, s, kind);
    GoLiveKeepsIndex(m, t, s, kind);
    MarkKeepsStatus(AddCount(PutSub(m, t, s), kind, 1), s.publisher, t);
  }

  lemma CloseKeepsCounts(m: Manager, t: TrackID)
    requires CountsOk(m) && t in m.subs && m.subs[t].live.Some?
    ensures CountsOk(Close(m, t))
  {
    var kind, s' := m.subs[t].live.value, m.subs[t].(live := None, bound := false, removing := false);
    var m1 := AddCount(PutSub(m, t, s'), kind, -1);
    forall k: Kind ensures |LiveOf(m1.subs, k)| == |LiveOf(m.subs, k)| - (if k == kind then 1 else 0) {
      LiveOfPut(m.subs, t, s', k);
      assert k != kind ==> LiveOf(m1.subs, k) == LiveOf(m.subs, k);
    }
    assert CountsOk(m1);
  }

  lemma CloseKeeps(m: Manager, t: TrackID)
    requires Inv(m) && t in m.subs && m.subs[t].live.Some?
    ensures Inv(Close(m, t))
  {
    var s := m.subs[t];
    var s' := s.(live := None, bound := false, removing := false);
    var m1 := AddCount(PutSub(m, t, s'), s.live.value, -1);
    CloseKeepsCounts(m, t);
    forall p: PublisherID ensures LiveFrom(m1.subs, p) == LiveFrom(m.subs, p) - (if p == s.publisher then {t} else {}) {
      LiveFromPut(m.subs, t, s', p);
    }
    LiveFromPut(m.subs, t, s', s.publisher);
    assert IndexOk(m1.(subs := m.subs));
    UnmarkKeepsIndex(m.subs, m1, s.publisher, t);
    MarkKeepsStatus(m1, s.publisher, t);
  }

  lemma StepKeepsInv(m: Manager, e: Event)
    requires Inv(m) && SafeInsert(m, e)
    ensures Inv(Step(m, e))
  {
    match e
    case Insert(t) => QuietPutKeeps(m, t, NewSub, m.pendingUnsubscribes);
    case SetDesired(t, d) =>
      if t in m.subs { QuietPutKeeps(m, t, m.subs[t].(desired := d), m.pendingUnsubscribes); }
    case ReconcileOne(t, a, defer) => if t in m.subs { ReconcileKeeps(m, t, a, defer); }
    case TrackClosed(t) => if t in m.subs && m.subs[t].live.Some? { CloseKeeps(m, t); }
    case Bound(t) =>
      if t in m.subs && m.subs[t].live.Some? { QuietPutKeeps(m, t, m.subs[t].(bound := true), m.pendingUnsubscribes); }
    case RemoveFinished =>
  }

  lemma ReconcileKeeps(m: Manager, t: TrackID, a: Attempt, defer: bool)
    requires Inv(m) && t in m.subs
    ensures Inv(Reconcile(m, t, a, defer))
  {
    var s := m.subs[t];
    if NeedsSubscribe(s) {
      SubscribeKeeps(m, t, a);
    } else if NeedsUnsubscribe(s) {
      QuietPutKeeps(m, t, s.(removing := true), m.pendingUnsubscribes + 1);
    } else if NeedsCleanup(s) {
      CleanupKeeps(m, t);
    }
  }

  lemma SubscribeKeeps(m: Manager, t: TrackID, a: Attempt)
    requires Inv(m) && t in m.subs && m.subs[t].live.None?
    ensures Inv(Subscribe(m, t, a))
  {
    var s, m' := m.subs[t], Subscribe(m, t, a);
    if m'.subs[t].live.None? {
      assert m.subs[t := s] == m.subs;
      assert m' == PutSub(m, t, m'.subs[t]).(pendingUnsubscribes := m.pendingUnsubscribes);
      QuietPutKeeps(m, t, m'.subs[t], m.pendingUnsubscribes);
    } else {
      GoLiveKeeps(m, t, m'.subs[t], a.track.value.kind);
    }
  }

  /** Inserts are safe along a run. */
  ghost predicate SafeInserts(m: Manager, es: seq<Event>) {
    forall i :: 0 <= i < |es| ==> SafeInsert(Exec(m, es[..i]), es[i])
  }

  lemma InitInv(limitVideo: int, limitAudio: int)
    ensures Inv(Init(limitVideo, limitAudio))
  {
    var m := Init(limitVideo, limitAudio);
    forall k: Kind ensures LiveOf(m.subs, k) == {} {
    }
    forall p: PublisherID ensures LiveFrom(m.subs, p) == {} {
    }
  }

  /** In every reachable state: the counters are the numbers of subscriptions with a live track of each kind and
      stay within a positive limit, the index holds exactly the live tracks grouped by publisher with no empty
      group, and the statuses of each publisher alternate and end on whether it is in the index. */
  lemma {:induction false} ReachableInv(limitVideo: int, limitAudio: int, es: seq<Event>)
    requires SafeInserts(Init(limitVideo, limitAudio), es)
    ensures Inv(Exec(Init(limitVideo, limitAudio), es))
  {
    if es == [] {
      InitInv(limitVideo, limitAudio);
    } else {
      var init := es[..|es| - 1];
      assert forall i :: 0 <= i < |init| ==> init[..i] == es[..i] && init[i] == es[i];
      ReachableInv(limitVideo, limitAudio, init);
      StepKeepsInv(Exec(Init(limitVideo, limitAudio), init), es[|es| - 1]);
    }
  }

  /** The condition on inserts is exact: SubscribeToTrack checks and inserts in separate locked regions, and an
      insert keeps the counters right if and only if what it overwrites holds no live track. */
  lemma InsertKeepsCountsIff(m: Manager, t: TrackID)
    requires Inv(m)
    ensures CountsOk(Step(m, Insert(t))) <==> SafeInsert(m, Insert(t))
  {
    if t in m.subs && m.subs[t].live.Some? {
      var k := m.subs[t].live.value;
      LiveOfPut(m.subs, t, NewSub, k);
      assert |LiveOf(m.subs, k) - {t}| == |LiveOf(m.subs, k)| - 1;
      assert Count(Step(m, Insert(t)), k) == Count(m, k);
    } else {
      QuietPutKeeps(m, t, NewSub, m.pendingUnsubscribes);
    }
  }

  lemma ExecSnoc(m: Manager, es: seq<Event>, e: Event)
    ensures Exec(m, es + [e]) == Step(Exec(m, es), e)
  {
    assert (es + [e])[..|es|] == es;
  }

  /** A run reaches such a state under any limits: two requests for one unknown track both find it unknown, the
      first inserts, is desired and subscribed, then the second inserts. */
  lemma UnsafeInsertIsReached(limitVideo: int, limitAudio: int, t: TrackID, a: Attempt)
    requires a.canSubscribe && a.track.Some? && a.track.value.hasPermission && a.added
    ensures
      var m := Exec(Init(limitVideo, limitAudio), [Insert(t), SetDesired(t, true), ReconcileOne(t, a, false)]);
      Inv(m) && !SafeInsert(m, Insert(t)) && !CountsOk(Step(m, Insert(t)))
  {
    var m0, r := Init(limitVideo, limitAudio), a.track.value;
    var es := [Insert(t), SetDesired(t, true), ReconcileOne(t, a, false)];
    var m1 := Step(m0, es[0]);
    var m2 := Step(m1, es[1]);
    assert m2.subs[t].desired && m2.subs[t].live.None? && HasCapacity(m2, r.kind);
    ThreeSteps(m0, es);
    InitInv(limitVideo, limitAudio);
    StepKeepsInv(m0, es[0]);
    StepKeepsInv(m1, es[1]);
    StepKeepsInv(m2, es[2]);
    InsertKeepsCountsIff(Exec(m0, es), t);
  }

  lemma ThreeSteps(m: Manager, es: seq<Event>)
    requires |es| == 3
    ensures Exec(m, es) == Step(Step(Step(m, es[0]), es[1]), es[2])
  {
    var e0, e1, e2 := es[0], es[1], es[2];
    ExecSnoc(m, [], e0);
    ExecSnoc(m, [e0], e1);
    ExecSnoc(m, [e0, e1], e2);
    assert [] + [e0] == [e0] && [e0] + [e1] == [e0, e1] && [e0, e1] + [e2] == es;
  }

  /** The event reconciles `t` while its subscription is neither desired nor live. */
  predicate CleansUp(m: Manager, e: Event, t: TrackID) {
    e.ReconcileOne? && e.t == t && t in m.subs && !m.subs[t].desired && m.subs[t].live == None
  }

  ghost predicate CleanedUpAt(m: Manager, es: seq<Event>, i: nat, t: TrackID) {
    i < |es| && CleansUp(Exec(m, es[..i]), es[i], t) && forall j :: i < j < |es| ==> es[j] != Insert(t)
  }

  /** Some event of the list cleans `t` up, and none inserts it again after that. */
  ghost predicate CleanedUp(m: Manager, es: seq<Event>, t: TrackID) { exists i :: CleanedUpAt(m, es, i, t) }

  /** An event on a known track touches no other subscription, and keeps its own in the map unless it cleans up. */
  lemma SubscribeKeepsOthers(m: Manager, u: TrackID, a: Attempt)
    requires u in m.subs
    ensures var subs := Subscribe(m, u, a).subs; u in subs && subs == m.subs[u := subs[u]]
  {
    assert m.subs[u := m.subs[u]] == m.subs;
  }

  lemma ReconcileKeepsOthers(m: Manager, u: TrackID, a: Attempt, defer: bool)
    requires u in m.subs
    ensures
      var subs := Reconcile(m, u, a, defer).subs;
      if NeedsCleanup(m.subs[u]) then subs == m.subs - {u} else u in subs && subs == m.subs[u := subs[u]]
  {
    SubscribeKeepsOthers(m, u, a);
    assert m.subs[u := m.subs[u]] == m.subs;
  }

  lemma CloseKeepsOthers(m: Manager, u: TrackID)
    requires u in m.subs
    ensures var subs := Close(m, u).subs; u in subs && subs == m.subs[u := subs[u]]
  {
    assert m.subs[u := m.subs[u]] == m.subs;
  }

  /** Only a clean-up takes a subscription out of the map, and only an insert puts one in. */
  lemma StepKeepsPresence(m: Manager, e: Event, t: TrackID)
    ensures t in Step(m, e).subs <==> e == Insert(t) || (t in m.subs && !CleansUp(m, e, t))
  {
    match e
    case ReconcileOne(u, a, defer) => if u in m.subs { ReconcileKeepsOthers(m, u, a, defer); }
    case TrackClosed(u) => if u in m.subs { CloseKeepsOthers(m, u); }
    case Insert(_) =>
    case SetDesired(_, _) =>
    case Bound(_) =>
    case RemoveFinished =>
  }

  lemma CleanedUpAtSnoc(m: Manager, es: seq<Event>, i: nat, t: TrackID)
    requires i < |es|
    ensures
      var init, e := es[..|es| - 1], es[|es| - 1];
      CleanedUpAt(m, es, i, t)
      <==> if i == |es| - 1 then CleansUp(Exec(m, init), e, t) else CleanedUpAt(m, init, i, t) && e != Insert(t)
  {
    var n := |es| - 1;
    if i < n {
      assert es[..n][..i] == es[..i];
      assert forall j :: 0 <= j < n ==> es[..n][j] == es[j];
    }
  }

  lemma CleanedUpSnoc(m: Manager, es: seq<Event>, t: TrackID)
    requires es != []
    ensures
      var init, e := es[..|es| - 1], es[|es| - 1];
      CleanedUp(m, es, t) <==> CleansUp(Exec(m, init), e, t) || (CleanedUp(m, init, t) && e != Insert(t))
  {
    var n := |es| - 1;
    var init, e := es[..n], es[n];
    if CleanedUp(m, es, t) {
      var i :| CleanedUpAt(m, es, i, t);
      CleanedUpAtSnoc(m, es, i, t);
    }
    if CleansUp(Exec(m, init), e, t) {
      CleanedUpAtSnoc(m, es, n, t);
    } else if CleanedUp(m, init, t) && e != Insert(t) {
      var i :| CleanedUpAt(m, init, i, t);
      CleanedUpAtSnoc(m, es, i, t);
    }
  }

  lemma {:induction false} PresentUnlessCleanedUp(m: Manager, t: TrackID, es: seq<Event>)
    requires t in m.subs
    ensures t in Exec(m, es).subs <==> !CleanedUp(m, es, t)
  {
    if es != [] {
      PresentUnlessCleanedUp(m, t, es[..|es| - 1]);
      CleanedUpSnoc(m, es, t);
      StepKeepsPresence(Exec(m, es[..|es| - 1]), es[|es| - 1], t);
    }
  }

  /** The other race in those separate regions: whatever happens in between, other requests for the same track
      included, a request that inserted a fresh subscription takes effect at its last step if and only if no
      reconcile since the last insert met the subscription neither desired nor live; otherwise it is lost without a
      trace. */
  lemma RequestTakesEffectIff(m: Manager, t: TrackID, es: seq<Event>)
    ensures
      var m0 := Step(m, Insert(t));
      var m1 := Exec(m0, es);
      var m2 := Step(m1, SetDesired(t, true));
      if CleanedUp(m0, es, t) then t !in m2.subs && m2 == m1 else t in m2.subs && m2.subs[t].desired
  {
    PresentUnlessCleanedUp(Step(m, Insert(t)), t, es);
  }

  /** No event of the list inserts `t` or sets its desired flag. */
  predicate LeavesRequest(es: seq<Event>, t: TrackID) {
    forall i :: 0 <= i < |es| ==> es[i] != Insert(t) && !(es[i].SetDesired? && es[i].t == t)
  }

  predicate Reconciled(es: seq<Event>, t: TrackID) {
    exists i :: 0 <= i < |es| && es[i].ReconcileOne? && es[i].t == t
  }

  /** A fresh subscription stays as it is under every event but its own reconcile, which cleans it up. */
  lemma FreshStep(m: Manager, e: Event, t: TrackID)
    requires e != Insert(t) && !(e.SetDesired? && e.t == t)
    requires t in m.subs ==> m.subs[t] == NewSub
    ensures t in Step(m, e).subs ==> Step(m, e).subs[t] == NewSub
    ensures t in Step(m, e).subs <==> t in m.subs && !(e.ReconcileOne? && e.t == t)
  {
    StepKeepsPresence(m, e, t);
    match e
    case ReconcileOne(u, a, defer) => if u in m.subs { ReconcileKeepsOthers(m, u, a, defer); }
    case TrackClosed(u) => if u in m.subs && u != t { CloseKeepsOthers(m, u); }
    case Insert(_) =>
    case SetDesired(_, _) =>
    case Bound(_) =>
    case RemoveFinished =>
  }

  lemma {:induction false} FreshUnlessReconciled(m: Manager, t: TrackID, es: seq<Event>)
    requires LeavesRequest(es, t)
    ensures
      var subs := Exec(Step(m, Insert(t)), es).subs;
      if Reconciled(es, t) then t !in subs else t in subs && subs[t] == NewSub
  {
    if es != [] {
      var init, e := es[..|es| - 1], es[|es| - 1];
      assert forall i :: 0 <= i < |init| ==> init[i] == es[i];
      assert LeavesRequest(init, t);
      assert Reconciled(es, t) <==> Reconciled(init, t) || (e.ReconcileOne? && e.t == t) by {
        assert es[|es| - 1] == e;
      }
      FreshUnlessReconciled(m, t, init);
      FreshStep(Exec(Step(m, Insert(t)), init), e, t);
    }
  }

  /** For the only request for its track, every reconcile in between is such a one. */
  lemma LoneRequestTakesEffectIff(m: Manager, t: TrackID, es: seq<Event>)
    requires LeavesRequest(es, t)
    ensures CleanedUp(Step(m, Insert(t)), es, t) <==> Reconciled(es, t)
  {
    FreshUnlessReconciled(m, t, es);
    PresentUnlessCleanedUp(Step(m, Insert(t)), t, es);
  }

  // ---------------------------------------------------------------------------------------------------------
  // When a subscription gets, gives up, binds and loses its track
  // ---------------------------------------------------------------------------------------------------------

  /** A positive limit is not reached. */
  predicate Room(m: Manager, kind: Kind) {
    match kind
    case Video => m.limitVideo <= 0 || m.videoCount < m.limitVideo
    case Audio => m.limitAudio <= 0 || m.audioCount < m.limitAudio
  }

  /** A reconcile of a desired subscription without a track gets as far as resolving the track. */
  predicate Resolves(m: Manager, e: Event, t: TrackID) {
    && e.ReconcileOne? && e.t == t && t in m.subs && m.subs[t].live == None && m.subs[t].desired
    && !(m.pendingUnsubscribes > 0 && e.defer)
    && e.a.canSubscribe
    && (m.subs[t].kind.Some? ==> Room(m, m.subs[t].kind.value))
  }

  /** And past everything that stands between it and a live track. */
  predicate MayGoLive(m: Manager, e: Event, t: TrackID) {
    && Resolves(m, e, t)
    && e.a.track.Some? && Room(m, e.a.track.value.kind) && e.a.track.value.hasPermission && e.a.added
  }

  lemma OthersStay(m: Manager, e: Event, t: TrackID)
    requires !e.RemoveFinished? ==> e.t != t
    ensures t in Step(m, e).subs <==> t in m.subs
    ensures t in m.subs ==> Step(m, e).subs[t] == m.subs[t]
  {
    match e
    case ReconcileOne(u, a, defer) => if u in m.subs { ReconcileKeepsOthers(m, u, a, defer); }
    case TrackClosed(u) => if u in m.subs { CloseKeepsOthers(m, u); }
    case Insert(_) =>
    case SetDesired(_, _) =>
    case Bound(_) =>
    case RemoveFinished =>
  }

  lemma ReconcileGoesLive(m: Manager, t: TrackID, a: Attempt, defer: bool)
    requires t in m.subs && m.subs[t].live == None && m.subs[t].desired
    ensures
      var s, s' := m.subs[t], Reconcile(m, t, a, defer).subs[t];
      if MayGoLive(m, ReconcileOne(t, a, defer), t) then
        var r := a.track.value;
        s' == Sub(true, r.publisher, if s.kind == None then Some(r.kind) else s.kind, Some(r.kind), false, false)
      else s'.live == None
  {
  }

  /** A subscription without a live track gets one exactly when nothing stands in the way: of the kind and from the
      publisher resolved, not yet bound, keeping the kind resolved first. */
  lemma GoesLiveIff(m: Manager, e: Event, t: TrackID)
    requires t in m.subs ==> m.subs[t].live == None
    ensures t in Step(m, e).subs && Step(m, e).subs[t].live != None <==> MayGoLive(m, e, t)
    ensures MayGoLive(m, e, t) ==>
              var s, r := m.subs[t], e.a.track.value;
              Step(m, e).subs[t]
              == Sub(true, r.publisher, if s.kind == None then Some(r.kind) else s.kind, Some(r.kind), false, false)
  {
    if e.RemoveFinished? || e.t != t {
      OthersStay(m, e, t);
    } else if e.ReconcileOne? && t in m.subs && m.subs[t].desired {
      ReconcileGoesLive(m, t, e.a, e.defer);
    }
  }

  /** What a resolved track leaves on the subscription even if it does not go live: the kind resolved first, and its
      publisher unless a limit is reached. */
  lemma ResolveRecords(m: Manager, e: Event, t: TrackID)
    requires Resolves(m, e, t) && e.a.track.Some?
    ensures
      var s, s', r := m.subs[t], Step(m, e).subs[t], e.a.track.value;
      && t in Step(m, e).subs && s'.desired
      && s'.kind == (if s.kind == None then Some(r.kind) else s.kind)
      && s'.publisher == (if Room(m, r.kind) then r.publisher else s.publisher)
  {
    SubscribeToRecords(m, t, e.a.track.value, e.a.added);
  }

  lemma SubscribeToRecords(m: Manager, t: TrackID, r: Resolved, added: bool)
    requires t in m.subs
    ensures
      var s, subs := m.subs[t], SubscribeTo(m, t, r, added).subs;
      && t in subs && subs[t].desired == s.desired
      && subs[t].kind == (if s.kind == None then Some(r.kind) else s.kind)
      && subs[t].publisher == (if Room(m, r.kind) then r.publisher else s.publisher)
  {
    assert HasCapacity(m, r.kind) <==> Room(m, r.kind);
  }

  /** A desired subscription stops being desired exactly when that is asked for, when an insert replaces it, or when a
      reconcile resolves its track, finds none, and has waited too long. */
  lemma GivesUpIff(m: Manager, e: Event, t: TrackID)
    requires t in m.subs && m.subs[t].desired
    ensures t in Step(m, e).subs
    ensures !Step(m, e).subs[t].desired <==>
              || e == SetDesired(t, false) || e == Insert(t)
              || (Resolves(m, e, t) && e.a.track == None && e.a.notFoundTooLong)
  {
    if e.RemoveFinished? || e.t != t { OthersStay(m, e, t); }
  }

  /** A live track is lost exactly by its close, or by an insert over it; it becomes bound exactly by a bind event,
      and otherwise stays what it is. */
  lemma LosesTrackIff(m: Manager, e: Event, t: TrackID)
    requires t in m.subs && m.subs[t].live != None
    ensures t in Step(m, e).subs
    ensures Step(m, e).subs[t].live == (if e == TrackClosed(t) || e == Insert(t) then None else m.subs[t].live)
    ensures Step(m, e).subs[t].live != None ==>
              && Step(m, e).subs[t].publisher == m.subs[t].publisher
              && (Step(m, e).subs[t].bound <==> m.subs[t].bound || e == Bound(t))
  {
    if e.RemoveFinished? || e.t != t { OthersStay(m, e, t); }
  }

  /** Removing a subscriber starts exactly when a reconcile finds a live track no longer desired, and a wait for it
      ends exactly when it finishes. */
  lemma RemovalStartsIff(m: Manager, e: Event)
    ensures Step(m, e).pendingUnsubscribes ==
              if e.ReconcileOne? && e.t in m.subs && !m.subs[e.t].desired && m.subs[e.t].live != None
              then m.pendingUnsubscribes + 1
              else if e.RemoveFinished? && m.pendingUnsubscribes > 0 then m.pendingUnsubscribes - 1
              else m.pendingUnsubscribes
  {
  }

  // ---------------------------------------------------------------------------------------------------------
  // Convergence
  // ---------------------------------------------------------------------------------------------------------

  /** An event with the desired flags left alone, tracks resolvable and permitted, and tracks closing only when they
      are no longer desired. */
  predicate Cooperative(m: Manager, e: Event) {
    match e
    case ReconcileOne(_, a, _) => a.canSubscribe && a.track.Some? && a.track.value.hasPermission && a.added
    case TrackClosed(t) => t in m.subs ==> !m.subs[t].desired
    case Bound(_) => true
    case RemoveFinished => true
    case _ => false
  }

  function Cost(s: Sub): nat {
    if s.desired then (if s.live.None? then 2 else if !s.bound then 1 else 0)
    else if s.live.None? then 1
    else 2 + (if s.removing then 0 else 2) + (if s.bound then 0 else 1)
  }

  /** The work left, as a finite set that shrinks with every change. */
  function Work(subs: map<TrackID, Sub>): set<(TrackID, nat)> {
    set t, k | t in subs && 0 <= k < Cost(subs[t]) :: (t, k)
  }

  lemma PutShrinksWork(subs: map<TrackID, Sub>, t: TrackID, s: Sub)
    requires t in subs && Cost(s) < Cost(subs[t])
    ensures Work(subs[t := s]) < Work(subs)
  {
    assert (t, Cost(s)) in Work(subs) && (t, Cost(s)) !in Work(subs[t := s]);
  }

  lemma RemoveShrinksWork(subs: map<TrackID, Sub>, t: TrackID)
    requires t in subs && Cost(subs[t]) > 0
    ensures Work(subs - {t}) < Work(subs)
  {
    assert (t, 0) in Work(subs) && (t, 0) !in Work(subs - {t});
  }

  ghost predicate NoLimits(m: Manager) { m.limitVideo <= 0 && m.limitAudio <= 0 }

  function Wanted(subs: map<TrackID, Sub>): set<TrackID> { set t | t in subs && subs[t].desired }

  /** Every cooperative event that changes a subscription makes the work left strictly smaller, and none changes
      which tracks are desired. */
  lemma ChangeShrinksWork(m: Manager, e: Event)
    requires NoLimits(m) && Cooperative(m, e)
    ensures NoLimits(Step(m, e)) && Wanted(Step(m, e).subs) == Wanted(m.subs)
    ensures Step(m, e).subs != m.subs ==> Work(Step(m, e).subs) < Work(m.subs)
  {
    var m' := Step(m, e);
    CooperativeStep(m, e);
    if m'.subs != m.subs {
      var t := e.t;
      if t in m'.subs {
        assert m.subs[t := m.subs[t]] == m.subs;
        PutShrinksWork(m.subs, t, m'.subs[t]);
      } else {
        RemoveShrinksWork(m.subs, t);
      }
    }
  }

  /** A cooperative event changes at most its own subscription: it makes it cheaper or cleans it up. */
  lemma CooperativeStep(m: Manager, e: Event)
    requires NoLimits(m) && Cooperative(m, e)
    ensures
      var m' := Step(m, e);
      && NoLimits(m')
      && (m'.subs != m.subs ==>
            && !e.RemoveFinished? && e.t in m.subs
            && (if e.t in m'.subs then && m'.subs == m.subs[e.t := m'.subs[e.t]]
                                       && m'.subs[e.t].desired == m.subs[e.t].desired
                                       && (m'.subs[e.t] != m.subs[e.t] ==> Cost(m'.subs[e.t]) < Cost(m.subs[e.t]))
                else m'.subs == m.subs - {e.t} && !m.subs[e.t].desired))
  {
  }

  /** Nothing can change any more exactly when every subscription left is desired, live and bound. */
  lemma QuietIffSettled(m: Manager)
    requires NoLimits(m)
    ensures (forall e :: Cooperative(m, e) ==> Step(m, e).subs == m.subs) <==> forall t <- m.subs :: Settled(m.subs[t])
  {
    if forall t <- m.subs :: Settled(m.subs[t]) {
      forall e | Cooperative(m, e) ensures Step(m, e).subs == m.subs {
        if (e.ReconcileOne? || e.Bound? || e.TrackClosed?) && e.t in m.subs {
          assert m.subs[e.t := m.subs[e.t]] == m.subs;
        }
      }
    } else {
      var t :| t in m.subs && !Settled(m.subs[t]);
      UnsettledCanMove(m, t);
    }
  }

  function Helpful(s: Sub, t: TrackID): Event {
    if s.desired && s.live.Some? then Bound(t)
    else if NeedsUnsubscribe(s) then TrackClosed(t)
    else ReconcileOne(t, Attempt(true, Some(Resolved(0, Audio, true)), true, false), false)
  }

  lemma UnsettledCanMove(m: Manager, t: TrackID)
    requires NoLimits(m) && t in m.subs && !Settled(m.subs[t])
    ensures var e := Helpful(m.subs[t], t); Cooperative(m, e) && Step(m, e).subs != m.subs
  {
    var m' := Step(m, Helpful(m.subs[t], t));
    assert t !in m'.subs || m'.subs[t] != m.subs[t];
  }

  lemma {:induction false} SmallerSet<T>(a: set<T>, b: set<T>)
    requires a < b
    ensures |a| < |b|
  {
    var x :| x in b && x !in a;
    assert a <= b - {x};
    SubsetSize(a, b - {x});
  }

  lemma {:induction false} SubsetSize<T>(a: set<T>, b: set<T>)
    requires a <= b
    ensures |a| <= |b|
  {
    assert b == a + (b - a);
  }

  ghost predicate CooperativeRun(m: Manager, es: seq<Event>) {
    forall i :: 0 <= i < |es| ==> Cooperative(Exec(m, es[..i]), es[i])
  }

  /** How many events of a run change a subscription. */
  ghost function Changes(m: Manager, es: seq<Event>): nat {
    if es == [] then 0
    else
      var before := Exec(m, es[..|es| - 1]);
      Changes(m, es[..|es| - 1]) + (if Step(before, es[|es| - 1]).subs != before.subs then 1 else 0)
  }

  /** No cooperative run changes subscriptions forever: the changes are bounded by the work at the start. */
  lemma {:induction false} ChangesAreBounded(m: Manager, es: seq<Event>)
    requires NoLimits(m) && CooperativeRun(m, es)
    ensures NoLimits(Exec(m, es)) && Wanted(Exec(m, es).subs) == Wanted(m.subs)
    ensures Changes(m, es) + |Work(Exec(m, es).subs)| <= |Work(m.subs)|
  {
    if es != [] {
      var init := es[..|es| - 1];
      assert forall i :: 0 <= i < |init| ==> init[..i] == es[..i] && init[i] == es[i];
      ChangesAreBounded(m, init);
      var before := Exec(m, init);
      ChangeShrinksWork(before, es[|es| - 1]);
      if Step(before, es[|es| - 1]).subs != before.subs {
        SmallerSet(Work(Exec(m, es).subs), Work(before.subs));
      }
    }
  }

  /** A cooperative run that can no longer change anything has arrived: the map holds exactly the subscriptions
      desired at the start, each with a bound track. */
  lemma {:induction false} QuietMeansArrived(m: Manager, es: seq<Event>)
    requires NoLimits(m) && CooperativeRun(m, es)
    requires forall e :: Cooperative(Exec(m, es), e) ==> Step(Exec(m, es), e).subs == Exec(m, es).subs
    ensures
      var subs := Exec(m, es).subs;
      subs.Keys == Wanted(m.subs) && forall t <- subs :: Settled(subs[t])
  {
    ChangesAreBounded(m, es);
    QuietIffSettled(Exec(m, es));
  }

  /** And from every state some cooperative run does arrive. */
  lemma {:induction false} CanAlwaysArrive(m: Manager) returns (es: seq<Event>)
    requires NoLimits(m)
    ensures CooperativeRun(m, es) && forall t <- Exec(m, es).subs :: Settled(Exec(m, es).subs[t])
    decreases |Work(m.subs)|
  {
    if forall t <- m.subs :: Settled(m.subs[t]) {
      es := [];
    } else {
      var t :| t in m.subs && !Settled(m.subs[t]);
      UnsettledCanMove(m, t);
      var e := Helpful(m.subs[t], t);
      ChangeShrinksWork(m, e);
      SmallerSet(Work(Step(m, e).subs), Work(m.subs));
      var rest := CanAlwaysArrive(Step(m, e));
      es := [e] + rest;
      ExecCons(m, e, rest);
      CooperativeCons(m, e, rest);
    }
  }

  lemma CooperativeCons(m: Manager, e: Event, rest: seq<Event>)
    requires Cooperative(m, e) && CooperativeRun(Step(m, e), rest)
    ensures CooperativeRun(m, [e] + rest)
  {
    var es := [e] + rest;
    forall i | 0 <= i < |es| ensures Cooperative(Exec(m, es[..i]), es[i]) {
      if i > 0 {
        ExecCons(m, e, rest[..i - 1]);
        assert es[..i] == [e] + rest[..i - 1];
      }
    }
  }

  lemma {:induction false} ExecCons(m: Manager, e: Event, es: seq<Event>)
    ensures Exec(m, [e] + es) == Exec(Step(m, e), es)
  {
    if es == [] {
      assert [e] + es == [] + [e];
      ExecSnoc(m, [], e);
    } else {
      var init := es[..|es| - 1];
      ExecCons(m, e, init);
      assert [e] + es == ([e] + init) + [es[|es| - 1]];
      ExecSnoc(m, [e] + init, es[|es| - 1]);
    }
  }

  // ---------------------------------------------------------------------------------------------------------
  // The imperative code
  // ---------------------------------------------------------------------------------------------------------

  /** Recording the resolved track and then adding the subscriber is one update of the subscription. */
  lemma SubscribeToInSteps(m: Manager, m1: Manager, t: TrackID, r: Resolved)
    requires t in m.subs && HasCapacity(m, r.kind) && r.hasPermission
    requires m1 == PutSub(m, t, (if m.subs[t].kind.None? then m.subs[t].(kind := Some(r.kind)) else m.subs[t])
                                .(publisher := r.publisher))
    ensures
      var s3 := m1.subs[t].(live := Some(r.kind), bound := false, removing := false);
      SubscribeTo(m, t, r, true) == Mark(AddCount(PutSub(m1, t, s3), r.kind, 1), r.publisher, t)
  {
    var s3 := m1.subs[t].(live := Some(r.kind), bound := false, removing := false);
    assert m1.subs[t := s3] == m.subs[t := s3];
  }

  class MediaTrackSubscription {
    var desired: bool
    var publisherID: PublisherID
    var kind: Option<Kind>
    var subscribedTrack: Option<Kind>
    var bound: bool
    var removing: bool

    function View(): Sub
      reads this
    {
      Sub(desired, publisherID, kind, subscribedTrack, bound, removing)
    }

    constructor ()
      ensures View() == NewSub
    {
      desired, publisherID, kind, subscribedTrack, bound, removing := false, 0, None, None, false, false;
    }
  }

  class SubscriptionManager {
    const limitVideo: int
    const limitAudio: int
    var subscriptions: map<TrackID, MediaTrackSubscription>
    var subscribedVideoCount: int
    var subscribedAudioCount: int
    var subscribedTo: map<PublisherID, set<TrackID>>
    var statuses: seq<Status>
    var pendingUnsubscribes: nat

    /** Each track has its own subscription object. */
    ghost predicate Valid()
      reads this
    {
      forall t, u :: t in subscriptions && u in subscriptions && t != u ==> subscriptions[t] != subscriptions[u]
    }

    ghost function Subs(): map<TrackID, Sub>
      reads this, subscriptions.Values
    {
      map t | t in subscriptions :: subscriptions[t].View()
    }

    ghost function View(): Manager
      reads this, subscriptions.Values
    {
      Manager(limitVideo, limitAudio, Subs(), subscribedVideoCount, subscribedAudioCount, subscribedTo, statuses,
              pendingUnsubscribes)
    }

    constructor (limitVideo: int, limitAudio: int)
      ensures Valid() && View() == Init(limitVideo, limitAudio)
    {
      this.limitVideo, this.limitAudio := limitVideo, limitAudio;
      subscriptions, subscribedVideoCount, subscribedAudioCount := map[], 0, 0;
      subscribedTo, statuses, pendingUnsubscribes := map[], [], 0;
    }

    method InsertSubscription(t: TrackID)
      requires Valid()
      modifies this`subscriptions
      ensures Valid() && View() == Step(old(View()), Insert(t))
    {
      var sub := new MediaTrackSubscription();
      subscriptions := subscriptions[t := sub];
      assert Subs() == old(Subs())[t := NewSub];
    }

    method SetDesiredFlag(t: TrackID, desired: bool)
      requires Valid()
      modifies subscriptions.Values
      ensures Valid() && View() == Step(old(View()), SetDesired(t, desired))
    {
      if t in subscriptions {
        var sub := subscriptions[t];
        sub.desired := desired;
        assert Subs() == old(Subs())[t := sub.View()];
      }
    }

    function HasCapacityForSubscription(kind: Kind): bool
      reads this
    {
      match kind
      case Video => !(limitVideo > 0 && subscribedVideoCount >= limitVideo)
      case Audio => !(limitAudio > 0 && subscribedAudioCount >= limitAudio)
    }

    method MarkSubscribedTo(p: PublisherID, t: TrackID)
      modifies this`subscribedTo, this`statuses
      ensures View() == Mark(old(View()), p, t)
    {
      var firstSubscribe := p !in subscribedTo;
      if firstSubscribe {
        subscribedTo := subscribedTo[p := {}];
      }
      subscribedTo := subscribedTo[p := subscribedTo[p] + {t}];
      if firstSubscribe {
        statuses := statuses + [Status(p, true)];
      }
      assert {} + {t} == {t};
      assert Subs() == old(Subs());
    }

    method UnmarkSubscribedTo(p: PublisherID, t: TrackID)
      modifies this`subscribedTo, this`statuses
      ensures View() == Unmark(old(View()), p, t)
    {
      if p in subscribedTo {
        var pTracks := subscribedTo[p] - {t};
        subscribedTo := subscribedTo[p := pTracks];
        if |pTracks| == 0 {
          subscribedTo := subscribedTo - {p};
          statuses := statuses + [Status(p, false)];
        }
      }
      assert old(subscribedTo)[p := {}] - {p} == old(subscribedTo) - {p};
      assert Subs() == old(Subs());
    }

    /** addSubscriber, when the track accepts the subscriber. */
    method AddSubscriber(t: TrackID, kind: Kind)
      requires Valid() && t in subscriptions
      modifies this`subscribedVideoCount, this`subscribedAudioCount, subscriptions[t]
      ensures
        var s := old(subscriptions[t].View()).(live := Some(kind), bound := false, removing := false);
        View() == AddCount(PutSub(old(View()), t, s), kind, 1)
    {
      var sub := subscriptions[t];
      sub.subscribedTrack, sub.bound, sub.removing := Some(kind), false, false;
      match kind {
        case Video => subscribedVideoCount := subscribedVideoCount + 1;
        case Audio => subscribedAudioCount := subscribedAudioCount + 1;
      }
      assert Subs() == old(Subs())[t := sub.View()];
    }

    /** What subscribe records once the track is resolved, and whether it may go on to add the subscriber. */
    method RecordResolved(t: TrackID, r: Resolved) returns (ok: bool)
      requires Valid() && t in subscriptions
      modifies subscriptions[t]
      ensures ok == (HasCapacity(old(View()), r.kind) && r.hasPermission)
      ensures
        var s := old(subscriptions[t].View());
        var s1 := if s.kind.None? then s.(kind := Some(r.kind)) else s;
        View() == PutSub(old(View()), t, if HasCapacity(old(View()), r.kind) then s1.(publisher := r.publisher) else s1)
    {
      var sub := subscriptions[t];
      if sub.kind.None? {
        sub.kind := Some(r.kind);
      }
      ok := HasCapacityForSubscription(r.kind);
      if ok {
        sub.publisherID := r.publisher;
      }
      assert Subs() == old(Subs())[t := sub.View()];
      ok := ok && r.hasPermission;
    }

    method SubscribeToResolved(t: TrackID, r: Resolved, added: bool)
      requires Valid() && t in subscriptions
      modifies this`subscribedVideoCount, this`subscribedAudioCount, this`subscribedTo, this`statuses, subscriptions[t]
      ensures View() == SubscribeTo(old(View()), t, r, added)
    {
      var sub := subscriptions[t];
      var ok := RecordResolved(t, r);
      if !ok || !added {
        return;
      }
      assert View().subs[t] == sub.View();
      SubscribeToInSteps(old(View()), View(), t, r);
      AddSubscriber(t, r.kind);
      assert View().subs[t] == sub.View();
      MarkSubscribedTo(sub.publisherID, t);
    }

    /** subscribe; an error leaves the loop to retry, except that a track missing for too long is given up. */
    method SubscribeTrack(t: TrackID, a: Attempt)
      requires Valid() && t in subscriptions
      modifies this, subscriptions.Values
      ensures Valid() && subscriptions == old(subscriptions)
      ensures View() == Subscribe(old(View()), t, a)
    {
      var sub := subscriptions[t];
      if !a.canSubscribe {
        return;
      }
      if sub.kind.Some? && !HasCapacityForSubscription(sub.kind.value) {
        return;
      }
      if a.track.None? {
        if a.notFoundTooLong {
          sub.desired := false;
          assert Subs() == old(Subs())[t := sub.View()];
        }
        return;
      }
      SubscribeToResolved(t, a.track.value, a.added);
    }

    method ReconcileSubscription(t: TrackID, a: Attempt, defer: bool)
      requires Valid() && t in subscriptions
      modifies this, subscriptions.Values
      ensures Valid() && View() == Reconcile(old(View()), t, a, defer)
    {
      var sub := subscriptions[t];
      if sub.desired && sub.subscribedTrack.None? {
        if pendingUnsubscribes != 0 && defer {
          return;
        }
        SubscribeTrack(t, a);
        return;
      }
      if !sub.desired && sub.subscribedTrack.Some? {
        pendingUnsubscribes := pendingUnsubscribes + 1;
        sub.removing := true;
        assert Subs() == old(Subs())[t := sub.View()];
        return;
      }
      if !sub.desired && sub.subscribedTrack.None? {
        subscriptions := subscriptions - {t};
        assert Subs() == old(Subs()) - {t};
      }
    }

    /** The subscription loses its track and the counter follows. */
    method DropSubscribedTrack(t: TrackID)
      requires Valid() && t in subscriptions && subscriptions[t].subscribedTrack.Some?
      modifies this`subscribedVideoCount, this`subscribedAudioCount, subscriptions[t]
      ensures
        var s := old(subscriptions[t].View());
        var s' := s.(live := None, bound := false, removing := false);
        View() == AddCount(PutSub(old(View()), t, s'), s.live.value, -1)
    {
      var sub := subscriptions[t];
      var kind := sub.subscribedTrack.value;
      sub.subscribedTrack, sub.bound, sub.removing := None, false, false;
      match kind {
        case Video => subscribedVideoCount := subscribedVideoCount - 1;
        case Audio => subscribedAudioCount := subscribedAudioCount - 1;
      }
      assert Subs() == old(Subs())[t := sub.View()];
    }

    method HandleSubscribedTrackClose(t: TrackID)
      requires Valid() && t in subscriptions
      modifies this, subscriptions.Values
      ensures Valid() && View() == Close(old(View()), t)
    {
      if subscriptions[t].subscribedTrack.None? {
        return;
      }
      assert View().subs[t] == subscriptions[t].View();
      DropSubscribedTrack(t);
      assert View().subs[t] == subscriptions[t].View();
      UnmarkSubscribedTo(subscriptions[t].publisherID, t);
    }
  }
}
