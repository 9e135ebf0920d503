/** The subscription manager's status callbacks (pkg/rtc/subscriptionmanager.go): they are decided under its lock and
    called outside it, the unsubscribed ones in a goroutine of their own. */
module SubscriptionStatuses {
  import opened Subscriptions

  /** A callback: its number in the order of decisions, and what it reports. */
  datatype Callback = Callback(number: nat, status: Status)

  /** `inFlight` are the callbacks not yet run, `delivered` those that ran, in order. */
  datatype Callbacks = Callbacks(manager: Manager, inFlight: seq<Callback>, delivered: seq<Callback>)

  datatype CallbackEvent = Manage(e: Event) | Deliver(i: nat)

  function Start(limitVideo: int, limitAudio: int): Callbacks {
    Callbacks(Init(limitVideo, limitAudio), [], [])
  }

  function Without(cs: seq<Callback>, i: nat): seq<Callback>
    requires i < |cs|
  {
    cs[..i] + cs[i + 1..]
  }

  /** An event of the manager decides at most one status. */
  function Decide(m: Manager, m': Manager): seq<Callback> {
    if |m'.statuses| > |m.statuses| then [Callback(|m.statuses|, m'.statuses[|m.statuses|])] else []
  }

  function CStep(c: Callbacks, e: CallbackEvent): Callbacks {
    match e
    case Manage(me) =>
      var m := Step(c.manager, me);
      c.(manager := m, inFlight := c.inFlight + Decide(c.manager, m))
    case Deliver(i) =>
      if i < |c.inFlight| then
        c.(inFlight := Without(c.inFlight, i), delivered := c.delivered + [c.inFlight[i]])
      else c
  }

  function CExec(c: Callbacks, es: seq<CallbackEvent>): Callbacks {
    if es == [] then c else CStep(CExec(c, es[..|es| - 1]), es[|es| - 1])
  }

  lemma DecidesOne(m: Manager, e: Event)
    ensures
      var m' := Step(m, e);
      m'.statuses == m.statuses || (exists s :: m'.statuses == m.statuses + [s])
  {
  }

  lemma DecideAppends(m: Manager, e: Event)
    ensures
      var m' := Step(m, e);
      if Decide(m, m') == [] then m'.statuses == m.statuses
      else exists s :: m'.statuses == m.statuses + [s] && Decide(m, m') == [Callback(|m.statuses|, s)]
  {
    DecidesOne(m, e);
  }

  // ---------------------------------------------------------------------------------------------------------
  // Order of delivery
  // ---------------------------------------------------------------------------------------------------------

  predicate Before(x: Callback, y: Callback) { x.status.publisher == y.status.publisher ==> x.number < y.number }

  /** Callbacks about one publisher appear in the order in which they were decided. */
  ghost predicate Sorted(cs: seq<Callback>) { forall i, j :: 0 <= i < j < |cs| ==> Before(cs[i], cs[j]) }

  ghost predicate Below(a: seq<Callback>, b: seq<Callback>) { forall x <- a, y <- b :: Before(x, y) }

  ghost predicate Increasing(cs: seq<Callback>) { forall i, j :: 0 <= i < j < |cs| ==> cs[i].number < cs[j].number }

  ghost predicate InFlightOk(c: Callbacks) {
    && Increasing(c.inFlight)
    && (forall x <- c.inFlight :: x.number < |c.manager.statuses|)
    && (forall x <- c.delivered :: x.number < |c.manager.statuses|)
  }

  /** What was delivered is in order, and stays so if what is in flight follows in order. */
  ghost predicate Ordered(c: Callbacks) { Sorted(c.delivered) && Below(c.delivered, c.inFlight) }

  /** The event is not a delivery that overtakes an earlier callback about the same publisher. */
  predicate KeepsTurn(c: Callbacks, e: CallbackEvent) {
    e.Deliver? && e.i < |c.inFlight| ==>
      forall x <- c.inFlight[..e.i] :: x.status.publisher != c.inFlight[e.i].status.publisher
  }

  lemma WithoutFacts(cs: seq<Callback>, i: nat)
    requires i < |cs| && Increasing(cs)
    ensures Increasing(Without(cs, i))
    ensures forall x :: x in Without(cs, i) <==> x in cs && x != cs[i]
    ensures forall x :: x in cs[..i] <==> x in cs && x.number < cs[i].number
  {
    var rest := Without(cs, i);
    assert forall k :: 0 <= k < |rest| ==> rest[k] == cs[if k < i then k else k + 1];
    forall x | x in cs && x != cs[i] ensures x in rest {
      var k :| 0 <= k < |cs| && cs[k] == x;
      assert rest[if k < i then k else k - 1] == x;
    }
    forall x | x in cs && x.number < cs[i].number ensures x in cs[..i] {
      var k :| 0 <= k < |cs| && cs[k] == x;
      assert cs[..i][k] == x;
    }
  }

  lemma DeliverKeepsInFlight(c: Callbacks, i: nat)
    requires InFlightOk(c)
    ensures InFlightOk(CStep(c, Deliver(i)))
  {
    if i < |c.inFlight| {
      assert c.inFlight[i] in c.inFlight;
      WithoutFacts(c.inFlight, i);
    }
  }

  lemma ManageKeepsInFlight(c: Callbacks, me: Event)
    requires InFlightOk(c)
    ensures InFlightOk(CStep(c, Manage(me)))
  {
    DecideAppends(c.manager, me);
    var cs := CStep(c, Manage(me)).inFlight;
    forall i, j | 0 <= i < j < |cs| ensures cs[i].number < cs[j].number {
      assert c.inFlight[i] in c.inFlight;
    }
  }

  lemma SortedSnoc(cs: seq<Callback>, x: Callback)
    ensures Sorted(cs + [x]) <==> Sorted(cs) && forall y <- cs :: Before(y, x)
  {
    var all := cs + [x];
    assert forall k :: 0 <= k < |cs| ==> all[k] == cs[k];
    assert all[|cs|] == x;
    if Sorted(all) {
      forall y <- cs ensures Before(y, x) {
        var k :| 0 <= k < |cs| && cs[k] == y;
      }
    }
  }

  /** Of what else is in flight, nothing about its publisher is earlier, if nothing before it is. */
  lemma FirstOfPublisherIff(cs: seq<Callback>, i: nat)
    requires i < |cs| && Increasing(cs)
    ensures (forall y <- Without(cs, i) :: Before(cs[i], y))
       <==> (forall y <- cs[..i] :: y.status.publisher != cs[i].status.publisher)
  {
    WithoutFacts(cs, i);
    var x := cs[i];
    if forall y <- cs[..i] :: y.status.publisher != x.status.publisher {
      forall y <- Without(cs, i) ensures Before(x, y) {
        var k :| 0 <= k < |cs| && cs[k] == y;
        if k < i { assert cs[..i][k] == y; }
      }
    } else {
      var y :| y in cs[..i] && y.status.publisher == x.status.publisher;
      assert y in Without(cs, i) && !Before(x, y);
    }
  }

  lemma BelowSplit(a: seq<Callback>, x: Callback, b: seq<Callback>)
    ensures Below(a + [x], b) <==> Below(a, b) && forall y <- b :: Before(x, y)
  {
    assert forall y :: y in a + [x] <==> y in a || y == x;
  }

  /** A delivery keeps the order exactly when it overtakes nothing about its publisher. */
  lemma DeliverKeepsOrderIff(c: Callbacks, i: nat)
    requires InFlightOk(c) && i < |c.inFlight|
    ensures Ordered(CStep(c, Deliver(i))) <==> Ordered(c) && KeepsTurn(c, Deliver(i))
  {
    var x, rest := c.inFlight[i], Without(c.inFlight, i);
    SortedSnoc(c.delivered, x);
    BelowSplit(c.delivered, x, rest);
    FirstOfPublisherIff(c.inFlight, i);
    WithoutFacts(c.inFlight, i);
    assert x in c.inFlight;
    assert Below(c.delivered, c.inFlight) <==> Below(c.delivered, rest) && forall y <- c.delivered :: Before(y, x);
  }

  lemma ManageKeepsOrder(c: Callbacks, me: Event)
    requires InFlightOk(c)
    ensures Ordered(CStep(c, Manage(me))) <==> Ordered(c)
  {
    DecideAppends(c.manager, me);
    var new_ := Decide(c.manager, Step(c.manager, me));
    assert forall x :: x in c.inFlight + new_ <==> x in c.inFlight || x in new_;
  }

  /** No delivery of the run overtakes. */
  predicate NoneOvertakes(limitVideo: int, limitAudio: int, es: seq<CallbackEvent>) {
    es == [] || (NoneOvertakes(limitVideo, limitAudio, es[..|es| - 1])
                 && KeepsTurn(CExec(Start(limitVideo, limitAudio), es[..|es| - 1]), es[|es| - 1]))
  }

  lemma {:induction false} OrderedIffNoneOvertakes(limitVideo: int, limitAudio: int, es: seq<CallbackEvent>)
    ensures
      var c := CExec(Start(limitVideo, limitAudio), es);
      InFlightOk(c) && (Ordered(c) <==> NoneOvertakes(limitVideo, limitAudio, es))
  {
    if es != [] {
      var init, e := es[..|es| - 1], es[|es| - 1];
      var c := CExec(Start(limitVideo, limitAudio), init);
      OrderedIffNoneOvertakes(limitVideo, limitAudio, init);
      match e
      case Manage(me) =>
        ManageKeepsInFlight(c, me);
        ManageKeepsOrder(c, me);
      case Deliver(i) =>
        DeliverKeepsInFlight(c, i);
        if i < |c.inFlight| { DeliverKeepsOrderIff(c, i); }
    }
  }

  /** Over every run: the callbacks about each publisher run in the order in which they were decided if none
      overtakes an earlier one; and once none is in flight, only then. */
  lemma DeliveredInOrderIff(limitVideo: int, limitAudio: int, es: seq<CallbackEvent>)
    ensures
      var c := CExec(Start(limitVideo, limitAudio), es);
      && (NoneOvertakes(limitVideo, limitAudio, es) ==> Sorted(c.delivered))
      && (c.inFlight == [] ==> (Sorted(c.delivered) <==> NoneOvertakes(limitVideo, limitAudio, es)))
  {
    OrderedIffNoneOvertakes(limitVideo, limitAudio, es);
  }

  // ---------------------------------------------------------------------------------------------------------
  // What a listener sees
  // ---------------------------------------------------------------------------------------------------------

  /** The statuses about `p` that a listener sees from these callbacks. */
  function Seen(cs: seq<Callback>, p: PublisherID): seq<bool> {
    if cs == [] then []
    else
      var s := cs[|cs| - 1].status;
      Seen(cs[..|cs| - 1], p) + (if s.publisher == p then [s.subscribed] else [])
  }

  /** Those that were decided. */
  function Decided(statuses: seq<Status>, p: PublisherID): seq<bool> {
    if statuses == [] then []
    else
      var s := statuses[|statuses| - 1];
      Decided(statuses[..|statuses| - 1], p) + (if s.publisher == p then [s.subscribed] else [])
  }

  /** Subscribed first, then in turn. */
  ghost predicate InTurn(bs: seq<bool>) { forall i :: 0 <= i < |bs| ==> bs[i] == (i % 2 == 0) }

  lemma {:induction false} SeenConcat(a: seq<Callback>, b: seq<Callback>, p: PublisherID)
    ensures Seen(a + b, p) == Seen(a, p) + Seen(b, p)
  {
    if b == [] {
      assert a + b == a;
    } else {
      SeenConcat(a, b[..|b| - 1], p);
      assert (a + b)[..|a + b| - 1] == a + b[..|b| - 1];
    }
  }

  lemma {:induction false} SeenNone(cs: seq<Callback>, p: PublisherID)
    requires forall x <- cs :: x.status.publisher != p
    ensures Seen(cs, p) == []
  {
    if cs != [] {
      assert forall x <- cs[..|cs| - 1] :: x in cs;
      SeenNone(cs[..|cs| - 1], p);
    }
  }

  lemma SeenOne(x: Callback, p: PublisherID)
    ensures Seen([x], p) == if x.status.publisher == p then [x.status.subscribed] else []
  {
    assert [x][..0] == [];
  }

  lemma DecidedSnoc(statuses: seq<Status>, s: Status, p: PublisherID)
    ensures Decided(statuses + [s], p) == Decided(statuses, p) + (if s.publisher == p then [s.subscribed] else [])
  {
    assert (statuses + [s])[..|statuses|] == statuses;
  }

  /** What the listener has seen, and will see if the rest follows in order, is what was decided. */
  ghost predicate Faithful(c: Callbacks, p: PublisherID) {
    Seen(c.delivered, p) + Seen(c.inFlight, p) == Decided(c.manager.statuses, p)
  }

  lemma SplitAt(cs: seq<Callback>, i: nat)
    requires i < |cs|
    ensures cs == cs[..i] + [cs[i]] + cs[i + 1..]
  {
  }

  lemma Regroup(d: seq<bool>, a: seq<bool>, n: seq<bool>, b: seq<bool>)
    requires a == [] || n == []
    ensures d + (a + n + b) == d + n + (a + b)
  {
    if a == [] { assert a + n + b == n + b && a + b == b; } else { assert a + n + b == a + b && d + n == d; }
  }

  lemma SeenAt(cs: seq<Callback>, i: nat, p: PublisherID)
    requires i < |cs|
    ensures Seen(cs, p) == Seen(cs[..i], p) + Seen([cs[i]], p) + Seen(cs[i + 1..], p)
    ensures Seen(Without(cs, i), p) == Seen(cs[..i], p) + Seen(cs[i + 1..], p)
  {
    SplitAt(cs, i);
    SeenConcat(cs[..i] + [cs[i]], cs[i + 1..], p);
    SeenConcat(cs[..i], [cs[i]], p);
    SeenConcat(cs[..i], cs[i + 1..], p);
  }

  lemma DeliverKeepsFaithful(c: Callbacks, i: nat, p: PublisherID)
    requires Faithful(c, p) && i < |c.inFlight| && KeepsTurn(c, Deliver(i))
    ensures Faithful(CStep(c, Deliver(i)), p)
  {
    var x, a := c.inFlight[i], c.inFlight[..i];
    SeenAt(c.inFlight, i, p);
    SeenConcat(c.delivered, [x], p);
    SeenOne(x, p);
    if x.status.publisher == p { SeenNone(a, p); }
    Regroup(Seen(c.delivered, p), Seen(a, p), Seen([x], p), Seen(c.inFlight[i + 1..], p));
  }

  lemma Associate(a: seq<bool>, b: seq<bool>, c: seq<bool>)
    ensures a + (b + c) == a + b + c
  {
  }

  lemma ManageKeepsFaithful(c: Callbacks, me: Event, p: PublisherID)
    requires Faithful(c, p)
    ensures Faithful(CStep(c, Manage(me)), p)
  {
    DecideAppends(c.manager, me);
    var m' := Step(c.manager, me);
    if Decide(c.manager, m') == [] {
      assert c.inFlight + [] == c.inFlight;
    } else {
      var s :| m'.statuses == c.manager.statuses + [s] && Decide(c.manager, m') == [Callback(|c.manager.statuses|, s)];
      var x := Callback(|c.manager.statuses|, s);
      SeenConcat(c.inFlight, [x], p);
      SeenOne(x, p);
      DecidedSnoc(c.manager.statuses, s, p);
      Associate(Seen(c.delivered, p), Seen(c.inFlight, p), Seen([x], p));
    }
  }

  lemma {:induction false} ExecFaithful(limitVideo: int, limitAudio: int, es: seq<CallbackEvent>, p: PublisherID)
    requires NoneOvertakes(limitVideo, limitAudio, es)
    ensures Faithful(CExec(Start(limitVideo, limitAudio), es), p)
  {
    if es != [] {
      var init, e := es[..|es| - 1], es[|es| - 1];
      var c := CExec(Start(limitVideo, limitAudio), init);
      ExecFaithful(limitVideo, limitAudio, init, p);
      match e
      case Manage(me) => ManageKeepsFaithful(c, me, p);
      case Deliver(i) => if i < |c.inFlight| { DeliverKeepsFaithful(c, i, p); }
    }
  }

  lemma AlternatesPrefix(statuses: seq<Status>, n: nat)
    requires Alternates(statuses) && n < |statuses|
    ensures Alternates(statuses[..n]) && statuses[n].subscribed != LastStatus(statuses[..n], statuses[n].publisher)
  {
    assert forall i :: 0 <= i < n ==> statuses[..n][..i] == statuses[..i] && statuses[..n][i] == statuses[i];
  }

  /** What was decided about a publisher is in turn, and ends on the last status. */
  lemma {:induction false} DecidedInTurn(statuses: seq<Status>, p: PublisherID)
    requires Alternates(statuses)
    ensures var bs := Decided(statuses, p); InTurn(bs) && (LastStatus(statuses, p) <==> |bs| % 2 == 1)
  {
    if statuses != [] {
      AlternatesPrefix(statuses, |statuses| - 1);
      DecidedInTurn(statuses[..|statuses| - 1], p);
    }
  }

  /** The manager's own run within a run with callbacks. */
  function Managed(es: seq<CallbackEvent>): seq<Event> {
    if es == [] then []
    else Managed(es[..|es| - 1]) + (if es[|es| - 1].Manage? then [es[|es| - 1].e] else [])
  }

  lemma {:induction false} ManagedRun(limitVideo: int, limitAudio: int, es: seq<CallbackEvent>)
    ensures CExec(Start(limitVideo, limitAudio), es).manager == Exec(Init(limitVideo, limitAudio), Managed(es))
  {
    if es != [] {
      var init, e := es[..|es| - 1], es[|es| - 1];
      ManagedRun(limitVideo, limitAudio, init);
      if e.Manage? {
        ExecSnoc(Init(limitVideo, limitAudio), Managed(init), e.e);
      } else {
        assert Managed(es) == Managed(init);
      }
    }
  }

  lemma PrefixInTurn(bs: seq<bool>, rest: seq<bool>)
    requires InTurn(bs + rest)
    ensures InTurn(bs)
  {
    assert forall i :: 0 <= i < |bs| ==> bs[i] == (bs + rest)[i];
  }

  /** If no callback overtakes an earlier one about its publisher, then a listener sees each publisher's statuses in
      turn, subscribed first; and once no callback is in flight, the last one it saw is the truth. */
  lemma ListenerSeesInTurn(limitVideo: int, limitAudio: int, es: seq<CallbackEvent>, p: PublisherID)
    requires NoneOvertakes(limitVideo, limitAudio, es) && SafeInserts(Init(limitVideo, limitAudio), Managed(es))
    ensures
      var c := CExec(Start(limitVideo, limitAudio), es);
      var bs := Seen(c.delivered, p);
      InTurn(bs) && (c.inFlight == [] ==> (p in c.manager.subscribedTo <==> bs != [] && bs[|bs| - 1]))
  {
    var c := CExec(Start(limitVideo, limitAudio), es);
    ExecFaithful(limitVideo, limitAudio, es, p);
    ManagedRun(limitVideo, limitAudio, es);
    ReachableInv(limitVideo, limitAudio, Managed(es));
    FaithfulIsInTurn(c, p);
  }

  lemma FaithfulIsInTurn(c: Callbacks, p: PublisherID)
    requires Faithful(c, p) && StatusOk(c.manager)
    ensures
      var bs := Seen(c.delivered, p);
      InTurn(bs) && (c.inFlight == [] ==> (p in c.manager.subscribedTo <==> bs != [] && bs[|bs| - 1]))
  {
    DecidedInTurn(c.manager.statuses, p);
    PrefixInTurn(Seen(c.delivered, p), Seen(c.inFlight, p));
    if c.inFlight == [] { assert Seen(c.delivered, p) + [] == Seen(c.delivered, p); }
    assert LastStatus(c.manager.statuses, p) <==> p in c.manager.subscribedTo;
  }

  /** A publisher is subscribed with one track, and the callback that says so is the only one in flight. */
  ghost predicate JustSubscribed(c: Callbacks, t: TrackID) {
    && t in c.manager.subs && c.manager.subs[t].live.Some?
    && var p := c.manager.subs[t].publisher;
       && p in c.manager.subscribedTo && c.manager.subscribedTo[p] == {t}
       && |c.inFlight| == 1 && c.inFlight[0].status == Status(p, true)
  }

  /** Nothing prevents overtaking: from any such state the track can close and the unsubscribed callback run first;
      the listener then ends on subscribed although nothing is. */
  lemma OvertakingListenerIsWrong(c: Callbacks, t: TrackID)
    requires JustSubscribed(c, t)
    ensures
      var p := c.manager.subs[t].publisher;
      var c' := CStep(CStep(CStep(c, Manage(TrackClosed(t))), Deliver(1)), Deliver(0));
      var bs := Seen(c'.delivered, p);
      c'.inFlight == [] && p !in c'.manager.subscribedTo && bs != [] && bs[|bs| - 1]
  {
    var p, x := c.manager.subs[t].publisher, c.inFlight[0];
    var c1 := CStep(c, Manage(TrackClosed(t)));
    assert {t} - {t} == {};
    assert c1.manager.statuses == c.manager.statuses + [Status(p, false)];
    var y := Callback(|c.manager.statuses|, Status(p, false));
    assert c1.inFlight == [x, y];
    var c2 := CStep(c1, Deliver(1));
    assert c2.inFlight == [x];
    SeenConcat(c2.delivered, [x], p);
    SeenOne(x, p);
  }

  /** Such states are reached under any limits by one subscription. */
  lemma SubscribingReachesIt(limitVideo: int, limitAudio: int, t: TrackID, a: Attempt)
    requires a.canSubscribe && a.track.Some? && a.track.value.hasPermission && a.added
    ensures
      var c1 := CStep(Start(limitVideo, limitAudio), Manage(Insert(t)));
      JustSubscribed(CStep(CStep(c1, Manage(SetDesired(t, true))), Manage(ReconcileOne(t, a, false))), t)
  {
    var c1 := CStep(Start(limitVideo, limitAudio), Manage(Insert(t)));
    assert c1.inFlight == [] && c1.manager.subs == map[t := NewSub];
    var c2 := CStep(c1, Manage(SetDesired(t, true)));
    assert c2.inFlight == [] && c2.manager.subs[t] == NewSub.(desired := true) && c2.manager.statuses == [];
    assert HasCapacity(c2.manager, a.track.value.kind);
    var m := Step(c2.manager, ReconcileOne(t, a, false));
    assert m.statuses == [] + [Status(a.track.value.publisher, true)];
  }
}
