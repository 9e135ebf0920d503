/** Codec regression of pkg/rtc/mediatrackreceiver.go: down tracks move from a regressed receiver to the backup
    receiver while others are still being added (pkg/sfu/downtrack.go does the move, in two locked regions). */
module CodecRegression {
  import opened Wrappers

  type DownTrack = nat

  /** A pending SetReceiver call: not begun, or detached from its old receiver and not yet added to the backup. */
  datatype Switch = Requested(d: DownTrack) | Detached(d: DownTrack)

  /** The two receivers' down tracks, the calls in progress, the down tracks ever added, the closed ones, and those
      whose own receiver field is the backup. */
  datatype Board = Board(
    regressed: bool, onOld: set<DownTrack>, onBackup: set<DownTrack>, switches: seq<Switch>,
    added: set<DownTrack>, closed: set<DownTrack>, moved: set<DownTrack>)

  function Init(): Board { Board(false, {}, {}, [], {}, {}, {}) }

  datatype Event =
    | AddDownTrack(d: DownTrack)
    | RegressTo(order: seq<DownTrack>)
    | RunDetach(i: nat)
    | RunAttach(i: nat)
    | CloseDownTrack(d: DownTrack)

  function Requests(ds: seq<DownTrack>): seq<Switch> { seq(|ds|, i requires 0 <= i < |ds| => Requested(ds[i])) }

  function Without(s: seq<Switch>, i: nat): seq<Switch>
    requires i < |s|
  {
    s[..i] + s[i + 1..]
  }

  /** RegressTo may run again for the same backup; `order` is the order in which it finds the down tracks of the
      old receiver. A down track is added while it is bound, under its lock, which it is not once it is closed;
      closing takes it off the receiver it then has, under the same lock. The first region of SetReceiver looks at
      the closed flag, the second does not. Events that are not possible change nothing. */
  function Step(b: Board, e: Event): Board {
    match e
    case AddDownTrack(d) =>
      if d in b.closed then b
      else if b.regressed then b.(switches := b.switches + [Requested(d)], added := b.added + {d})
      else b.(onOld := b.onOld + {d}, added := b.added + {d})
    case RegressTo(order) =>
      if (set d | d in order) == b.onOld then b.(regressed := true, switches := b.switches + Requests(order)) else b
    case RunDetach(i) =>
      if i < |b.switches| && b.switches[i].Requested? then
        var d := b.switches[i].d;
        if d in b.closed then b.(switches := Without(b.switches, i))
        else
          OffReceiver(b, d).(moved := b.moved + {d}, switches := b.switches[i := Detached(d)])
      else b
    case RunAttach(i) =>
      if i < |b.switches| && b.switches[i].Detached? then
        b.(onBackup := b.onBackup + {b.switches[i].d}, switches := Without(b.switches, i))
      else b
    case CloseDownTrack(d) => if d in b.closed then b else OffReceiver(b, d).(closed := b.closed + {d})
  }

  /** The down track's own receiver deletes it. */
  function OffReceiver(b: Board, d: DownTrack): Board {
    if d in b.moved then b.(onBackup := b.onBackup - {d}) else b.(onOld := b.onOld - {d})
  }

  function Exec(es: seq<Event>): Board {
    if es == [] then Init() else Step(Exec(es[..|es| - 1]), es[|es| - 1])
  }

  predicate Switching(b: Board, d: DownTrack) { exists s <- b.switches :: s.d == d }

  /** Where down tracks are: on the receiver they point to, if on any; and none that closed is on the old one. */
  ghost predicate PlaceOk(b: Board) {
    && (forall d <- b.onOld :: d !in b.moved && d !in b.closed)
    && (forall d <- b.onBackup :: d in b.moved)
    && (forall s <- b.switches :: s.Detached? ==> s.d in b.moved)
    && (!b.regressed ==> b.moved == {} && b.switches == [])
  }

  /** Which down tracks are still to move. */
  ghost predicate MoveOk(b: Board) {
    && (!b.regressed ==> b.added <= b.onOld + b.closed)
    && (b.regressed ==> forall d <- b.added :: d in b.closed || d in b.onBackup || Switching(b, d))
    && (b.regressed ==> forall d <- b.onOld :: Requested(d) in b.switches)
  }

  ghost predicate Inv(b: Board) { PlaceOk(b) && MoveOk(b) }

  lemma WithoutFacts(s: seq<Switch>, i: nat, x: Switch)
    requires i < |s|
    ensures x in Without(s, i) ==> x in s
    ensures x in s && x != s[i] ==> x in Without(s, i)
  {
    if x in s && x != s[i] {
      var k :| 0 <= k < |s| && s[k] == x;
      assert Without(s, i)[if k < i then k else k - 1] == x;
    }
  }

  lemma ReplacedFacts(s: seq<Switch>, i: nat, x: Switch, y: Switch)
    requires i < |s|
    ensures x in s[i := y] ==> x in s || x == y
    ensures (x in s && x != s[i]) || x == y ==> x in s[i := y]
  {
    if x == y {
      assert s[i := y][i] == x;
    } else if x in s && x != s[i] {
      var k :| 0 <= k < |s| && s[k] == x;
      assert s[i := y][k] == x;
    }
  }

  lemma StepKeepsPlace(b: Board, e: Event)
    requires PlaceOk(b)
    ensures PlaceOk(Step(b, e))
  {
    var b' := Step(b, e);
    if e.RunAttach? && e.i < |b.switches| { assert b.switches[e.i] in b.switches; }
    forall s <- b'.switches | s.Detached? ensures s.d in b'.moved {
      match e
      case RunDetach(i) =>
        if i < |b.switches| && b.switches[i].Requested? {
          WithoutFacts(b.switches, i, s);
          ReplacedFacts(b.switches, i, s, Detached(b.switches[i].d));
        }
      case RunAttach(i) => if i < |b.switches| { WithoutFacts(b.switches, i, s); }
      case RegressTo(order) => assert s in b.switches;
      case AddDownTrack(_) => assert s in b.switches;
      case CloseDownTrack(_) =>
    }
  }

  lemma AddKeepsMove(b: Board, d: DownTrack)
    requires Inv(b)
    ensures MoveOk(Step(b, AddDownTrack(d)))
  {
    var b' := Step(b, AddDownTrack(d));
    if b.regressed && d !in b.closed {
      assert b'.switches[|b.switches|] == Requested(d) && Requested(d) in b'.switches;
      forall x | Switching(b, x) ensures Switching(b', x) {
        var s :| s in b.switches && s.d == x;
        assert s in b'.switches;
      }
    }
  }

  lemma RegressKeepsMove(b: Board, order: seq<DownTrack>)
    requires Inv(b)
    ensures MoveOk(Step(b, RegressTo(order)))
  {
    var b' := Step(b, RegressTo(order));
    if (set d | d in order) == b.onOld {
      forall d <- b.onOld ensures Requested(d) in b'.switches {
        assert d in set x | x in order;
        var k :| 0 <= k < |order| && order[k] == d;
        assert Requests(order)[k] == Requested(d) && b'.switches[|b.switches| + k] == Requested(d);
      }
      forall x | Switching(b, x) ensures Switching(b', x) {
        var s :| s in b.switches && s.d == x;
        assert s in b'.switches;
      }
      forall x <- b.onOld ensures Switching(b', x) {
        assert Requested(x) in b'.switches;
      }
    }
  }

  lemma DetachKeepsMove(b: Board, i: nat)
    requires Inv(b) && i < |b.switches| && b.switches[i].Requested?
    ensures MoveOk(Step(b, RunDetach(i)))
  {
    var b', sw := Step(b, RunDetach(i)), b.switches[i];
    forall x <- b'.added ensures x in b'.closed || x in b'.onBackup || Switching(b', x) {
      if x !in b.closed && x == sw.d {
        ReplacedFacts(b.switches, i, Detached(x), Detached(x));
      } else if Switching(b, x) {
        var s :| s in b.switches && s.d == x;
        WithoutFacts(b.switches, i, s);
        ReplacedFacts(b.switches, i, s, Detached(sw.d));
      }
    }
    forall x <- b'.onOld ensures Requested(x) in b'.switches {
      WithoutFacts(b.switches, i, Requested(x));
      ReplacedFacts(b.switches, i, Requested(x), Detached(sw.d));
    }
  }

  lemma AttachKeepsMove(b: Board, i: nat)
    requires Inv(b) && i < |b.switches| && b.switches[i].Detached?
    ensures MoveOk(Step(b, RunAttach(i)))
  {
    var b' := Step(b, RunAttach(i));
    forall x <- b'.added ensures x in b'.closed || x in b'.onBackup || Switching(b', x) {
      if Switching(b, x) && x != b.switches[i].d {
        var s :| s in b.switches && s.d == x;
        WithoutFacts(b.switches, i, s);
      }
    }
    forall x <- b'.onOld ensures Requested(x) in b'.switches {
      WithoutFacts(b.switches, i, Requested(x));
    }
  }

  lemma StepKeepsInv(b: Board, e: Event)
    requires Inv(b)
    ensures Inv(Step(b, e))
  {
    StepKeepsPlace(b, e);
    match e
    case AddDownTrack(d) => AddKeepsMove(b, d);
    case RegressTo(order) => RegressKeepsMove(b, order);
    case RunDetach(i) => if i < |b.switches| && b.switches[i].Requested? { DetachKeepsMove(b, i); }
    case RunAttach(i) => if i < |b.switches| && b.switches[i].Detached? { AttachKeepsMove(b, i); }
    case CloseDownTrack(d) => assert forall x :: Switching(Step(b, e), x) <==> Switching(b, x);
  }

  lemma {:induction false} ExecKeepsInv(es: seq<Event>)
    ensures Inv(Exec(es))
  {
    if es != [] {
      ExecKeepsInv(es[..|es| - 1]);
      StepKeepsInv(Exec(es[..|es| - 1]), es[|es| - 1]);
    }
  }

  /** For every interleaving of additions and closes with a regression: once it has begun and no switch is pending,
      every down track ever added and still open is on the backup receiver, and the old one has none. */
  lemma {:induction false} NoneStranded(es: seq<Event>)
    requires Exec(es).regressed && Exec(es).switches == []
    ensures
      var b := Exec(es);
      (forall d <- b.added :: d !in b.closed ==> d in b.onBackup) && b.onOld == {}
  {
    ExecKeepsInv(es);
  }

  // ---------------------------------------------------------------------------------------------------------
  // Down tracks that close while they move
  // ---------------------------------------------------------------------------------------------------------

  /** No closed down track is on a receiver, or about to be added to one. */
  ghost predicate Clean(b: Board) {
    forall d <- b.closed :: d !in b.onOld && d !in b.onBackup && Detached(d) !in b.switches
  }

  /** The event does not close a down track between the two regions of its SetReceiver. */
  predicate ClosesWhole(b: Board, e: Event) {
    e.CloseDownTrack? && e.d !in b.closed ==> Detached(e.d) !in b.switches
  }

  predicate AllCloseWhole(es: seq<Event>) {
    es == [] || (AllCloseWhole(es[..|es| - 1]) && ClosesWhole(Exec(es[..|es| - 1]), es[|es| - 1]))
  }

  lemma DetachKeepsClean(b: Board, i: nat)
    requires Inv(b) && i < |b.switches| && b.switches[i].Requested?
    ensures Clean(Step(b, RunDetach(i))) <==> Clean(b)
  {
    var b' := Step(b, RunDetach(i));
    forall d <- b.closed ensures Detached(d) in b'.switches <==> Detached(d) in b.switches {
      WithoutFacts(b.switches, i, Detached(d));
      ReplacedFacts(b.switches, i, Detached(d), Detached(b.switches[i].d));
    }
  }

  lemma AttachKeepsClean(b: Board, i: nat)
    requires Inv(b) && i < |b.switches| && b.switches[i].Detached?
    ensures Clean(Step(b, RunAttach(i))) <==> Clean(b)
  {
    var b', sw := Step(b, RunAttach(i)), b.switches[i];
    assert sw in b.switches && sw.d in b'.onBackup;
    forall d <- b.closed | d != sw.d ensures Detached(d) in b'.switches <==> Detached(d) in b.switches {
      WithoutFacts(b.switches, i, Detached(d));
    }
  }

  lemma OtherKeepsClean(b: Board, e: Event)
    requires Inv(b) && (e.AddDownTrack? || e.RegressTo?)
    ensures Clean(Step(b, e)) <==> Clean(b)
  {
    assert forall d :: Detached(d) in Step(b, e).switches <==> Detached(d) in b.switches;
  }

  lemma StepKeepsCleanIff(b: Board, e: Event)
    requires Inv(b)
    ensures Clean(Step(b, e)) <==> Clean(b) && ClosesWhole(b, e)
  {
    match e
    case RunDetach(i) => if i < |b.switches| && b.switches[i].Requested? { DetachKeepsClean(b, i); }
    case RunAttach(i) => if i < |b.switches| && b.switches[i].Detached? { AttachKeepsClean(b, i); }
    case AddDownTrack(_) => OtherKeepsClean(b, e);
    case RegressTo(_) => OtherKeepsClean(b, e);
    case CloseDownTrack(_) =>
  }

  lemma {:induction false} CleanIffAllCloseWhole(es: seq<Event>)
    ensures Clean(Exec(es)) <==> AllCloseWhole(es)
  {
    if es != [] {
      CleanIffAllCloseWhole(es[..|es| - 1]);
      ExecKeepsInv(es[..|es| - 1]);
      StepKeepsCleanIff(Exec(es[..|es| - 1]), es[|es| - 1]);
    }
  }

  /** Over every run, once no switch is pending: no closed down track is on any receiver if and only if none closed
      between the two regions of a SetReceiver; one that did stays on the backup for good, since the second region
      adds it without a look at the closed flag. */
  lemma ClosedAreGoneIff(es: seq<Event>)
    requires Exec(es).switches == []
    ensures (forall d <- Exec(es).closed :: d !in Exec(es).onOld && d !in Exec(es).onBackup) <==> AllCloseWhole(es)
  {
    CleanIffAllCloseWhole(es);
  }

  /** It happens: a down track that closes while it moves. */
  lemma ClosedWhileMoving(d: DownTrack)
    ensures
      var b := Step(Step(Step(Step(Step(Init(),
                 AddDownTrack(d)), RegressTo([d])), RunDetach(0)), CloseDownTrack(d)), RunAttach(0));
      b.switches == [] && d in b.closed && d in b.onBackup
  {
    var b1 := Step(Init(), AddDownTrack(d));
    assert b1.onOld == {} + {d} && (set x | x in [d]) == {d};
    var b2 := Step(b1, RegressTo([d]));
    assert Requests([d]) == [Requested(d)] && b2.switches == [] + [Requested(d)];
    var b3 := Step(b2, RunDetach(0));
    assert b3.switches == [Detached(d)];
    var b4 := Step(b3, CloseDownTrack(d));
    assert b4.switches == [Detached(d)] && d in b4.closed;
  }

  // ---------------------------------------------------------------------------------------------------------
  // The imperative code
  // ---------------------------------------------------------------------------------------------------------

  class SimulcastReceiver {
    var regressed: bool
    var downTracks: set<DownTrack>
    var switches: seq<Switch>

    constructor ()
      ensures !regressed && downTracks == {} && switches == []
    {
      regressed, downTracks, switches := false, {}, [];
    }

    /** The board as this receiver's own steps see it. */
    ghost function View(b: Board): Board
      reads this
    {
      b.(regressed := regressed, onOld := downTracks, switches := switches)
    }

    method Add(d: DownTrack, ghost b: Board)
      requires b == View(b) && d !in b.closed
      modifies this
      ensures View(b.(added := b.added + {d})) == Step(b, AddDownTrack(d))
    {
      if regressed {
        switches := switches + [Requested(d)];
        return;
      }
      downTracks := downTracks + {d};
    }

    /** GetDownTracks, in some order. */
    method GetDownTracks() returns (order: seq<DownTrack>)
      ensures (set d | d in order) == downTracks
    {
      order := [];
      var rest := downTracks;
      while rest != {}
        invariant (set d | d in order) + rest == downTracks
        decreases |rest|
      {
        var d :| d in rest;
        order := order + [d];
        rest := rest - {d};
      }
    }

    method Regress(ghost b: Board) returns (order: seq<DownTrack>)
      requires b == View(b)
      modifies this
      ensures (set d | d in order) == old(downTracks) && View(b) == Step(b, RegressTo(order))
    {
      regressed := true;
      order := GetDownTracks();
      for i := 0 to |order|
        invariant regressed && downTracks == old(downTracks)
        invariant switches == old(switches) + Requests(order[..i])
      {
        switches := switches + [Requested(order[i])];
        assert Requests(order[..i + 1]) == Requests(order[..i]) + [Requested(order[i])];
      }
      assert order[..|order|] == order;
    }
  }

  /** A receiver of a track: the object behind it, the object it stands in for if it is a dummy, and its codec. */
  datatype Receiver = Receiver(object_: nat, dummyFor: Option<nat>, mime: nat)

  predicate StandsFor(r: Receiver, object_: nat) { r.object_ == object_ || r.dummyFor == Some(object_) }

  /** The search of HandleReceiverCodecChange: it finds the receiver whose codec changed and, among the others, one
      with the regression target codec, each exactly when there is one. */
  method FindBackup(receivers: seq<Receiver>, changed: nat, target: nat)
    returns (old_: Option<nat>, backup: Option<nat>)
    ensures old_.Some? <==> exists r <- receivers :: StandsFor(r, changed)
    ensures old_.Some? ==> old_.value < |receivers| && StandsFor(receivers[old_.value], changed)
    ensures backup.Some? <==> exists r <- receivers :: !StandsFor(r, changed) && r.mime == target
    ensures backup.Some? ==> backup.value < |receivers| && receivers[backup.value].mime == target
                             && !StandsFor(receivers[backup.value], changed)
  {
    old_, backup := None, None;
    for i := 0 to |receivers|
      invariant old_.Some? <==> exists r <- receivers[..i] :: StandsFor(r, changed)
      invariant old_.Some? ==> old_.value < i && StandsFor(receivers[old_.value], changed)
      invariant backup.Some? <==> exists r <- receivers[..i] :: !StandsFor(r, changed) && r.mime == target
      invariant backup.Some? ==> backup.value < i && receivers[backup.value].mime == target
                                 && !StandsFor(receivers[backup.value], changed)
    {
      var r := receivers[i];
      assert receivers[..i + 1] == receivers[..i] + [r] && r in receivers[..i + 1];
      assert forall x <- receivers[..i] :: x in receivers[..i + 1];
      assert forall x <- receivers[..i + 1] :: x in receivers[..i] || x == r;
      if r.object_ == changed || r.dummyFor == Some(changed) {
        old_ := Some(i);
        continue;
      }
      if r.mime == target {
        backup := Some(i);
      }
      if old_.Some? && backup.Some? {
        break;
      }
    }
    assert receivers[..|receivers|] == receivers;
  }
}
