/** The batched participant updates of pkg/rtc/room.go: CompareParticipant, PushAndDequeueUpdates and the flush. */
module ParticipantUpdates {
  import opened Wrappers

  type Identity = string

  datatype ParticipantState = Joining | Joined | Active | Disconnected

  /** The fields of ParticipantInfo that the update pipeline reads. */
  datatype Info = Info(
    identity: Identity, sid: string, version: nat, joinedAt: int, joinedAtMs: int, isPublisher: bool,
    state: ParticipantState)

  // ---------------------------------------------------------------------------------------------------------
  // The order of sessions
  // ---------------------------------------------------------------------------------------------------------

  /** Go's `<` on strings. */
  predicate Less(a: string, b: string)
    decreases |a|
  {
    b != "" && (a == "" || a[0] < b[0] || (a[0] == b[0] && Less(a[1..], b[1..])))
  }

  function CompareParticipant(a: Info, b: Info): int {
    if a.joinedAt != b.joinedAt then (if a.joinedAt < b.joinedAt then -1 else 1)
    else if a.joinedAtMs != 0 && b.joinedAtMs != 0 && a.joinedAtMs != b.joinedAtMs then
      (if a.joinedAtMs < b.joinedAtMs then -1 else 1)
    else if a.sid != b.sid then (if Less(a.sid, b.sid) then -1 else 1)
    else 0
  }

  lemma {:induction false} LessTotal(a: string, b: string)
    ensures a == b ==> !Less(a, b)
    ensures a != b ==> (Less(a, b) <==> !Less(b, a))
    decreases |a|
  {
    if a != "" && b != "" {
      LessTotal(a[1..], b[1..]);
      assert a == [a[0]] + a[1..] && b == [b[0]] + b[1..];
    }
  }

  /** The smaller string is a proper prefix, or has the smaller character where they first differ. */
  lemma {:induction false} LessIsLexicographic(a: string, b: string)
    ensures Less(a, b) <==>
              a < b || exists k :: 0 <= k < |a| && k < |b| && a[..k] == b[..k] && a[k] < b[k]
    decreases |a|
  {
    if a != "" && b != "" && a[0] == b[0] {
      LessIsLexicographic(a[1..], b[1..]);
      FirstCharacterFirst(a, b);
    } else if a != "" && b != "" {
      assert a[..0] == b[..0];
    }
  }

  lemma FirstCharacterFirst(a: string, b: string)
    requires a != "" && b != "" && a[0] == b[0]
    ensures a[1..] < b[1..] <==> a < b
    ensures (exists k :: 0 <= k < |a| && k < |b| && a[..k] == b[..k] && a[k] < b[k]) <==>
            exists k :: 0 <= k < |a[1..]| && k < |b[1..]| && a[1..][..k] == b[1..][..k] && a[1..][k] < b[1..][k]
  {
    var c, d := a[1..], b[1..];
    assert a == [a[0]] + c && b == [a[0]] + d;
    if k :| 0 <= k < |a| && k < |b| && a[..k] == b[..k] && a[k] < b[k] {
      assert c[..k - 1] == a[..k][1..] && d[..k - 1] == b[..k][1..] && c[k - 1] < d[k - 1];
    }
    if k :| 0 <= k < |c| && k < |d| && c[..k] == d[..k] && c[k] < d[k] {
      assert a[..k + 1] == [a[0]] + c[..k] && b[..k + 1] == [a[0]] + d[..k] && a[k + 1] < b[k + 1];
    }
  }

  lemma {:induction false} LessTransitive(a: string, b: string, c: string)
    requires Less(a, b) && Less(b, c)
    ensures Less(a, c)
    decreases |a|
  {
    if a != "" && a[0] == b[0] == c[0] { LessTransitive(a[1..], b[1..], c[1..]); }
  }

  /** Both carry a millisecond join time, or neither does. */
  predicate SamePrecision(a: Info, b: Info) { a.joinedAtMs == 0 <==> b.joinedAtMs == 0 }

  /** Antisymmetry holds for all infos. */
  lemma CompareAntisymmetric(a: Info, b: Info)
    ensures CompareParticipant(a, b) == -CompareParticipant(b, a)
  {
    LessTotal(a.sid, b.sid);
  }

  /** On infos of one precision the comparison is transitive, and only one session compares equal to itself. */
  lemma CompareTransitive(a: Info, b: Info, c: Info)
    requires SamePrecision(a, b) && SamePrecision(b, c)
    requires CompareParticipant(a, b) <= 0 && CompareParticipant(b, c) <= 0
    ensures CompareParticipant(a, c) <= 0
    ensures CompareParticipant(a, c) == 0 ==> a.sid == b.sid == c.sid
  {
    LessTotal(a.sid, b.sid);
    LessTotal(b.sid, c.sid);
    LessTotal(a.sid, c.sid);
    if Less(a.sid, b.sid) && Less(b.sid, c.sid) { LessTransitive(a.sid, b.sid, c.sid); }
  }

  predicate Cycle(x: Info, y: Info, z: Info) {
    CompareParticipant(x, y) <= 0 && CompareParticipant(y, z) <= 0 && CompareParticipant(x, z) > 0
  }

  lemma {:induction false} LessExtended(a: string, suffix: string)
    requires suffix != ""
    ensures Less(a, a + suffix)
    decreases |a|
  {
    if a == "" {
      assert a + suffix == suffix;
    } else {
      LessExtended(a[1..], suffix);
      assert (a + suffix)[1..] == a[1..] + suffix;
    }
  }

  /** A session of that second whose sid follows that of `y`, which lacks milliseconds, but which joined before `x`. */
  lemma CycleAbove(x: Info, y: Info)
    requires x.joinedAt == y.joinedAt && x.joinedAtMs > 1 && y.joinedAtMs == 0 && Less(x.sid, y.sid)
    ensures
      var c := y.(sid := y.sid + "a", joinedAtMs := x.joinedAtMs - 1);
      c.sid != x.sid && c.sid != y.sid && Cycle(x, y, c)
  {
    LessExtended(y.sid, "a");
    LessTransitive(x.sid, y.sid, y.sid + "a");
    LessTotal(x.sid, y.sid + "a");
    LessTotal(x.sid, y.sid);
    LessTotal(y.sid, y.sid + "a");
  }

  /** One whose sid precedes that of `y`, but which joined after `x`. */
  lemma CycleBelow(x: Info, y: Info)
    requires x.joinedAt == y.joinedAt && x.joinedAtMs > 0 && y.joinedAtMs == 0 && y.sid != "" && Less(y.sid, x.sid)
    ensures
      var c := y.(sid := y.sid[..|y.sid| - 1], joinedAtMs := x.joinedAtMs + 1);
      c.sid != x.sid && c.sid != y.sid && Cycle(c, y, x)
  {
    var sid, last := y.sid[..|y.sid| - 1], y.sid[|y.sid| - 1..];
    assert sid + last == y.sid;
    LessExtended(sid, last);
    LessTransitive(sid, y.sid, x.sid);
    LessTotal(sid, x.sid);
    LessTotal(y.sid, x.sid);
    LessTotal(sid, y.sid);
  }

  /** The precondition is exact: as soon as two sessions of one second differ in precision, some third session of
      that second, joined at a proper time of its own, closes a cycle with them. */
  lemma MixedPrecisionBreaksOrder(a: Info, b: Info)
    requires a.joinedAt == b.joinedAt && a.sid != b.sid && !SamePrecision(a, b)
    requires a.sid != "" && b.sid != ""
    requires a.joinedAtMs == 0 || a.joinedAtMs > 1
    requires b.joinedAtMs == 0 || b.joinedAtMs > 1
    ensures exists c: Info ::
              && c.sid != a.sid && c.sid != b.sid && c.joinedAt == a.joinedAt && c.joinedAtMs > 0
              && (Cycle(a, b, c) || Cycle(c, b, a) || Cycle(b, a, c) || Cycle(c, a, b))
  {
    var x, y := if a.joinedAtMs == 0 then b else a, if a.joinedAtMs == 0 then a else b;
    LessTotal(x.sid, y.sid);
    if Less(x.sid, y.sid) { CycleAbove(x, y); } else { CycleBelow(x, y); }
  }

  // ---------------------------------------------------------------------------------------------------------
  // The batch of one identity
  // ---------------------------------------------------------------------------------------------------------

  datatype CloseReason = NoReason | DuplicateIdentity | OtherReason

  datatype Update = Update(info: Info, isSynthesizedDisconnect: bool, closeReason: CloseReason)

  /** What happens to a pushed update: the queued update of its identity and the infos known decide. */
  datatype Verdict = Refused | Queue | Emit | Switch

  function Judge(queued: Option<Update>, pi: Info, isImmediate: bool, existing: Option<Info>): Verdict {
    if queued.Some? then
      if pi.sid == queued.value.info.sid then
        if pi.version < queued.value.info.version then Refused
        else if isImmediate || pi.isPublisher then Emit else Queue
      else if CompareParticipant(queued.value.info, pi) < 0 then Switch
      else Refused
    else if existing.Some? && CompareParticipant(existing.value, pi) > 0 then Refused
    else if isImmediate || pi.isPublisher then Emit else Queue
  }

  function AsDisconnected(u: Update): Update {
    u.(info := u.info.(state := Disconnected), isSynthesizedDisconnect := true)
  }

  /** The updates to send now and the queue afterwards. */
  function Push(queued: Option<Update>, pi: Info, reason: CloseReason, isImmediate: bool, existing: Option<Info>)
    : (seq<Update>, Option<Update>)
  {
    var u := Update(pi, false, reason);
    match Judge(queued, pi, isImmediate, existing)
    case Refused => ([], queued)
    case Queue => ([], Some(u))
    case Emit => ([u], None)
    case Switch => ([AsDisconnected(queued.value), u], None)
  }

  /** One identity's history: what is queued, what was sent to the room, which infos were not refused. */
  datatype Batch = Batch(queued: Option<Update>, emitted: seq<Update>, accepted: seq<Info>)

  datatype Event =
    | Pushed(pi: Info, reason: CloseReason, isImmediate: bool, existing: Option<Info>)
    | Flushed

  function Step(b: Batch, e: Event): Batch {
    match e
    case Pushed(pi, reason, isImmediate, existing) =>
      var (now, queued) := Push(b.queued, pi, reason, isImmediate, existing);
      Batch(queued, b.emitted + now,
            if Judge(b.queued, pi, isImmediate, existing) == Refused then b.accepted else b.accepted + [pi])
    case Flushed => if b.queued.None? then b else b.(queued := None, emitted := b.emitted + [b.queued.value])
  }

  function Exec(es: seq<Event>): Batch {
    if es == [] then Batch(None, [], []) else Step(Exec(es[..|es| - 1]), es[|es| - 1])
  }

  // ---------------------------------------------------------------------------------------------------------
  // Sessions never go backwards
  // ---------------------------------------------------------------------------------------------------------

  /** All infos pushed carry a millisecond join time or none does, and a session keeps its join times. */
  ghost predicate OneSessionOneJoin(es: seq<Event>) {
    forall i, j :: 0 <= i < |es| && 0 <= j < |es| && es[i].Pushed? && es[j].Pushed? ==>
      SamePrecision(es[i].pi, es[j].pi) && (es[i].pi.sid == es[j].pi.sid ==> SameSession(es[i].pi, es[j].pi))
  }

  ghost predicate Sorted(us: seq<Update>) {
    forall i, j :: 0 <= i < j < |us| ==> CompareParticipant(us[i].info, us[j].info) <= 0
  }

  /** `b` is built from the infos pushed in `es` only. */
  ghost predicate BuiltFrom(b: Batch, es: seq<Event>) {
    && (forall u <- b.emitted :: exists i :: 0 <= i < |es| && es[i].Pushed? && SameSession(u.info, es[i].pi))
    && (b.queued.Some? ==> exists i :: 0 <= i < |es| && es[i].Pushed? && b.queued.value.info == es[i].pi)
  }

  predicate SameSession(a: Info, b: Info) {
    a.sid == b.sid && a.joinedAt == b.joinedAt && a.joinedAtMs == b.joinedAtMs
  }

  lemma {:induction false} ExecBuiltFrom(es: seq<Event>)
    ensures BuiltFrom(Exec(es), es)
  {
    if es != [] {
      var init := es[..|es| - 1];
      ExecBuiltFrom(init);
      var b, b' := Exec(init), Exec(es);
      assert forall i :: 0 <= i < |init| ==> init[i] == es[i];
      var e := es[|es| - 1];
      forall u <- b'.emitted ensures exists i :: 0 <= i < |es| && es[i].Pushed? && SameSession(u.info, es[i].pi) {
        if u in b.emitted {
          var i :| 0 <= i < |init| && init[i].Pushed? && SameSession(u.info, init[i].pi);
          assert es[i] == init[i];
        } else if e.Pushed? && u.info == e.pi {
          assert es[|es| - 1] == e;
        } else {
          var i :| 0 <= i < |init| && init[i].Pushed? && b.queued.value.info == init[i].pi;
          assert es[i] == init[i];
        }
      }
      if b'.queued.Some? && b'.queued == b.queued {
        var i :| 0 <= i < |init| && init[i].Pushed? && b.queued.value.info == init[i].pi;
        assert es[i] == init[i];
      }
    }
  }

  lemma SortedSnoc(us: seq<Update>, u: Update)
    ensures Sorted(us + [u]) <==> Sorted(us) && forall x <- us :: CompareParticipant(x.info, u.info) <= 0
  {
    var all := us + [u];
    if Sorted(all) {
      assert forall i :: 0 <= i < |us| ==> all[i] == us[i];
      assert all[|us|] == u;
    }
  }

  /** What was sent, followed by what waits to be. */
  function Upcoming(b: Batch): seq<Update> {
    if b.queued.None? then b.emitted else b.emitted + [b.queued.value]
  }

  /** With nothing queued, a newer participant of the room refuses the push, or nothing sent before is newer. */
  ghost predicate KeepsSessions(b: Batch, e: Event) {
    e.Pushed? && b.queued.None? ==>
      || (e.existing.Some? && CompareParticipant(e.existing.value, e.pi) > 0)
      || forall u <- b.emitted :: CompareParticipant(u.info, e.pi) <= 0
  }

  /** Every push of the run does so. */
  ghost predicate PushesKeepSessions(es: seq<Event>) {
    es == [] || (PushesKeepSessions(es[..|es| - 1]) && KeepsSessions(Exec(es[..|es| - 1]), es[|es| - 1]))
  }

  /** A push over a queued update of the same session takes its place in the order. */
  lemma SameSessionSamePlace(us: seq<Update>, q: Update, u: Update)
    requires SameSession(q.info, u.info)
    ensures Sorted(us + [q]) <==> Sorted(us + [u])
  {
    SortedSnoc(us, q);
    SortedSnoc(us, u);
  }

  /** A switch appends two updates above everything that was in order. */
  lemma SwitchKeepsSorted(us: seq<Update>, q: Update, u: Update)
    requires CompareParticipant(q.info, u.info) < 0 && SamePrecision(q.info, u.info)
    requires forall x <- us :: SamePrecision(x.info, q.info)
    ensures Sorted(us + [AsDisconnected(q), u]) <==> Sorted(us + [q])
  {
    var d := AsDisconnected(q);
    SameSessionSamePlace(us, q, d);
    SortedSnoc(us, d);
    SortedSnoc(us + [d], u);
    assert us + [d, u] == us + [d] + [u];
    if Sorted(us + [d]) {
      forall x <- us + [d] ensures CompareParticipant(x.info, u.info) <= 0 {
        if x in us { CompareTransitive(x.info, d.info, u.info); }
      }
    }
  }

  lemma PushOverQueued(b: Batch, e: Event)
    requires e.Pushed? && b.queued.Some?
    requires forall u <- b.emitted :: SamePrecision(u.info, e.pi)
    requires SamePrecision(b.queued.value.info, e.pi)
    requires e.pi.sid == b.queued.value.info.sid ==> SameSession(b.queued.value.info, e.pi)
    ensures Sorted(Upcoming(Step(b, e))) <==> Sorted(Upcoming(b))
  {
    var q, u, b' := b.queued.value, Update(e.pi, false, e.reason), Step(b, e);
    match Judge(b.queued, e.pi, e.isImmediate, e.existing)
    case Refused => assert Upcoming(b') == Upcoming(b);
    case Switch =>
      SwitchKeepsSorted(b.emitted, q, u);
      assert Upcoming(b') == b.emitted + [AsDisconnected(q), u];
    case Queue =>
      SameSessionSamePlace(b.emitted, q, u);
      assert Upcoming(b') == b.emitted + [u];
    case Emit =>
      SameSessionSamePlace(b.emitted, q, u);
      assert Upcoming(b') == b.emitted + [u];
  }

  lemma PushOverNothing(b: Batch, e: Event)
    requires e.Pushed? && b.queued.None?
    ensures Sorted(Upcoming(Step(b, e))) <==> Sorted(Upcoming(b)) && KeepsSessions(b, e)
  {
    var u, b' := Update(e.pi, false, e.reason), Step(b, e);
    SortedSnoc(b.emitted, u);
    match Judge(b.queued, e.pi, e.isImmediate, e.existing)
    case Refused => assert Upcoming(b') == Upcoming(b);
    case Queue => assert Upcoming(b') == b.emitted + [u];
    case Emit => assert Upcoming(b') == b.emitted + [u];
  }

  lemma StepKeepsSortedIff(b: Batch, e: Event)
    requires e.Pushed? ==> forall u <- b.emitted :: SamePrecision(u.info, e.pi)
    requires e.Pushed? && b.queued.Some? ==>
               && SamePrecision(b.queued.value.info, e.pi)
               && (e.pi.sid == b.queued.value.info.sid ==> SameSession(b.queued.value.info, e.pi))
    ensures Sorted(Upcoming(Step(b, e))) <==> Sorted(Upcoming(b)) && KeepsSessions(b, e)
  {
    if e.Pushed? {
      if b.queued.Some? { PushOverQueued(b, e); } else { PushOverNothing(b, e); }
    } else {
      assert Upcoming(Step(b, e)) == Upcoming(b);
    }
  }

  /** Over every run of pushes and flushes for one identity, the sessions sent to the room, and the one waiting to
      be sent, never go backwards if and only if each push over an empty queue was refused by a newer participant
      of the room or met nothing newer among what had been sent. */
  lemma {:induction false} SessionsNeverGoBackIff(es: seq<Event>)
    requires OneSessionOneJoin(es)
    ensures Sorted(Upcoming(Exec(es))) <==> PushesKeepSessions(es)
  {
    if es != [] {
      var init, e := es[..|es| - 1], es[|es| - 1];
      assert forall i :: 0 <= i < |init| ==> init[i] == es[i];
      SessionsNeverGoBackIff(init);
      ExecBuiltFrom(init);
      var b := Exec(init);
      if e.Pushed? {
        forall u <- b.emitted ensures SamePrecision(u.info, e.pi) {
          var i :| 0 <= i < |init| && init[i].Pushed? && SameSession(u.info, init[i].pi);
          assert SamePrecision(es[i].pi, es[|es| - 1].pi);
        }
        if b.queued.Some? {
          var i :| 0 <= i < |init| && init[i].Pushed? && b.queued.value.info == init[i].pi;
          assert SamePrecision(es[i].pi, es[|es| - 1].pi);
        }
      }
      StepKeepsSortedIff(b, e);
    }
  }

  /** No later join: an earlier second or, in one second, an earlier millisecond, and otherwise the smaller sid. */
  predicate JoinedNoLater(a: Info, b: Info) {
    && a.joinedAt <= b.joinedAt
    && (a.joinedAt == b.joinedAt ==>
          if a.joinedAtMs != 0 && b.joinedAtMs != 0 && a.joinedAtMs != b.joinedAtMs then a.joinedAtMs < b.joinedAtMs
          else !Less(b.sid, a.sid))
  }

  /** In such a run, what was sent is in the order in which the sessions joined. */
  lemma SentInJoinOrder(es: seq<Event>)
    requires OneSessionOneJoin(es) && PushesKeepSessions(es)
    ensures
      var sent := Exec(es).emitted;
      forall i, j :: 0 <= i < j < |sent| ==> JoinedNoLater(sent[i].info, sent[j].info)
  {
    SessionsNeverGoBackIff(es);
    var sent, all := Exec(es).emitted, Upcoming(Exec(es));
    forall i, j | 0 <= i < j < |sent| ensures JoinedNoLater(sent[i].info, sent[j].info) {
      assert all[i] == sent[i] && all[j] == sent[j];
      LessTotal(sent[i].info.sid, sent[j].info.sid);
    }
  }

  /** In particular, pushes never spoil the order while the room's participant of that identity is at least as new
      as everything sent. */
  lemma NewestParticipantKeepsSessions(b: Batch, e: Event)
    requires e.Pushed? && e.existing.Some? && SamePrecision(e.existing.value, e.pi)
    requires forall u <- b.emitted ::
               SamePrecision(u.info, e.pi) && CompareParticipant(u.info, e.existing.value) <= 0
    ensures KeepsSessions(b, e)
  {
    if CompareParticipant(e.existing.value, e.pi) <= 0 {
      forall u <- b.emitted ensures CompareParticipant(u.info, e.pi) <= 0 {
        CompareTransitive(u.info, e.existing.value, e.pi);
      }
    }
  }

  /** Every synthesized disconnect is followed at once by the newer session it makes way for. */
  ghost predicate Paired(us: seq<Update>) {
    forall i :: 0 <= i < |us| && us[i].isSynthesizedDisconnect ==>
      && us[i].info.state == Disconnected
      && i + 1 < |us| && !us[i + 1].isSynthesizedDisconnect
      && CompareParticipant(us[i].info, us[i + 1].info) < 0
  }

  lemma PairedAppend(us: seq<Update>, now: seq<Update>)
    requires Paired(us) && Paired(now)
    ensures Paired(us + now)
  {
    var all := us + now;
    forall i | 0 <= i < |all| && all[i].isSynthesizedDisconnect
      ensures all[i].info.state == Disconnected && i + 1 < |all| && !all[i + 1].isSynthesizedDisconnect
           && CompareParticipant(all[i].info, all[i + 1].info) < 0
    {
      if i < |us| { assert all[i] == us[i] && all[i + 1] == us[i + 1]; } else { assert all[i] == now[i - |us|]; }
    }
  }

  lemma PushIsPaired(queued: Option<Update>, pi: Info, reason: CloseReason, isImmediate: bool, existing: Option<Info>)
    requires queued.Some? ==> !queued.value.isSynthesizedDisconnect
    ensures
      var (now, queued') := Push(queued, pi, reason, isImmediate, existing);
      Paired(now) && (queued'.Some? ==> !queued'.value.isSynthesizedDisconnect)
  {
  }

  /** A displaced older session is sent as a synthesized disconnect immediately before a newer one, and never
      otherwise; this needs no assumption. */
  lemma {:induction false} DisconnectPrecedesNewer(es: seq<Event>)
    ensures Paired(Exec(es).emitted)
    ensures Exec(es).queued.Some? ==> !Exec(es).queued.value.isSynthesizedDisconnect
  {
    if es != [] {
      DisconnectPrecedesNewer(es[..|es| - 1]);
      var b, e := Exec(es[..|es| - 1]), es[|es| - 1];
      match e {
        case Pushed(pi, reason, isImmediate, existing) =>
          PushIsPaired(b.queued, pi, reason, isImmediate, existing);
          PairedAppend(b.emitted, Push(b.queued, pi, reason, isImmediate, existing).0);
        case Flushed =>
          if b.queued.Some? { PairedAppend(b.emitted, [b.queued.value]); }
      }
    }
  }

  /** The event pushes a strictly newer session over a queued older one. */
  predicate IsSwitch(b: Batch, e: Event) {
    && e.Pushed? && b.queued.Some? && b.queued.value.info.sid != e.pi.sid
    && CompareParticipant(b.queued.value.info, e.pi) < 0
  }

  function Switches(es: seq<Event>): nat {
    if es == [] then 0
    else Switches(es[..|es| - 1]) + (if IsSwitch(Exec(es[..|es| - 1]), es[|es| - 1]) then 1 else 0)
  }

  function Disconnects(us: seq<Update>): nat {
    if us == [] then 0
    else Disconnects(us[..|us| - 1]) + (if us[|us| - 1].isSynthesizedDisconnect then 1 else 0)
  }

  lemma DisconnectsSnoc(us: seq<Update>, u: Update)
    ensures Disconnects(us + [u]) == Disconnects(us) + (if u.isSynthesizedDisconnect then 1 else 0)
  {
    assert (us + [u])[..|us|] == us;
  }

  lemma StepDisconnects(b: Batch, e: Event)
    requires b.queued.Some? ==> !b.queued.value.isSynthesizedDisconnect
    ensures Disconnects(Step(b, e).emitted) == Disconnects(b.emitted) + (if IsSwitch(b, e) then 1 else 0)
  {
    if e.Flushed? {
      if b.queued.Some? { DisconnectsSnoc(b.emitted, b.queued.value); }
    } else {
      var u, us := Update(e.pi, false, e.reason), Step(b, e).emitted;
      match Judge(b.queued, e.pi, e.isImmediate, e.existing)
      case Switch =>
        var d := AsDisconnected(b.queued.value);
        assert us == b.emitted + [d] + [u];
        DisconnectsSnoc(b.emitted, d);
        DisconnectsSnoc(b.emitted + [d], u);
      case Emit =>
        assert us == b.emitted + [u];
        DisconnectsSnoc(b.emitted, u);
      case _ => assert us == b.emitted;
    }
  }

  /** A run sends exactly as many synthesized disconnects as it has switches. */
  lemma {:induction false} OneDisconnectPerSwitch(es: seq<Event>)
    ensures Disconnects(Exec(es).emitted) == Switches(es)
  {
    if es != [] {
      OneDisconnectPerSwitch(es[..|es| - 1]);
      DisconnectPrecedesNewer(es[..|es| - 1]);
      StepDisconnects(Exec(es[..|es| - 1]), es[|es| - 1]);
    }
  }

  lemma {:induction false} EmittedGrows(es: seq<Event>, i: nat)
    requires i <= |es|
    ensures Exec(es[..i]).emitted <= Exec(es).emitted
  {
    if i == |es| {
      assert es[..i] == es;
    } else {
      EmittedGrows(es[..|es| - 1], i);
      assert es[..|es| - 1][..i] == es[..i];
    }
  }

  /** Whatever comes before or after, the room sees every switch: the displaced session as disconnected, and right
      behind it the newer one. */
  lemma EverySwitchIsSent(es: seq<Event>, i: nat)
    requires i < |es| && IsSwitch(Exec(es[..i]), es[i])
    ensures Exec(es[..i + 1]).queued == None
    ensures
      var q, us := Exec(es[..i]).queued.value, Exec(es).emitted;
      exists k :: 0 <= k < |us| - 1 && us[k] == AsDisconnected(q) && us[k + 1] == Update(es[i].pi, false, es[i].reason)
  {
    var b, us := Exec(es[..i]), Exec(es).emitted;
    assert es[..i + 1][..i] == es[..i];
    var now := [AsDisconnected(b.queued.value), Update(es[i].pi, false, es[i].reason)];
    assert Exec(es[..i + 1]).emitted == b.emitted + now;
    EmittedGrows(es, i + 1);
    var n := |b.emitted|;
    assert us[n] == (b.emitted + now)[n] && us[n + 1] == (b.emitted + now)[n + 1];
  }

  /** Nothing accepted last is lost: it is queued, or it is the last update sent. */
  lemma {:induction false} NewestAcceptedSurvives(es: seq<Event>)
    ensures
      var b := Exec(es);
      && (b.accepted == [] ==> b.queued == None && b.emitted == [])
      && (b.accepted != [] ==>
            var newest := b.accepted[|b.accepted| - 1];
            if b.queued.Some? then b.queued.value.info == newest
            else b.emitted != [] && b.emitted[|b.emitted| - 1].info == newest)
  {
    if es != [] { NewestAcceptedSurvives(es[..|es| - 1]); }
  }

  /** Only a subscriber's update that nobody asked to send at once ever waits for the flush. */
  lemma {:induction false} OnlySubscribersWait(es: seq<Event>)
    ensures
      var b := Exec(es);
      b.queued.Some? ==>
        && !b.queued.value.info.isPublisher
        && exists i :: 0 <= i < |es| && es[i].Pushed? && !es[i].isImmediate && es[i].pi == b.queued.value.info
                       && es[i].reason == b.queued.value.closeReason
  {
    if es != [] {
      var init, e := es[..|es| - 1], es[|es| - 1];
      OnlySubscribersWait(init);
      var b, b' := Exec(init), Exec(es);
      if b'.queued.Some? {
        if b'.queued == b.queued {
          var i :| 0 <= i < |init| && init[i].Pushed? && !init[i].isImmediate && init[i].pi == b.queued.value.info
                   && init[i].reason == b.queued.value.closeReason;
          assert es[i] == init[i];
        } else {
          assert es[|es| - 1] == e && e.Pushed? && !e.isImmediate;
        }
      }
    }
  }

  // ---------------------------------------------------------------------------------------------------------
  // Versions of one session
  // ---------------------------------------------------------------------------------------------------------

  /** A push over a queued update of its own session: with a smaller version it changes nothing, otherwise it takes the
      queued update's place, or is sent at once when that is asked for or the participant publishes. */
  lemma SameSessionByVersion(b: Batch, pi: Info, reason: CloseReason, isImmediate: bool, existing: Option<Info>)
    requires b.queued.Some? && b.queued.value.info.sid == pi.sid
    ensures
      var b', u := Step(b, Pushed(pi, reason, isImmediate, existing)), Update(pi, false, reason);
      if pi.version < b.queued.value.info.version then b' == b
      else if isImmediate || pi.isPublisher then b'.queued == None && b'.emitted == b.emitted + [u]
      else b'.queued == Some(u) && b'.emitted == b.emitted
  {
  }

  /** A push of another session that is not newer than the queued one changes nothing. */
  lemma OtherSessionRefused(b: Batch, pi: Info, reason: CloseReason, isImmediate: bool, existing: Option<Info>)
    requires b.queued.Some? && b.queued.value.info.sid != pi.sid
    requires CompareParticipant(b.queued.value.info, pi) >= 0
    ensures Step(b, Pushed(pi, reason, isImmediate, existing)) == b
  {
  }

  /** A push over nothing: refused exactly by a newer participant of the room, otherwise sent or queued. */
  lemma FirstPush(b: Batch, pi: Info, reason: CloseReason, isImmediate: bool, existing: Option<Info>)
    requires b.queued == None
    ensures
      var b', u := Step(b, Pushed(pi, reason, isImmediate, existing)), Update(pi, false, reason);
      if existing.Some? && CompareParticipant(existing.value, pi) > 0 then b' == b
      else if isImmediate || pi.isPublisher then b'.queued == None && b'.emitted == b.emitted + [u]
      else b'.queued == Some(u) && b'.emitted == b.emitted
  {
  }

  lemma FlushSendsQueued(b: Batch)
    ensures
      var b' := Step(b, Flushed);
      b'.queued == None && b'.emitted == if b.queued.Some? then b.emitted + [b.queued.value] else b.emitted
  {
  }

  /** From event `j` on the queue always holds an update of session `sid`. */
  ghost predicate Holds(es: seq<Event>, j: nat, sid: string) {
    forall i :: j <= i <= |es| ==> Exec(es[..i]).queued.Some? && Exec(es[..i]).queued.value.info.sid == sid
  }

  /** What is queued, and so what the next flush sends, has the largest version pushed for its session since the queue
      was last empty or held another session, and it is one of those pushed or what was queued at first. */
  lemma {:induction false} QueuedIsLargest(es: seq<Event>, j: nat, sid: string)
    requires j <= |es| && Holds(es, j, sid)
    ensures Exec(es).queued.Some? && Exec(es[..j]).queued.Some?
    ensures
      var q, first := Exec(es).queued.value.info, Exec(es[..j]).queued.value.info;
      && first.version <= q.version
      && (forall i :: j <= i < |es| && es[i].Pushed? && es[i].pi.sid == sid ==> es[i].pi.version <= q.version)
      && (q == first || exists i :: j <= i < |es| && es[i].Pushed? && es[i].pi == q)
  {
    assert es[..|es|] == es;
    if j < |es| {
      var init, e := es[..|es| - 1], es[|es| - 1];
      assert forall i :: 0 <= i <= |init| ==> init[..i] == es[..i];
      assert forall i :: 0 <= i < |init| ==> init[i] == es[i];
      assert Holds(init, j, sid);
      QueuedIsLargest(init, j, sid);
      var b := Exec(init);
      assert b.queued.Some? && b.queued.value.info.sid == sid;
      if e.Flushed? {
        FlushSendsQueued(b);
      } else if e.pi.sid == sid {
        SameSessionByVersion(b, e.pi, e.reason, e.isImmediate, e.existing);
        assert es[|es| - 1].pi == e.pi;
      } else if CompareParticipant(b.queued.value.info, e.pi) >= 0 {
        OtherSessionRefused(b, e.pi, e.reason, e.isImmediate, e.existing);
      } else {
        NewerSessionEmpties(b, e);
      }
    }
  }

  lemma NewerSessionEmpties(b: Batch, e: Event)
    requires IsSwitch(b, e)
    ensures Step(b, e).queued == None
  {
  }

  /** Without a room participant of that identity, any older session can be sent after any newer one. */
  lemma OlderAfterNewerOnceRemoved(newer: Info, older: Info, reason: CloseReason)
    requires CompareParticipant(newer, older) > 0 && newer.sid != older.sid && SamePrecision(newer, older)
    ensures
      var es := [Pushed(newer, NoReason, true, Some(newer)), Pushed(older, reason, true, None)];
      && OneSessionOneJoin(es) && !PushesKeepSessions(es)
      && Exec(es).emitted == [Update(newer, false, NoReason), Update(older, false, reason)]
  {
    var e1, e2 := Pushed(newer, NoReason, true, Some(newer)), Pushed(older, reason, true, None);
    var es := [e1, e2];
    assert es[..1] == [e1] && [e1][..0] == [];
    CompareAntisymmetric(newer, newer);
    assert Exec([e1]).emitted == [] + [Update(newer, false, NoReason)] && Exec([e1]).queued == None;
    assert Exec(es).emitted == [Update(newer, false, NoReason)] + [Update(older, false, reason)];
    SessionsNeverGoBackIff(es);
  }

  // ---------------------------------------------------------------------------------------------------------
  // The imperative code: the cache of all identities
  // ---------------------------------------------------------------------------------------------------------

  function Queued(cache: map<Identity, Update>, identity: Identity): Option<Update> {
    if identity in cache then Some(cache[identity]) else None
  }

  class Room {
    var batchedUpdates: map<Identity, Update>

    constructor ()
      ensures batchedUpdates == map[]
    {
      batchedUpdates := map[];
    }

    /** Works on the pushed identity alone. */
    method PushAndDequeueUpdates(pi: Info, closeReason: CloseReason, isImmediate: bool, existing: Option<Info>)
      returns (updates: seq<Update>)
      modifies this
      ensures (updates, Queued(batchedUpdates, pi.identity))
           == Push(Queued(old(batchedUpdates), pi.identity), pi, closeReason, isImmediate, existing)
      ensures batchedUpdates - {pi.identity} == old(batchedUpdates) - {pi.identity}
    {
      updates := [];
      var shouldSend := isImmediate || pi.isPublisher;
      if pi.identity in batchedUpdates {
        var queued := batchedUpdates[pi.identity];
        if pi.sid == queued.info.sid {
          if pi.version < queued.info.version {
            return [];
          }
        } else if CompareParticipant(queued.info, pi) < 0 {
          shouldSend := true;
          queued := queued.(info := queued.info.(state := Disconnected));
          queued := queued.(isSynthesizedDisconnect := true);
          updates := updates + [queued];
        } else {
          return [];
        }
      } else if existing.Some? {
        if CompareParticipant(existing.value, pi) > 0 {
          return [];
        }
      }
      if shouldSend {
        batchedUpdates := batchedUpdates - {pi.identity};
        updates := updates + [Update(pi, false, closeReason)];
        assert updates == Push(Queued(old(batchedUpdates), pi.identity), pi, closeReason, isImmediate, existing).0;
      } else {
        batchedUpdates := batchedUpdates[pi.identity := Update(pi, false, closeReason)];
      }
    }

    /** The ticker branch of changeUpdateWorker: every queued update is sent, one per identity, in some order. */
    method FlushBatch() returns (updates: seq<Update>)
      modifies this
      ensures batchedUpdates == map[]
      ensures |updates| == |old(batchedUpdates)|
      ensures forall id <- old(batchedUpdates) :: old(batchedUpdates)[id] in updates
      ensures forall u <- updates :: exists id <- old(batchedUpdates) :: u == old(batchedUpdates)[id]
    {
      var updatesMap := batchedUpdates;
      batchedUpdates := map[];
      updates := [];
      ghost var done: set<Identity> := {};
      while updatesMap != map[]
        invariant done !! updatesMap.Keys && done + updatesMap.Keys == old(batchedUpdates).Keys
        invariant forall id <- updatesMap :: updatesMap[id] == old(batchedUpdates)[id]
        invariant |updates| + |updatesMap| == |old(batchedUpdates)|
        invariant forall id <- done :: old(batchedUpdates)[id] in updates
        invariant forall u <- updates :: exists id <- old(batchedUpdates) :: u == old(batchedUpdates)[id]
        decreases |updatesMap|
      {
        var id :| id in updatesMap;
        updates := updates + [updatesMap[id]];
        assert (updatesMap - {id}).Keys == updatesMap.Keys - {id};
        updatesMap := updatesMap - {id};
        done := done + {id};
      }
    }
  }
}
