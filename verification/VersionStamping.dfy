/** How pkg/rtc/participant.go stamps snapshots of a participant: every change marks the participant dirty, and
    a snapshot first turns a dirty mark into a new version, then reads the version, then the state. */
module VersionStamping {
  /** Where a ToProtoWithVersion call stands: entered; found the dirty mark and wants the lock; past
      maybeIncVersion; version read; finished. */
  datatype Progress = Begun | MustLock | Stamped | VersionRead | Finished

  /** One snapshot call. `doneAtBegin` are the changes complete when it began, `seen` how many changes its
      content includes. */
  datatype Snapshot = Snapshot(doneAtBegin: set<nat>, at: Progress, version: nat, seen: nat)

  /** Changes are numbered in the order they take effect; `appliedAt` is the version at that moment. A change is
      complete once its dirty mark is set, which for state changes is a later step than taking effect. */
  datatype Stamper = Stamper(dirty: bool, version: nat, appliedAt: seq<nat>, complete: set<nat>, snaps: seq<Snapshot>)

  datatype Event =
    | Apply
    | MarkDirty(c: nat)
    | MarkAhead
    | Begin
    | LoadDirty(i: nat)
    | LockAndStamp(i: nat)
    | ReadVersion(i: nat)
    | ReadState(i: nat)

  function Init(): Stamper { Stamper(false, 0, [], {}, []) }

  function Put(s: Stamper, i: nat, n: Snapshot): Stamper
    requires i < |s.snaps|
  {
    s.(snaps := s.snaps[i := n])
  }

  predicate At(s: Stamper, i: nat, p: Progress) { i < |s.snaps| && s.snaps[i].at == p }

  /** The calls and the changes interleave freely. A mark set ahead of an effect completes no change. An event
      that is not possible changes nothing. */
  function Step(s: Stamper, e: Event): Stamper {
    match e
    case Apply => s.(appliedAt := s.appliedAt + [s.version])
    case MarkDirty(c) => if c < |s.appliedAt| then s.(dirty := true, complete := s.complete + {c}) else s
    case MarkAhead => s.(dirty := true)
    case Begin => s.(snaps := s.snaps + [Snapshot(s.complete, Begun, 0, 0)])
    case LoadDirty(i) =>
      if At(s, i, Begun) then Put(s, i, s.snaps[i].(at := if s.dirty then MustLock else Stamped)) else s
    case LockAndStamp(i) =>
      if At(s, i, MustLock) then
        var s' := Put(s, i, s.snaps[i].(at := Stamped));
        if s.dirty then s'.(dirty := false, version := s.version + 1) else s'
      else s
    case ReadVersion(i) =>
      if At(s, i, Stamped) then Put(s, i, s.snaps[i].(at := VersionRead, version := s.version)) else s
    case ReadState(i) =>
      if At(s, i, VersionRead) then Put(s, i, s.snaps[i].(at := Finished, seen := |s.appliedAt|)) else s
  }

  function Exec(es: seq<Event>): Stamper {
    if es == [] then Init() else Step(Exec(es[..|es| - 1]), es[|es| - 1])
  }

  ghost predicate SnapshotOk(s: Stamper, n: Snapshot) {
    && n.doneAtBegin <= s.complete
    && (n.at == Stamped ==> forall c <- n.doneAtBegin :: c < |s.appliedAt| && s.appliedAt[c] < s.version)
    && (n.at == VersionRead || n.at == Finished ==>
          n.version <= s.version && forall c <- n.doneAtBegin :: c < |s.appliedAt| && s.appliedAt[c] < n.version)
    && (n.at == Finished ==> forall c :: n.seen <= c < |s.appliedAt| ==> n.version <= s.appliedAt[c])
  }

  /** A complete change is either still marked dirty or already behind the current version. */
  ghost predicate Inv(s: Stamper) {
    && (forall c :: 0 <= c < |s.appliedAt| ==> s.appliedAt[c] <= s.version)
    && (forall c <- s.complete :: c < |s.appliedAt| && (s.dirty || s.appliedAt[c] < s.version))
    && (forall n <- s.snaps :: SnapshotOk(s, n))
  }

  lemma AdvanceKeeps(s: Stamper, e: Event, i: nat)
    requires Inv(s) && i < |s.snaps|
    requires e == LoadDirty(i) || e == LockAndStamp(i) || e == ReadVersion(i) || e == ReadState(i)
    ensures SnapshotOk(Step(s, e), Step(s, e).snaps[i])
  {
    assert SnapshotOk(s, s.snaps[i]);
  }

  lemma OtherSnapshotKept(s: Stamper, e: Event, n: Snapshot)
    requires Inv(s) && n in s.snaps
    ensures SnapshotOk(Step(s, e), n)
  {
    assert SnapshotOk(s, n);
  }

  lemma StepKeepsInv(s: Stamper, e: Event)
    requires Inv(s)
    ensures Inv(Step(s, e))
  {
    var s' := Step(s, e);
    forall n <- s'.snaps ensures SnapshotOk(s', n) {
      if n in s.snaps {
        OtherSnapshotKept(s, e, n);
      } else if e.LoadDirty? || e.LockAndStamp? || e.ReadVersion? || e.ReadState? {
        AdvanceKeeps(s, e, e.i);
      }
    }
  }

  lemma {:induction false} ExecKeepsInv(es: seq<Event>)
    ensures Inv(Exec(es))
  {
    if es != [] {
      ExecKeepsInv(es[..|es| - 1]);
      StepKeepsInv(Exec(es[..|es| - 1]), es[|es| - 1]);
    }
  }

  /** Under any interleaving, a snapshot begun after a change was complete carries a strictly larger version than
      any snapshot that misses the change. */
  lemma {:induction false} LaterSnapshotLargerVersion(es: seq<Event>, missing: Snapshot, later: Snapshot, c: nat)
    requires missing in Exec(es).snaps && later in Exec(es).snaps && missing.at == Finished && later.at == Finished
    requires c in later.doneAtBegin && missing.seen <= c
    ensures missing.version < later.version
  {
    ExecKeepsInv(es);
    assert SnapshotOk(Exec(es), missing) && SnapshotOk(Exec(es), later);
  }

  /** How often a run sets the dirty mark. */
  function Marks(es: seq<Event>): nat {
    if es == [] then 0
    else
      var e := es[|es| - 1];
      var marks := e.MarkAhead? || (e.MarkDirty? && e.c < |Exec(es[..|es| - 1]).appliedAt|);
      Marks(es[..|es| - 1]) + (if marks then 1 else 0)
  }

  /** However many snapshots race for the lock, no mark is spent on more than one version. */
  lemma {:induction false} MarkMakesAtMostOneVersion(es: seq<Event>)
    ensures Exec(es).version + (if Exec(es).dirty then 1 else 0) <= Marks(es)
  {
    if es != [] { MarkMakesAtMostOneVersion(es[..|es| - 1]); }
  }

  // ---------------------------------------------------------------------------------------------------------
  // Changes whose effect comes after their mark
  // ---------------------------------------------------------------------------------------------------------

  /** The state after one snapshot call that nothing interrupts. */
  function AfterSnapshot(s: Stamper): Stamper {
    var i := |s.snaps|;
    Step(Step(Step(Step(Step(s, Begin), LoadDirty(i)), LockAndStamp(i)), ReadVersion(i)), ReadState(i))
  }

  lemma SnapshotAlone(s: Stamper)
    ensures
      var s', i := AfterSnapshot(s), |s.snaps|;
      && |s'.snaps| == i + 1 && s'.snaps[..i] == s.snaps && !s'.dirty && s'.appliedAt == s.appliedAt
      && s'.version == (if s.dirty then s.version + 1 else s.version)
      && s'.snaps[i] == Snapshot(s.complete, Finished, s'.version, |s.appliedAt|)
  {
    var i := |s.snaps|;
    var s2 := Step(Step(s, Begin), LoadDirty(i));
    assert s2.snaps == s.snaps + [Snapshot(s.complete, if s.dirty then MustLock else Stamped, 0, 0)];
    var s3 := Step(s2, LockAndStamp(i));
    assert s3.snaps == s.snaps + [Snapshot(s.complete, Stamped, 0, 0)];
    var s4 := Step(s3, ReadVersion(i));
    assert s4.snaps == s.snaps + [Snapshot(s.complete, VersionRead, s3.version, 0)];
  }

  /** In every reachable state and for every change in effect, marked or not: the next snapshot exceeds the version
      at which the change took effect, and with it every snapshot that misses it, if and only if a mark is pending
      or a stamp was made since; a mark that follows the effect brings that about. */
  lemma NextSnapshotIsNewerIff(es: seq<Event>, c: nat)
    requires c < |Exec(es).appliedAt|
    ensures
      var s := Exec(es);
      var next := AfterSnapshot(s).snaps[|s.snaps|];
      && c < next.seen
      && (next.version > s.appliedAt[c] <==> s.dirty || s.appliedAt[c] < s.version)
      && (c in s.complete ==> next.version > s.appliedAt[c])
      && forall n <- s.snaps :: n.at == Finished && n.seen <= c ==> n.version <= s.appliedAt[c]
  {
    ExecKeepsInv(es);
    SnapshotAlone(Exec(es));
    forall n <- Exec(es).snaps | n.at == Finished && n.seen <= c ensures n.version <= Exec(es).appliedAt[c] {
      assert SnapshotOk(Exec(es), n);
    }
  }

  /** SetPermission stores the publisher flag after its mark and does not mark again: a snapshot in between takes
      the mark, and the one after the store carries the same version with a different content. */
  lemma EffectAfterMarkIsMissed()
    ensures
      var s1 := AfterSnapshot(Step(Init(), MarkAhead));
      var s2 := AfterSnapshot(Step(s1, Apply));
      && |s2.snaps| == 2 && s2.snaps[0].at == s2.snaps[1].at == Finished
      && s2.snaps[0].seen == 0 && s2.snaps[1].seen == 1
      && s2.snaps[0].version == s2.snaps[1].version == 1
  {
    var s1 := AfterSnapshot(Step(Init(), MarkAhead));
    SnapshotAlone(Step(Init(), MarkAhead));
    SnapshotAlone(Step(s1, Apply));
    var s2 := AfterSnapshot(Step(s1, Apply));
    assert s2.snaps[0] == s2.snaps[..1][0];
  }

  // ---------------------------------------------------------------------------------------------------------
  // The imperative code: setters and the stamp
  // ---------------------------------------------------------------------------------------------------------

  /** What SetAttributes leaves: an empty value deletes its key, any other value is written. */
  function Updated(before: map<string, string>, attrs: map<string, string>): map<string, string> {
    map k | k in before.Keys + attrs.Keys && (k in attrs ==> attrs[k] != "") ::
      if k in attrs then attrs[k] else before[k]
  }

  /** The loop state: all but the keys of `rest` are dealt with. */
  ghost predicate Written(before: map<string, string>, attrs: map<string, string>, rest: map<string, string>,
      grants: map<string, string>, keys: seq<string>)
  {
    && (forall k <- rest :: k in attrs && rest[k] == attrs[k])
    && (forall k :: k in keys <==> k in attrs && k !in rest && attrs[k] == "")
    && (forall k :: k in grants <==> k in before || (k in attrs && k !in rest && attrs[k] != ""))
    && (forall k <- grants :: grants[k] == if k in attrs && k !in rest && attrs[k] != "" then attrs[k] else before[k])
  }

  lemma WriteOne(before: map<string, string>, attrs: map<string, string>, rest: map<string, string>,
      grants: map<string, string>, keys: seq<string>, k: string)
    requires Written(before, attrs, rest, grants, keys) && k in rest
    ensures if rest[k] == "" then Written(before, attrs, rest - {k}, grants, keys + [k])
            else Written(before, attrs, rest - {k}, grants[k := rest[k]], keys)
  {
  }

  /** The first loop of SetAttributes: write the non-empty values, collect the keys of the empty ones. */
  method WriteAttributes(before: map<string, string>, attrs: map<string, string>)
    returns (grants: map<string, string>, keysToDelete: seq<string>)
    ensures forall k :: k in keysToDelete <==> k in attrs && attrs[k] == ""
    ensures forall k :: k in grants <==> k in before || (k in attrs && attrs[k] != "")
    ensures forall k <- grants :: grants[k] == if k in attrs && attrs[k] != "" then attrs[k] else before[k]
  {
    var rest := attrs;
    grants, keysToDelete := before, [];
    while rest != map[]
      invariant Written(before, attrs, rest, grants, keysToDelete)
      decreases |rest|
    {
      var k :| k in rest;
      WriteOne(before, attrs, rest, grants, keysToDelete, k);
      if rest[k] == "" {
        keysToDelete := keysToDelete + [k];
      } else {
        grants := grants[k := rest[k]];
      }
      assert (rest - {k}).Keys == rest.Keys - {k};
      rest := rest - {k};
    }
  }

  method DeleteKeys(m: map<string, string>, keys: seq<string>) returns (r: map<string, string>)
    ensures forall k :: k in r <==> k in m && k !in keys
    ensures forall k <- r :: r[k] == m[k]
  {
    r := m;
    for i := 0 to |keys|
      invariant forall k :: k in r <==> k in m && k !in keys[..i]
      invariant forall k <- r :: r[k] == m[k]
    {
      assert keys[..i + 1] == keys[..i] + [keys[i]];
      r := r - {keys[i]};
    }
    assert keys[..|keys|] == keys;
  }

  lemma UpdatedIs(before: map<string, string>, attrs: map<string, string>,
      written: map<string, string>, keys: seq<string>, r: map<string, string>)
    requires forall k :: k in keys <==> k in attrs && attrs[k] == ""
    requires forall k :: k in written <==> k in before || (k in attrs && attrs[k] != "")
    requires forall k <- written :: written[k] == if k in attrs && attrs[k] != "" then attrs[k] else before[k]
    requires forall k :: k in r <==> k in written && k !in keys
    requires forall k <- r :: r[k] == written[k]
    ensures r == Updated(before, attrs)
  {
  }

  class ParticipantImpl {
    var name: string
    var metadata: string
    var attributes: map<string, string>
    var requireBroadcast: bool
    var permission: nat
    var isPublisher: bool
    var state: nat
    var dirty: bool
    var version: nat

    constructor (permission: nat)
      ensures !dirty && version == 0 && state == 0 && attributes == map[] && name == metadata == "" && !requireBroadcast
      ensures this.permission == permission && !isPublisher
    {
      name, metadata, attributes, requireBroadcast, state, dirty, version := "", "", map[], false, 0, false, 0;
      this.permission, isPublisher := permission, false;
    }

    /** The locked part of SetPermission: a changed permission marks dirty. */
    method SetPermission(permission: nat, isPublisher: bool) returns (changed: bool)
      modifies this`permission, this`dirty, this`requireBroadcast
      ensures this.permission == permission && changed == (old(this.permission) != permission)
      ensures dirty == (old(dirty) || changed)
      ensures requireBroadcast == (old(requireBroadcast) || (changed && isPublisher))
    {
      if this.permission == permission {
        return false;
      }
      this.permission := permission;
      dirty := true;
      requireBroadcast := requireBroadcast || isPublisher;
      return true;
    }

    /** Its last part, after the lock is released and tracks and subscriptions are revoked: no mark. */
    method StoreIsPublisher(isPublisher: bool)
      modifies this`isPublisher
      ensures this.isPublisher == isPublisher
    {
      this.isPublisher := isPublisher;
    }

    method SetName(name: string) returns (changed: bool)
      modifies this`name, this`dirty
      ensures this.name == name && changed == (old(this.name) != name)
      ensures dirty == (old(dirty) || changed)
    {
      if this.name == name {
        return false;
      }
      this.name := name;
      dirty := true;
      return true;
    }

    method SetMetadata(metadata: string) returns (changed: bool)
      modifies this`metadata, this`dirty, this`requireBroadcast
      ensures this.metadata == metadata && changed == (old(this.metadata) != metadata)
      ensures dirty == (old(dirty) || changed)
      ensures requireBroadcast == (old(requireBroadcast) || (changed && metadata != ""))
    {
      if this.metadata == metadata {
        return false;
      }
      this.metadata := metadata;
      requireBroadcast := requireBroadcast || metadata != "";
      dirty := true;
      return true;
    }

    /** Marks dirty even when no value changes, unless the request is empty. */
    method SetAttributes(attrs: map<string, string>)
      modifies this`attributes, this`dirty, this`requireBroadcast
      ensures attributes == Updated(old(attributes), attrs)
      ensures dirty == (old(dirty) || attrs != map[])
      ensures requireBroadcast == (old(requireBroadcast) || attrs != map[])
    {
      if |attrs| == 0 {
        UpdatedIs(attributes, attrs, attributes, [], attributes);
        return;
      }
      var written, keysToDelete := WriteAttributes(attributes, attrs);
      var grants := DeleteKeys(written, keysToDelete);
      UpdatedIs(attributes, attrs, written, keysToDelete, grants);
      attributes := grants;
      requireBroadcast := true;
      dirty := true;
    }

    /** States only move forward. */
    method UpdateState(state: nat) returns (changed: bool)
      modifies this`state, this`dirty
      ensures this.state == (if state > old(this.state) then state else old(this.state))
      ensures changed == (state > old(this.state)) && dirty == (old(dirty) || changed)
    {
      if state <= this.state {
        return false;
      }
      this.state := state;
      dirty := true;
      return true;
    }

    /** With no call in between, a stamp turns any number of changes into one new version. */
    method MaybeIncVersion()
      modifies this`dirty, this`version
      ensures !dirty && version == old(version) + (if old(dirty) then 1 else 0)
    {
      if dirty {
        dirty := false;
        version := version + 1;
      }
    }
  }
}
