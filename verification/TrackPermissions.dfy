/** Subscription permissions of pkg/rtc/uptrackmanager.go: one table, its two readers, and the revocation of
    subscribers (pkg/rtc/mediatrackreceiver.go) after an update. */
module TrackPermissions {
  import opened Wrappers

  type Identity = string
  type Sid = string
  type TrackID = string

  /** An empty identity or sid means that it was not given. */
  datatype TrackPermission = TrackPermission(identity: Identity, sid: Sid, allTracks: bool, trackSids: seq<TrackID>)

  datatype SubscriptionPermission =
    SubscriptionPermission(allParticipants: bool, trackPermissions: seq<TrackPermission>)

  /** None is the nil table: no restriction at all. */
  type Table = Option<map<Identity, TrackPermission>>

  // ---------------------------------------------------------------------------------------------------------
  // Parsing and reading the table
  // ---------------------------------------------------------------------------------------------------------

  /** Whom a permission is for: nobody when its sid does not resolve, an error when it names nobody. */
  function Subject(p: TrackPermission, resolver: map<Sid, Identity>): Result<Option<Identity>, ()> {
    if p.identity != "" then Ok(Some(p.identity))
    else if p.sid == "" then Err(())
    else if p.sid in resolver then Ok(Some(resolver[p.sid])) else Ok(None)
  }

  function ParseAll(ps: seq<TrackPermission>, resolver: map<Sid, Identity>)
    : Result<map<Identity, TrackPermission>, ()>
  {
    if ps == [] then Ok(map[])
    else
      match ParseAll(ps[..|ps| - 1], resolver)
      case Err(_) => Err(())
      case Ok(table) =>
        match Subject(ps[|ps| - 1], resolver)
        case Err(_) => Err(())
        case Ok(None) => Ok(table)
        case Ok(Some(id)) => Ok(table[id := ps[|ps| - 1]])
  }

  function Parse(sp: SubscriptionPermission, resolver: map<Sid, Identity>): Result<Table, ()> {
    if sp.allParticipants then Ok(None)
    else
      match ParseAll(sp.trackPermissions, resolver)
      case Err(_) => Err(())
      case Ok(table) => Ok(Some(table))
  }

  /** hasPermissionLocked. */
  predicate HasPermission(table: Table, track: TrackID, id: Identity) {
    table.None? || (id in table.value && (table.value[id].allTracks || track in table.value[id].trackSids))
  }

  /** What an update grants, without reference to the table: everything if it names all participants, otherwise
      what the last permission for the identity grants. */
  ghost predicate Grants(sp: SubscriptionPermission, resolver: map<Sid, Identity>, track: TrackID, id: Identity) {
    sp.allParticipants ||
    exists i :: 0 <= i < |sp.trackPermissions| && DecidesFor(sp.trackPermissions, resolver, i, id)
                && (sp.trackPermissions[i].allTracks || track in sp.trackPermissions[i].trackSids)
  }

  /** A permission is for the identity it names, or if it names none, for that of the sid it names. */
  predicate Names(p: TrackPermission, resolver: map<Sid, Identity>, id: Identity) {
    if p.identity != "" then p.identity == id else p.sid != "" && p.sid in resolver && resolver[p.sid] == id
  }

  ghost predicate DecidesFor(ps: seq<TrackPermission>, resolver: map<Sid, Identity>, i: nat, id: Identity)
    requires i < |ps|
  {
    Names(ps[i], resolver, id) && forall j :: i < j < |ps| ==> !Names(ps[j], resolver, id)
  }

  /** Every entry of a parsed table is the last permission that names its identity, and all named are in it. */
  ghost predicate Decided(
    ps: seq<TrackPermission>, resolver: map<Sid, Identity>, table: map<Identity, TrackPermission>)
  {
    && (forall id <- table :: exists i :: 0 <= i < |ps| && DecidesFor(ps, resolver, i, id) && ps[i] == table[id])
    && (forall i :: 0 <= i < |ps| && Subject(ps[i], resolver).Ok? && Subject(ps[i], resolver).value.Some? ==>
          Subject(ps[i], resolver).value.value in table)
  }

  lemma DecidedSnoc(ps: seq<TrackPermission>, resolver: map<Sid, Identity>, table: map<Identity, TrackPermission>,
                    p: TrackPermission)
    requires Decided(ps, resolver, table) && Subject(p, resolver).Ok?
    ensures
      var s := Subject(p, resolver).value;
      Decided(ps + [p], resolver, if s.Some? then table[s.value := p] else table)
  {
    var ps', s := ps + [p], Subject(p, resolver).value;
    var table' := if s.Some? then table[s.value := p] else table;
    forall id <- table' ensures exists i :: 0 <= i < |ps'| && DecidesFor(ps', resolver, i, id) && ps'[i] == table'[id] {
      if s == Some(id) {
        assert DecidesFor(ps', resolver, |ps|, id) && ps'[|ps|] == p;
      } else {
        var i :| 0 <= i < |ps| && DecidesFor(ps, resolver, i, id) && ps[i] == table[id];
        assert DecidesFor(ps', resolver, i, id) && ps'[i] == table[id];
      }
    }
  }

  lemma {:induction false} ParseAllFacts(ps: seq<TrackPermission>, resolver: map<Sid, Identity>)
    ensures ParseAll(ps, resolver).Err? <==> exists i :: 0 <= i < |ps| && Subject(ps[i], resolver).Err?
    ensures ParseAll(ps, resolver).Ok? ==> Decided(ps, resolver, ParseAll(ps, resolver).value)
  {
    if ps != [] {
      var n := |ps| - 1;
      var init, p := ps[..n], ps[n];
      ParseAllFacts(init, resolver);
      assert ps == init + [p];
      if ParseAll(init, resolver).Ok? && Subject(p, resolver).Ok? {
        DecidedSnoc(init, resolver, ParseAll(init, resolver).value, p);
      } else if ParseAll(init, resolver).Err? {
        var i :| 0 <= i < n && Subject(init[i], resolver).Err?;
        assert Subject(ps[i], resolver).Err?;
      }
    }
  }

  lemma OneDecides(ps: seq<TrackPermission>, resolver: map<Sid, Identity>, i: nat, k: nat, id: Identity)
    requires i < |ps| && k < |ps| && DecidesFor(ps, resolver, i, id) && DecidesFor(ps, resolver, k, id)
    ensures i == k
  {
  }

  lemma FailsIffNobodyNamed(ps: seq<TrackPermission>, resolver: map<Sid, Identity>)
    ensures ParseAll(ps, resolver).Err? <==> exists p <- ps :: p.identity == "" && p.sid == ""
  {
    ParseAllFacts(ps, resolver);
    if p :| p in ps && p.identity == "" && p.sid == "" {
      var i :| 0 <= i < |ps| && ps[i] == p;
      assert Subject(ps[i], resolver).Err?;
    }
  }

  lemma TableGrants(sp: SubscriptionPermission, resolver: map<Sid, Identity>, track: TrackID, id: Identity)
    requires !sp.allParticipants && ParseAll(sp.trackPermissions, resolver).Ok?
    ensures HasPermission(Some(ParseAll(sp.trackPermissions, resolver).value), track, id)
       <==> Grants(sp, resolver, track, id)
  {
    var ps := sp.trackPermissions;
    ParseAllFacts(ps, resolver);
    var table := ParseAll(ps, resolver).value;
    if id in table {
      var i :| 0 <= i < |ps| && DecidesFor(ps, resolver, i, id) && ps[i] == table[id];
      forall k | 0 <= k < |ps| && DecidesFor(ps, resolver, k, id) ensures k == i {
        OneDecides(ps, resolver, i, k, id);
      }
    }
  }

  /** A parsed update grants through the table exactly what it says, and it fails to parse exactly when it is
      restricted and some permission names neither identity nor sid. */
  lemma ParseMeansGrants(sp: SubscriptionPermission, resolver: map<Sid, Identity>, track: TrackID, id: Identity)
    ensures Parse(sp, resolver).Err? <==>
              !sp.allParticipants && exists p <- sp.trackPermissions :: p.identity == "" && p.sid == ""
    ensures Parse(sp, resolver).Ok? ==>
              (HasPermission(Parse(sp, resolver).value, track, id) <==> Grants(sp, resolver, track, id))
  {
    FailsIffNobodyNamed(sp.trackPermissions, resolver);
    if !sp.allParticipants && Parse(sp, resolver).Ok? { TableGrants(sp, resolver, track, id); }
  }

  // ---------------------------------------------------------------------------------------------------------
  // Updates
  // ---------------------------------------------------------------------------------------------------------

  /** `stored` is the permission kept for migration, `table` the effective one. */
  datatype Permissions = Permissions(version: nat, stored: Option<SubscriptionPermission>, table: Table)

  datatype Outcome = Skipped | Cleared | Failed | Applied

  /** UpdateSubscriptionPermission; version 0 means that the request comes from this node, which then takes the
      next local version. */
  function Update(
    p: Permissions, sp: Option<SubscriptionPermission>, version: nat, nextLocal: nat, resolver: map<Sid, Identity>)
    : (Permissions, Outcome)
  {
    if version != 0 && version <= p.version then (p, Skipped)
    else
      var v := if version != 0 then version else if nextLocal > p.version then nextLocal else p.version;
      var p' := p.(version := v, stored := sp);
      if sp.None? then (p', Cleared)
      else
        match Parse(sp.value, resolver)
        case Err(_) => (p', Failed)
        case Ok(table) => (p'.(table := table), Applied)
  }

  /** Only an update that applies touches the effective table; every other one grants exactly what was granted. */
  lemma OnlyAppliedChangesGrants(p: Permissions, sp: Option<SubscriptionPermission>, version: nat, nextLocal: nat,
      resolver: map<Sid, Identity>, track: TrackID, id: Identity)
    ensures
      var (p', outcome) := Update(p, sp, version, nextLocal, resolver);
      && p'.version >= p.version
      && (outcome == Applied ==> (HasPermission(p'.table, track, id) <==> Grants(sp.value, resolver, track, id)))
      && (outcome != Applied ==> p'.table == p.table)
      && (outcome == Skipped <==> version != 0 && version <= p.version)
  {
    if sp.Some? { ParseMeansGrants(sp.value, resolver, track, id); }
  }

  /** An update that is not skipped records its version: its own, or the next local one unless that is older. It
      records the permission as it is, and what it did follows from that permission. */
  lemma UpdateRecords(p: Permissions, sp: Option<SubscriptionPermission>, version: nat, nextLocal: nat,
      resolver: map<Sid, Identity>)
    ensures
      var (p', outcome) := Update(p, sp, version, nextLocal, resolver);
      if 0 < version <= p.version then p' == p && outcome == Skipped
      else
        && p'.stored == sp
        && (version > 0 ==> p'.version == version)
        && (version == 0 ==> p'.version >= p.version && p'.version >= nextLocal && p'.version in {p.version, nextLocal})
        && outcome == (if sp == None then Cleared
                       else if !sp.value.allParticipants
                               && exists q <- sp.value.trackPermissions :: q.identity == "" && q.sid == ""
                       then Failed else Applied)
  {
    if sp.Some? { ParseMeansGrants(sp.value, resolver, "", ""); }
  }

  /** The stored permission is the one whose table is in effect. */
  ghost predicate StoredInEffect(p: Permissions, resolver: map<Sid, Identity>) {
    p.stored.Some? && Parse(p.stored.value, resolver) == Ok(p.table)
  }

  /** A failed update keeps the old table but not the old stored permission, which is the one handed over on
      migration: after an update that is not skipped, the stored permission is the one in effect if and only if
      the update named a permission that parses. */
  lemma StoredInEffectIffParsed(p: Permissions, sp: Option<SubscriptionPermission>, version: nat, nextLocal: nat,
      resolver: map<Sid, Identity>)
    requires version == 0 || version > p.version
    ensures StoredInEffect(Update(p, sp, version, nextLocal, resolver).0, resolver)
       <==> && sp.Some?
            && (sp.value.allParticipants || forall q <- sp.value.trackPermissions :: q.identity != "" || q.sid != "")
  {
    if sp.Some? { ParseMeansGrants(sp.value, resolver, "", ""); }
  }

  // ---------------------------------------------------------------------------------------------------------
  // Overlapping updates: resolving a sid releases the lock
  // ---------------------------------------------------------------------------------------------------------

  /** An update between its version check and the installation of its table. */
  datatype Parsing = Parsing(version: nat, table: Table)

  /** Three histories: the table of every version accepted, the versions installed so far, in order, and those that
      failed to parse. */
  datatype Shared = Shared(
    version: nat, inFlight: seq<Parsing>, table: Table,
    accepted: map<nat, Table>, installed: seq<nat>, failed: set<nat>)

  datatype Event = Begin(version: nat, table: Table) | Install(i: nat) | Fail(i: nat)

  function Without(ps: seq<Parsing>, i: nat): seq<Parsing>
    requires i < |ps|
  {
    ps[..i] + ps[i + 1..]
  }

  function Step(s: Shared, e: Event): Shared {
    match e
    case Begin(v, table) =>
      if v > s.version then
        s.(version := v, inFlight := s.inFlight + [Parsing(v, table)], accepted := s.accepted[v := table])
      else s
    case Install(i) =>
      if i < |s.inFlight| then
        s.(table := s.inFlight[i].table, installed := s.installed + [s.inFlight[i].version],
           inFlight := Without(s.inFlight, i))
      else s
    case Fail(i) =>
      if i < |s.inFlight| then
        s.(failed := s.failed + {s.inFlight[i].version}, inFlight := Without(s.inFlight, i))
      else s
  }

  function Exec(es: seq<Event>): Shared {
    if es == [] then Shared(0, [], None, map[], [], {}) else Step(Exec(es[..|es| - 1]), es[|es| - 1])
  }

  ghost predicate Increasing(vs: seq<nat>) { forall j, k :: 0 <= j < k < |vs| ==> vs[j] < vs[k] }

  function Versions(ps: seq<Parsing>): seq<nat> { seq(|ps|, i requires 0 <= i < |ps| => ps[i].version) }

  /** In every reachable state: updates are in flight in the order of their versions; what was accepted is in flight,
      installed or failed; and the table in effect is the one installed last. */
  ghost predicate VersionsOk(s: Shared) {
    && Increasing(Versions(s.inFlight))
    && (forall v <- s.accepted :: v <= s.version)
    && (forall p <- s.inFlight :: p.version in s.accepted && s.accepted[p.version] == p.table)
    && (forall v <- s.installed :: v in s.accepted)
    && (s.installed != [] ==> s.table == s.accepted[s.installed[|s.installed| - 1]])
    && (forall v <- s.accepted :: v in s.installed || v in s.failed || exists p <- s.inFlight :: p.version == v)
  }

  lemma IncreasingSnoc(vs: seq<nat>, v: nat)
    ensures Increasing(vs + [v]) <==> Increasing(vs) && forall x <- vs :: x < v
  {
    var all := vs + [v];
    assert forall k :: 0 <= k < |vs| ==> all[k] == vs[k];
    assert all[|vs|] == v;
    if Increasing(all) {
      forall x <- vs ensures x < v {
        var k :| 0 <= k < |vs| && vs[k] == x;
      }
    } else if forall x <- vs :: x < v {
      assert forall k :: 0 <= k < |vs| ==> vs[k] in vs;
    }
  }

  lemma AcceptedStays(s: Shared, v: nat, table: Table, u: nat)
    requires VersionsOk(s) && v > s.version && u in s.accepted[v := table]
    ensures
      var s' := Step(s, Begin(v, table));
      u in s'.installed || u in s'.failed || exists p <- s'.inFlight :: p.version == u
  {
    var s' := Step(s, Begin(v, table));
    if u == v {
      assert s'.inFlight[|s.inFlight|] in s'.inFlight;
    } else if u !in s.installed && u !in s.failed {
      var p :| p in s.inFlight && p.version == u;
      assert p in s'.inFlight;
    }
  }

  lemma BeginKeeps(s: Shared, v: nat, table: Table)
    requires VersionsOk(s)
    ensures VersionsOk(Step(s, Begin(v, table)))
  {
    if v > s.version {
      var s' := Step(s, Begin(v, table));
      assert Versions(s'.inFlight) == Versions(s.inFlight) + [v];
      forall x <- Versions(s.inFlight) ensures x < v {
        var k :| 0 <= k < |s.inFlight| && s.inFlight[k].version == x;
        assert s.inFlight[k] in s.inFlight;
      }
      IncreasingSnoc(Versions(s.inFlight), v);
      forall u <- s'.accepted ensures u in s'.installed || u in s'.failed || exists p <- s'.inFlight :: p.version == u {
        AcceptedStays(s, v, table, u);
      }
    }
  }

  lemma WithoutFacts(ps: seq<Parsing>, i: nat)
    requires i < |ps|
    ensures forall p <- Without(ps, i) :: p in ps
    ensures forall p <- ps :: p == ps[i] || p in Without(ps, i)
    ensures Increasing(Versions(ps)) ==> Increasing(Versions(Without(ps, i)))
  {
    var rest := Without(ps, i);
    forall p <- ps ensures p == ps[i] || p in rest {
      var k :| 0 <= k < |ps| && ps[k] == p;
      if k < i { assert rest[k] == p; } else if k > i { assert rest[k - 1] == p; }
    }
    if Increasing(Versions(ps)) {
      assert forall k :: 0 <= k < |rest| ==> Versions(rest)[k] == Versions(ps)[if k < i then k else k + 1];
    }
  }

  lemma LeaveKeeps(s: Shared, e: Event)
    requires VersionsOk(s) && !e.Begin?
    ensures VersionsOk(Step(s, e))
  {
    if e.i < |s.inFlight| {
      var s' := Step(s, e);
      WithoutFacts(s.inFlight, e.i);
      assert s.inFlight[e.i] in s.inFlight;
      forall v <- s'.accepted ensures v in s'.installed || v in s'.failed || exists p <- s'.inFlight :: p.version == v {
        if v !in s.installed && v !in s.failed {
          var p :| p in s.inFlight && p.version == v;
          if e.Install? && p == s.inFlight[e.i] { assert s'.installed[|s.installed|] == v; }
        }
      }
    }
  }

  lemma {:induction false} ExecVersionsOk(es: seq<Event>)
    ensures VersionsOk(Exec(es))
  {
    if es != [] {
      ExecVersionsOk(es[..|es| - 1]);
      if es[|es| - 1].Begin? {
        BeginKeeps(Exec(es[..|es| - 1]), es[|es| - 1].version, es[|es| - 1].table);
      } else {
        LeaveKeeps(Exec(es[..|es| - 1]), es[|es| - 1]);
      }
    }
  }

  /** The guard the code lacks: an update that installs is newer than every table installed before. */
  predicate InstallsNewer(s: Shared, e: Event) {
    e.Install? && e.i < |s.inFlight| ==> forall v <- s.installed :: v < s.inFlight[e.i].version
  }

  /** Every install of the run is. */
  predicate AllInstallNewer(es: seq<Event>) {
    es == [] || (AllInstallNewer(es[..|es| - 1]) && InstallsNewer(Exec(es[..|es| - 1]), es[|es| - 1]))
  }

  lemma StepInstallsIff(s: Shared, e: Event)
    ensures Increasing(Step(s, e).installed) <==> Increasing(s.installed) && InstallsNewer(s, e)
  {
    if e.Install? && e.i < |s.inFlight| { IncreasingSnoc(s.installed, s.inFlight[e.i].version); }
  }

  lemma {:induction false} IncreasingIffNewer(es: seq<Event>)
    ensures Increasing(Exec(es).installed) <==> AllInstallNewer(es)
  {
    if es != [] {
      IncreasingIffNewer(es[..|es| - 1]);
      StepInstallsIff(Exec(es[..|es| - 1]), es[|es| - 1]);
    }
  }

  lemma {:induction false} LastIsLargest(vs: seq<nat>)
    requires Increasing(vs) && vs != []
    ensures forall v <- vs :: v <= vs[|vs| - 1]
  {
  }

  lemma NewestInEffect(s: Shared, v: nat)
    requires VersionsOk(s) && Increasing(s.installed) && s.inFlight == [] && v in s.accepted && v !in s.failed
    ensures exists w <- s.accepted :: v <= w && w in s.installed && s.table == s.accepted[w]
  {
    assert v in s.installed;
    LastIsLargest(s.installed);
    var w := s.installed[|s.installed| - 1];
    assert w in s.installed && w in s.accepted && v <= w && s.table == s.accepted[w];
  }

  /** Over every run of overlapping updates, of which any may fail: the tables in effect never go back to an older
      version if and only if each update that installs is newer than all installed before it. In that case, once
      none is in flight, the table in effect is that of the newest accepted update that did not fail. */
  lemma TablesNeverGoBackIff(es: seq<Event>)
    ensures Increasing(Exec(es).installed) <==> AllInstallNewer(es)
    ensures
      var s := Exec(es);
      AllInstallNewer(es) && s.inFlight == [] ==>
        forall v <- s.accepted :: v !in s.failed ==>
          exists w <- s.accepted :: v <= w && w in s.installed && s.table == s.accepted[w]
  {
    var s := Exec(es);
    IncreasingIffNewer(es);
    ExecVersionsOk(es);
    if AllInstallNewer(es) && s.inFlight == [] {
      forall v <- s.accepted | v !in s.failed
        ensures exists w <- s.accepted :: v <= w && w in s.installed && s.table == s.accepted[w]
      {
        NewestInEffect(s, v);
      }
    }
  }

  /** No install of the run overtakes an older update in flight. */
  predicate OldestFirst(es: seq<Event>) {
    es == [] || (OldestFirst(es[..|es| - 1])
                 && (es[|es| - 1].Install? && es[|es| - 1].i < |Exec(es[..|es| - 1]).inFlight| ==> es[|es| - 1].i == 0))
  }

  /** What was installed, followed by what is in flight, is in order. */
  ghost predicate InOrder(s: Shared) { Increasing(s.installed + Versions(s.inFlight)) }

  lemma BeginKeepsOrder(s: Shared, v: nat, table: Table)
    requires VersionsOk(s) && InOrder(s)
    ensures InOrder(Step(s, Begin(v, table)))
  {
    if v > s.version {
      var vs, s' := s.installed + Versions(s.inFlight), Step(s, Begin(v, table));
      forall x <- vs ensures x < v {
        if x !in s.installed {
          var k :| 0 <= k < |s.inFlight| && s.inFlight[k].version == x;
          assert s.inFlight[k] in s.inFlight;
        }
      }
      assert s'.installed + Versions(s'.inFlight) == vs + [v];
      IncreasingSnoc(vs, v);
    }
  }

  lemma OldestInstallKeepsOrder(s: Shared)
    requires s.inFlight != []
    ensures InOrder(Step(s, Install(0))) <==> InOrder(s)
  {
    var s' := Step(s, Install(0));
    assert s'.inFlight == s.inFlight[1..];
    assert s'.installed + Versions(s'.inFlight) == s.installed + Versions(s.inFlight);
  }

  lemma OvertakingBreaksOrder(s: Shared, i: nat)
    requires VersionsOk(s) && 0 < i < |s.inFlight|
    ensures !InOrder(Step(s, Install(i)))
  {
    var s', n := Step(s, Install(i)), |s.installed|;
    assert Versions(s.inFlight)[0] < Versions(s.inFlight)[i];
    assert s'.installed[n] == s.inFlight[i].version && s'.inFlight[0] == s.inFlight[0];
    var vs := s'.installed + Versions(s'.inFlight);
    assert vs[n] == s.inFlight[i].version && vs[n + 1] == s.inFlight[0].version;
  }

  /** Installing keeps the order of all updates exactly when it is the oldest in flight that installs. */
  lemma InstallKeepsOrderIff(s: Shared, i: nat)
    requires VersionsOk(s) && i < |s.inFlight|
    ensures InOrder(Step(s, Install(i))) <==> InOrder(s) && i == 0
  {
    if i == 0 { OldestInstallKeepsOrder(s); } else { OvertakingBreaksOrder(s, i); }
  }

  lemma FailKeepsOrder(s: Shared, i: nat)
    requires InOrder(s) && i < |s.inFlight|
    ensures InOrder(Step(s, Fail(i)))
  {
    var vs, s' := s.installed + Versions(s.inFlight), Step(s, Fail(i));
    var vs', n := s'.installed + Versions(s'.inFlight), |s.installed| + i;
    assert forall k :: 0 <= k < |vs'| ==> vs'[k] == vs[if k < n then k else k + 1];
  }

  /** Installing the oldest update in flight first is enough, and if every update installs it is also necessary. */
  lemma {:induction false} OldestFirstSuffices(es: seq<Event>)
    requires OldestFirst(es)
    ensures InOrder(Exec(es)) && AllInstallNewer(es)
  {
    if es != [] {
      var init, e := es[..|es| - 1], es[|es| - 1];
      OldestFirstSuffices(init);
      ExecVersionsOk(init);
      match e {
        case Begin(v, table) => BeginKeepsOrder(Exec(init), v, table);
        case Install(i) => if i < |Exec(init).inFlight| { OldestInstallKeepsOrder(Exec(init)); }
        case Fail(i) => if i < |Exec(init).inFlight| { FailKeepsOrder(Exec(init), i); }
      }
      PrefixIncreasing(Exec(es).installed, Versions(Exec(es).inFlight));
      IncreasingIffNewer(es);
    }
  }

  lemma PrefixIncreasing(vs: seq<nat>, ws: seq<nat>)
    requires Increasing(vs + ws)
    ensures Increasing(vs)
  {
    assert forall k :: 0 <= k < |vs| ==> (vs + ws)[k] == vs[k];
  }

  /** An overtaken update still in flight, or one that installed after it was overtaken. */
  ghost predicate Overtaken(s: Shared) {
    !Increasing(s.installed) || exists v <- s.installed, p <- s.inFlight :: p.version < v
  }

  lemma OvertakenStays(s: Shared, e: Event)
    requires VersionsOk(s) && Overtaken(s) && !e.Fail?
    ensures Overtaken(Step(s, e))
  {
    StepInstallsIff(s, e);
    if Increasing(s.installed) {
      var v, p :| v in s.installed && p in s.inFlight && p.version < v;
      var s' := Step(s, e);
      assert v in s'.installed;
      if e.Install? && e.i < |s.inFlight| {
        WithoutFacts(s.inFlight, e.i);
      } else {
        assert p in s'.inFlight;
      }
    }
  }

  lemma {:induction false} OvertakenUnlessOldestFirst(es: seq<Event>)
    requires forall k :: 0 <= k < |es| ==> !es[k].Fail?
    ensures OldestFirst(es) || Overtaken(Exec(es))
  {
    if es != [] && !OldestFirst(es) {
      var init, e := es[..|es| - 1], es[|es| - 1];
      var s := Exec(init);
      assert forall k :: 0 <= k < |init| ==> init[k] == es[k];
      ExecVersionsOk(init);
      if OldestFirst(init) {
        assert Versions(s.inFlight)[0] < Versions(s.inFlight)[e.i];
        var s', v, p := Step(s, e), s.inFlight[e.i].version, s.inFlight[0];
        assert s'.installed[|s.installed|] == v && s'.inFlight[0] == p;
        assert v in s'.installed && p in s'.inFlight && p.version < v;
      } else {
        OvertakenUnlessOldestFirst(init);
        OvertakenStays(s, e);
      }
    }
  }

  /** Without failures, once none is in flight: the tables never went back if and only if no update installed before
      an older one still in flight. */
  lemma WithoutFailuresOldestFirst(es: seq<Event>)
    requires Exec(es).inFlight == [] && forall k :: 0 <= k < |es| ==> !es[k].Fail?
    ensures Increasing(Exec(es).installed) <==> OldestFirst(es)
  {
    if OldestFirst(es) {
      OldestFirstSuffices(es);
      IncreasingIffNewer(es);
    } else {
      OvertakenUnlessOldestFirst(es);
    }
  }

  /** The lock alone does not ensure that order: in every reachable state any update but the oldest in flight can
      install first, and when the oldest then follows, its older table takes effect again. */
  lemma OvertakenInstallGoesBack(es: seq<Event>, i: nat)
    requires 0 < i < |Exec(es).inFlight|
    ensures
      var s, s' := Exec(es), Exec(es + [Install(i)] + [Install(0)]);
      var n := |s.installed|;
      && s'.table == s.inFlight[0].table
      && s'.installed == s.installed + [s.inFlight[i].version, s.inFlight[0].version]
      && s'.installed[n + 1] < s'.installed[n] <= s'.version
  {
    ExecVersionsOk(es);
    var s := Exec(es);
    var s1 := Step(s, Install(i));
    assert (es + [Install(i)])[..|es|] == es;
    assert (es + [Install(i)] + [Install(0)])[..|es| + 1] == es + [Install(i)];
    assert s1.inFlight[0] == s.inFlight[0] && s.inFlight[i] in s.inFlight;
    assert Versions(s.inFlight)[0] < Versions(s.inFlight)[i];
  }

  /** Such states are reached by any two updates of which the second is newer. */
  lemma TwoInFlight(v: nat, w: nat, older: Table, newer: Table)
    requires 0 < v < w
    ensures Exec([Begin(v, older), Begin(w, newer)]).inFlight == [Parsing(v, older), Parsing(w, newer)]
  {
    var es := [Begin(v, older), Begin(w, newer)];
    assert es[..1] == [Begin(v, older)] && [Begin(v, older)][..0] == [];
    assert Exec([Begin(v, older)]).inFlight == [Parsing(v, older)];
  }

  // ---------------------------------------------------------------------------------------------------------
  // The imperative code
  // ---------------------------------------------------------------------------------------------------------

  datatype Subscriber = Subscriber(identity: Identity, exempt: bool)

  /** The subscribers of a track that may stay. */
  function Keep(subs: map<Sid, Subscriber>, table: Table, track: TrackID): map<Sid, Subscriber> {
    map s | s in subs && (subs[s].exempt || HasPermission(table, track, subs[s].identity)) :: subs[s]
  }

  /** Under the table of an update that applied, a subscriber stays exactly when it is exempt or the update grants it
      the track. */
  lemma StaysIffGranted(subs: map<Sid, Subscriber>, sp: SubscriptionPermission, resolver: map<Sid, Identity>,
      track: TrackID, sid: Sid)
    requires Parse(sp, resolver).Ok?
    ensures
      var kept := Keep(subs, Parse(sp, resolver).value, track);
      && (sid in kept <==> sid in subs && (subs[sid].exempt || Grants(sp, resolver, track, subs[sid].identity)))
      && (sid in kept ==> kept[sid] == subs[sid])
  {
    if sid in subs { ParseMeansGrants(sp, resolver, track, subs[sid].identity); }
  }

  class MediaTrack {
    var subscribers: map<Sid, Subscriber>

    constructor ()
      ensures subscribers == map[]
    {
      subscribers := map[];
    }

    method RevokeDisallowedSubscribers(allowed: seq<Identity>) returns (revoked: seq<Identity>)
      modifies this
      ensures forall s :: s in subscribers <==>
                s in old(subscribers) && (old(subscribers)[s].exempt || old(subscribers)[s].identity in allowed)
      ensures forall s <- subscribers :: subscribers[s] == old(subscribers)[s]
      ensures forall id :: id in revoked <==>
                exists s <- old(subscribers) :: s !in subscribers && old(subscribers)[s].identity == id
    {
      revoked := [];
      var rest := subscribers;
      while rest != map[]
        invariant forall s <- rest :: s in subscribers && s in old(subscribers) && rest[s] == old(subscribers)[s]
        invariant forall s :: s in subscribers <==>
                    && s in old(subscribers)
                    && (s in rest || old(subscribers)[s].exempt || old(subscribers)[s].identity in allowed)
        invariant forall s <- subscribers :: subscribers[s] == old(subscribers)[s]
        invariant forall id :: id in revoked <==>
                    exists s <- old(subscribers) :: s !in subscribers && old(subscribers)[s].identity == id
        decreases |rest|
      {
        var s :| s in rest;
        ghost var before := subscribers;
        if !rest[s].exempt && rest[s].identity !in allowed {
          subscribers := subscribers - {s};
          revoked := revoked + [rest[s].identity];
          forall id ensures id in revoked <==>
              exists q <- old(subscribers) :: q !in subscribers && old(subscribers)[q].identity == id {
            if q :| q in old(subscribers) && q !in subscribers && old(subscribers)[q].identity == id {
              assert q == s || q !in before;
            }
          }
        }
        assert (rest - {s}).Keys == rest.Keys - {s};
        rest := rest - {s};
      }
    }
  }

  class UpTrackManager {
    var version: nat
    var subscriptionPermission: Option<SubscriptionPermission>
    var subscriberPermissions: Table

    function View(): Permissions
      reads this
    {
      Permissions(version, subscriptionPermission, subscriberPermissions)
    }

    constructor ()
      ensures View() == Permissions(0, None, None)
    {
      version, subscriptionPermission, subscriberPermissions := 0, None, None;
    }

    /** The list of allowed subscribers, None for everybody: an identity is on it exactly when the permission check
        grants it. */
    method GetAllowedSubscribers(track: TrackID) returns (allowed: Option<seq<Identity>>)
      ensures allowed.None? <==> subscriberPermissions.None?
      ensures allowed.Some? ==> forall id :: id in allowed.value <==> HasPermission(subscriberPermissions, track, id)
    {
      if subscriberPermissions.None? {
        return None;
      }
      var rest, ids := subscriberPermissions.value, [];
      while rest != map[]
        invariant forall id <- rest :: id in subscriberPermissions.value && rest[id] == subscriberPermissions.value[id]
        invariant forall id :: id in ids <==> HasPermission(subscriberPermissions, track, id) && id !in rest
        decreases |rest|
      {
        var id :| id in rest;
        if rest[id].allTracks {
          ids := ids + [id];
        } else {
          var found := false;
          for i := 0 to |rest[id].trackSids|
            invariant found <==> track in rest[id].trackSids[..i]
          {
            assert rest[id].trackSids[..i + 1] == rest[id].trackSids[..i] + [rest[id].trackSids[i]];
            if rest[id].trackSids[i] == track {
              found := true;
            }
          }
          assert rest[id].trackSids[..|rest[id].trackSids|] == rest[id].trackSids;
          if found {
            ids := ids + [id];
          }
        }
        assert (rest - {id}).Keys == rest.Keys - {id};
        rest := rest - {id};
      }
      return Some(ids);
    }

    /** Builds the new table aside and installs it only when every permission parsed. */
    method ParseSubscriptionPermissions(sp: SubscriptionPermission, resolver: map<Sid, Identity>) returns (ok: bool)
      modifies this`subscriberPermissions
      ensures ok == Parse(sp, resolver).Ok?
      ensures subscriberPermissions == if ok then Parse(sp, resolver).value else old(subscriberPermissions)
    {
      if sp.allParticipants {
        subscriberPermissions := None;
        return true;
      }
      var table: map<Identity, TrackPermission> := map[];
      var ps := sp.trackPermissions;
      for i := 0 to |ps|
        invariant ParseAll(ps[..i], resolver) == Ok(table)
        invariant subscriberPermissions == old(subscriberPermissions)
      {
        assert ps[..i + 1][..i] == ps[..i];
        var id := ps[i].identity;
        if id == "" {
          if ps[i].sid == "" {
            FailureStays(ps, i + 1, resolver);
            return false;
          }
          if ps[i].sid !in resolver {
            continue;
          }
          id := resolver[ps[i].sid];
        }
        table := table[id := ps[i]];
      }
      assert ps[..|ps|] == ps;
      subscriberPermissions := Some(table);
      return true;
    }

    method RevokeOn(id: TrackID, track: MediaTrack)
      modifies track
      ensures track.subscribers == Keep(old(track.subscribers), subscriberPermissions, id)
    {
      var allowed := GetAllowedSubscribers(id);
      if allowed.Some? {
        var _ := track.RevokeDisallowedSubscribers(allowed.value);
      }
    }

    method MaybeRevokeSubscriptions(tracks: map<TrackID, MediaTrack>)
      requires forall t, u :: t in tracks && u in tracks && t != u ==> tracks[t] != tracks[u]
      modifies tracks.Values
      ensures forall t <- tracks :: tracks[t].subscribers == Keep(old(tracks[t].subscribers), subscriberPermissions, t)
    {
      var rest := tracks;
      while rest != map[]
        invariant forall t <- rest :: t in tracks && rest[t] == tracks[t]
        invariant forall t <- rest :: tracks[t].subscribers == old(tracks[t].subscribers)
        invariant forall t <- tracks :: t !in rest ==>
                    tracks[t].subscribers == Keep(old(tracks[t].subscribers), subscriberPermissions, t)
        decreases |rest|
      {
        var t :| t in rest;
        RevokeOn(t, tracks[t]);
        assert (rest - {t}).Keys == rest.Keys - {t};
        rest := rest - {t};
      }
    }

    /** After an update that applies, exactly the exempt and the permitted subscribers remain on every published
        track; any other outcome touches neither the effective table nor a subscriber. */
    method UpdateSubscriptionPermission(sp: Option<SubscriptionPermission>, newVersion: nat, nextLocal: nat,
        resolver: map<Sid, Identity>, tracks: map<TrackID, MediaTrack>) returns (outcome: Outcome)
      requires forall t, u :: t in tracks && u in tracks && t != u ==> tracks[t] != tracks[u]
      modifies this, tracks.Values
      ensures (View(), outcome) == Update(old(View()), sp, newVersion, nextLocal, resolver)
      ensures forall t <- tracks :: tracks[t].subscribers ==
                if outcome == Applied then Keep(old(tracks[t].subscribers), subscriberPermissions, t)
                else old(tracks[t].subscribers)
      ensures outcome == Applied ==> forall t <- tracks :: forall s ::
                s in tracks[t].subscribers <==>
                && s in old(tracks[t].subscribers)
                && (old(tracks[t].subscribers)[s].exempt
                    || Grants(sp.value, resolver, t, old(tracks[t].subscribers)[s].identity))
    {
      if newVersion != 0 {
        if newVersion <= version {
          return Skipped;
        }
        version := newVersion;
      } else if nextLocal > version {
        version := nextLocal;
      }
      subscriptionPermission := sp;
      if sp.None? {
        return Cleared;
      }
      var ok := ParseSubscriptionPermissions(sp.value, resolver);
      if !ok {
        return Failed;
      }
      MaybeRevokeSubscriptions(tracks);
      forall t, id {
        ParseMeansGrants(sp.value, resolver, t, id);
      }
      return Applied;
    }
  }

  lemma {:induction false} FailureStays(ps: seq<TrackPermission>, n: nat, resolver: map<Sid, Identity>)
    requires n <= |ps| && ParseAll(ps[..n], resolver).Err?
    ensures ParseAll(ps, resolver).Err?
    decreases |ps| - n
  {
    if n == |ps| {
      assert ps[..n] == ps;
    } else {
      assert ps[..n + 1][..n] == ps[..n];
      FailureStays(ps, n + 1, resolver);
    }
  }
}
