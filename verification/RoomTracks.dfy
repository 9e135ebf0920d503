/** The room's track lists of pkg/rtc/roomtrackmanager.go: per track id a slice of published tracks, appended to by
    AddTrack and compacted in place by RemoveTrack. */
module RoomTracks {
  import opened Wrappers

  type TrackID = nat

  /** A media track object: its identity and the id it reports. Several objects may report one id. */
  datatype Track = Track(object_: nat, id: TrackID)

  datatype TrackInfo = TrackInfo(track: Track, publisher: nat)

  // ---------------------------------------------------------------------------------------------------------
  // The lists
  // ---------------------------------------------------------------------------------------------------------

  type Lists = map<TrackID, seq<TrackInfo>>

  function ListOf(m: Lists, id: TrackID): seq<TrackInfo> { if id in m then m[id] else [] }

  predicate Holds(infos: seq<TrackInfo>, t: Track) { exists info <- infos :: info.track == t }

  function Without(infos: seq<TrackInfo>, t: Track): seq<TrackInfo> {
    if infos == [] then []
    else
      var last := infos[|infos| - 1];
      Without(infos[..|infos| - 1], t) + (if last.track == t then [] else [last])
  }

  function Put(m: Lists, id: TrackID, infos: seq<TrackInfo>): Lists {
    if infos == [] then m - {id} else m[id := infos]
  }

  function Add(m: Lists, info: TrackInfo): Lists {
    if Holds(ListOf(m, info.track.id), info.track) then m
    else m[info.track.id := ListOf(m, info.track.id) + [info]]
  }

  function Remove(m: Lists, t: Track): Lists {
    if t.id in m then Put(m, t.id, Without(m[t.id], t)) else m
  }

  /** GetTrackInfo: the earliest entry, unless its track is about to close. */
  function Lookup(m: Lists, id: TrackID, isOpen: Track -> bool): Option<TrackInfo> {
    if id !in m || m[id] == [] || !isOpen(m[id][0].track) then None else Some(m[id][0])
  }

  // ---------------------------------------------------------------------------------------------------------
  // What a history of adds and removes leaves
  // ---------------------------------------------------------------------------------------------------------

  datatype Event = Added(info: TrackInfo) | Removed(track: Track)

  function Exec(es: seq<Event>): Lists {
    if es == [] then map[]
    else
      match es[|es| - 1]
      case Added(info) => Add(Exec(es[..|es| - 1]), info)
      case Removed(t) => Remove(Exec(es[..|es| - 1]), t)
  }

  /** Event `i` added `t`, and `t` was not removed since. */
  ghost predicate AddedAndKept(es: seq<Event>, t: Track, i: nat) {
    && i < |es| && es[i].Added? && es[i].info.track == t
    && forall j :: i < j < |es| ==> es[j] != Removed(t)
  }

  /** The oldest such event: the one from which `t` has been in its list ever since. */
  ghost predicate Since(es: seq<Event>, t: Track, i: nat) {
    AddedAndKept(es, t, i) && forall j :: 0 <= j < i ==> !AddedAndKept(es, t, j)
  }

  /** The list of an id holds exactly the tracks of that id added and not removed since, in the order of those
      adds, each once and with the publisher it was added for. */
  ghost predicate ListReflects(infos: seq<TrackInfo>, id: TrackID, es: seq<Event>, since: map<Track, nat>) {
    && (forall info <- infos :: info.track.id == id && info.track in since
                                && since[info.track] < |es| && es[since[info.track]] == Added(info))
    && (forall t <- since :: t.id == id ==> Holds(infos, t))
    && Ascending(infos, since)
  }

  ghost predicate Ascending(infos: seq<TrackInfo>, since: map<Track, nat>)
    requires forall info <- infos :: info.track in since
  {
    forall a, b :: 0 <= a < b < |infos| ==> since[infos[a].track] < since[infos[b].track]
  }

  /** `since` lists the tracks that are in. */
  ghost predicate SinceOk(es: seq<Event>, since: map<Track, nat>) {
    && (forall t <- since :: Since(es, t, since[t]))
    && (forall t, i: nat :: AddedAndKept(es, t, i) ==> t in since)
  }

  ghost predicate Reflects(m: Lists, es: seq<Event>, since: map<Track, nat>) {
    && SinceOk(es, since)
    && (forall id <- m :: m[id] != [])
    && (forall id: TrackID :: ListReflects(ListOf(m, id), id, es, since))
  }

  lemma {:induction false} WithoutFacts(infos: seq<TrackInfo>, t: Track)
    ensures forall info :: info in Without(infos, t) <==> info in infos && info.track != t
    ensures !Holds(infos, t) ==> Without(infos, t) == infos
  {
    if infos != [] {
      var n := |infos| - 1;
      WithoutFacts(infos[..n], t);
      assert infos == infos[..n] + [infos[n]];
      assert infos[n] in infos;
    }
  }

  lemma {:induction false} WithoutAscends(infos: seq<TrackInfo>, t: Track, since: map<Track, nat>)
    requires forall info <- infos :: info.track in since
    requires Ascending(infos, since)
    ensures forall info <- Without(infos, t) :: info.track in since
    ensures Ascending(Without(infos, t), since)
  {
    WithoutFacts(infos, t);
    if infos != [] {
      var n := |infos| - 1;
      WithoutAscends(infos[..n], t, since);
      WithoutFacts(infos[..n], t);
      forall info <- infos[..n] ensures since[info.track] < since[infos[n].track] {
        var a :| 0 <= a < n && infos[a] == info;
      }
    }
  }

  lemma AddHistory(es: seq<Event>, info: TrackInfo, since: map<Track, nat>)
    requires SinceOk(es, since)
    ensures SinceOk(es + [Added(info)], if info.track in since then since else since[info.track := |es|])
  {
    var t, es' := info.track, es + [Added(info)];
    var since' := if t in since then since else since[t := |es|];
    forall u, i: nat ensures AddedAndKept(es', u, i) <==> AddedAndKept(es, u, i) || (u == t && i == |es|) {
      if i < |es| {
        assert es'[i] == es[i] && es'[|es|] == Added(info);
        assert AddedAndKept(es, u, i) ==> forall j :: i < j < |es'| ==> es'[j] != Removed(u);
        assert AddedAndKept(es', u, i) ==> forall j :: i < j < |es| ==> es[j] == es'[j];
      }
    }
    assert forall u <- since' :: Since(es', u, since'[u]);
  }

  lemma AddToList(infos: seq<TrackInfo>, es: seq<Event>, since: map<Track, nat>, info: TrackInfo)
    requires ListReflects(infos, info.track.id, es, since) && info.track !in since
    requires forall t <- since :: since[t] < |es|
    ensures ListReflects(infos + [info], info.track.id, es + [Added(info)], since[info.track := |es|])
  {
    var infos', since' := infos + [info], since[info.track := |es|];
    assert info in infos';
    forall u <- since' | u.id == info.track.id ensures Holds(infos', u) {
      if u != info.track {
        var x :| x in infos && x.track == u;
        assert x in infos';
      }
    }
  }

  /** A list is unaffected by an event about tracks of another id. */
  lemma OtherList(infos: seq<TrackInfo>, id: TrackID, es: seq<Event>, since: map<Track, nat>, e: Event,
                  since': map<Track, nat>)
    requires ListReflects(infos, id, es, since)
    requires forall u: Track :: u.id == id ==> (u in since <==> u in since') && (u in since ==> since[u] == since'[u])
    ensures ListReflects(infos, id, es + [e], since')
  {
  }

  lemma AddReflects(m: Lists, es: seq<Event>, since: map<Track, nat>, info: TrackInfo)
    requires Reflects(m, es, since)
    ensures Reflects(Add(m, info), es + [Added(info)], if info.track in since then since else since[info.track := |es|])
  {
    var t, m' := info.track, Add(m, info);
    var since' := if t in since then since else since[t := |es|];
    AddHistory(es, info, since);
    forall id: TrackID ensures ListReflects(ListOf(m', id), id, es + [Added(info)], since') {
      assert ListReflects(ListOf(m, id), id, es, since);
      if id == t.id && t !in since {
        AddToList(ListOf(m, id), es, since, info);
      } else {
        OtherList(ListOf(m, id), id, es, since, Added(info), since');
      }
    }
  }

  lemma RemoveHistory(es: seq<Event>, t: Track, since: map<Track, nat>)
    requires SinceOk(es, since)
    ensures SinceOk(es + [Removed(t)], since - {t})
  {
    var es' := es + [Removed(t)];
    forall u, i: nat ensures AddedAndKept(es', u, i) <==> AddedAndKept(es, u, i) && u != t {
      if i < |es| {
        assert es'[i] == es[i] && es'[|es|] == Removed(t);
        assert AddedAndKept(es, u, i) && u != t ==> forall j :: i < j < |es'| ==> es'[j] != Removed(u);
        assert AddedAndKept(es', u, i) ==> forall j :: i < j < |es| ==> es[j] == es'[j];
      }
    }
    assert forall u <- since - {t} :: Since(es', u, since[u]);
  }

  lemma RemoveFromList(infos: seq<TrackInfo>, es: seq<Event>, since: map<Track, nat>, t: Track)
    requires ListReflects(infos, t.id, es, since)
    ensures ListReflects(Without(infos, t), t.id, es + [Removed(t)], since - {t})
  {
    WithoutFacts(infos, t);
    WithoutAscends(infos, t, since);
    forall u <- since - {t} | u.id == t.id ensures Holds(Without(infos, t), u) {
      var x :| x in infos && x.track == u;
      assert x in Without(infos, t);
    }
  }

  lemma RemoveReflects(m: Lists, es: seq<Event>, since: map<Track, nat>, t: Track)
    requires Reflects(m, es, since)
    ensures Reflects(Remove(m, t), es + [Removed(t)], since - {t})
  {
    var m' := Remove(m, t);
    RemoveHistory(es, t, since);
    forall id: TrackID ensures ListReflects(ListOf(m', id), id, es + [Removed(t)], since - {t}) {
      assert ListReflects(ListOf(m, id), id, es, since);
      if id == t.id {
        RemoveFromList(ListOf(m, id), es, since, t);
        assert ListOf(m', id) == Without(ListOf(m, id), t);
      } else {
        OtherList(ListOf(m, id), id, es, since, Removed(t), since - {t});
      }
    }
  }

  lemma {:induction false} ExecReflects(es: seq<Event>) returns (since: map<Track, nat>)
    ensures Reflects(Exec(es), es, since)
  {
    if es == [] {
      since := map[];
    } else {
      var init, e := es[..|es| - 1], es[|es| - 1];
      since := ExecReflects(init);
      assert es == init + [e];
      match e {
        case Added(info) =>
          AddReflects(Exec(init), init, since, info);
          since := if info.track in since then since else since[info.track := |init|];
        case Removed(t) =>
          RemoveReflects(Exec(init), init, since, t);
          since := since - {t};
      }
    }
  }

  /** For every sequence of adds and removes: a track is in the list of its id exactly when it was added and not
      removed since, with the publisher of the add that counts; lists are in the order of those adds, without
      repetition; and no list is empty. */
  lemma ListsReflectHistory(es: seq<Event>)
    ensures forall t, i: nat :: Since(es, t, i) ==> Holds(ListOf(Exec(es), t.id), t)
    ensures forall id <- Exec(es) :: Exec(es)[id] != []
    ensures forall id <- Exec(es) :: forall info <- Exec(es)[id] ::
              info.track.id == id && exists i: nat :: Since(es, info.track, i) && es[i] == Added(info)
    ensures forall id <- Exec(es) :: forall a, b, i: nat, j: nat ::
              0 <= a < b < |Exec(es)[id]| && Since(es, Exec(es)[id][a].track, i) && Since(es, Exec(es)[id][b].track, j)
              ==> i < j
  {
    var since := ExecReflects(es);
    forall t, i: nat | Since(es, t, i) ensures t in since && since[t] == i {
      assert Since(es, t, since[t]);
    }
    forall t, i: nat | Since(es, t, i) ensures Holds(ListOf(Exec(es), t.id), t) {
      assert ListReflects(ListOf(Exec(es), t.id), t.id, es, since);
    }
    forall id <- Exec(es), info <- Exec(es)[id]
      ensures info.track.id == id && exists i: nat :: Since(es, info.track, i) && es[i] == Added(info)
    {
      assert ListReflects(ListOf(Exec(es), id), id, es, since);
      assert Since(es, info.track, since[info.track]);
    }
    forall id <- Exec(es) ensures Ascending(Exec(es)[id], since) {
      assert ListReflects(ListOf(Exec(es), id), id, es, since);
    }
  }

  /** Lookup resolves the track that has been in its list the longest, or nothing if that one is closing. */
  lemma LookupIsEarliest(es: seq<Event>, id: TrackID, isOpen: Track -> bool)
    ensures
      var r := Lookup(Exec(es), id, isOpen);
      && (r.Some? ==> isOpen(r.value.track) && r.value.track.id == id)
      && (r.Some? ==> exists i: nat :: Since(es, r.value.track, i) && es[i] == Added(r.value)
                        && forall t: Track, j: nat :: t.id == id && Since(es, t, j) ==> i <= j)
      && (r.None? ==> (forall t: Track, j: nat :: t.id == id ==> !Since(es, t, j))
                      || exists t: Track, i: nat :: t.id == id && !isOpen(t) && Since(es, t, i)
                           && forall u: Track, j: nat :: u.id == id && Since(es, u, j) ==> i <= j)
  {
    ListsReflectHistory(es);
    var m: Lists := Exec(es);
    if id in m {
      var first: TrackInfo := m[id][0];
      assert first in m[id];
      var i: nat :| Since(es, first.track, i) && es[i] == Added(first);
      forall t: Track, j: nat | t.id == id && Since(es, t, j) ensures i <= j {
        var x :| x in m[id] && x.track == t;
        var b :| 0 <= b < |m[id]| && m[id][b] == x;
      }
    } else {
      forall t: Track, j: nat | t.id == id ensures !Since(es, t, j) {
        assert !Holds(ListOf(m, id), t);
      }
    }
  }

  // ---------------------------------------------------------------------------------------------------------
  // The imperative code: slices over shared buffers
  // ---------------------------------------------------------------------------------------------------------

  /** What a cleared position of a buffer holds (a nil pointer in the source). */
  const CLEARED := TrackInfo(Track(0, 0), 0)

  /** A Go slice: a buffer and how much of it is in use. */
  datatype Slice = Slice(buf: array<TrackInfo>, len: nat)

  ghost predicate SliceOk(s: Slice) { s.len <= s.buf.Length }

  ghost function Contents(s: Slice): seq<TrackInfo>
    requires SliceOk(s)
    reads s.buf
  {
    s.buf[..s.len]
  }

  /** append: in place while the buffer has room, otherwise into a larger copy. */
  method Append(s: Slice, info: TrackInfo) returns (r: Slice)
    requires SliceOk(s)
    modifies s.buf
    ensures SliceOk(r) && Contents(r) == old(Contents(s)) + [info]
    ensures r.buf == s.buf || fresh(r.buf)
  {
    if s.len < s.buf.Length {
      s.buf[s.len] := info;
      r := Slice(s.buf, s.len + 1);
    } else {
      var buf := new TrackInfo[2 * s.len + 1](_ => CLEARED);
      for i := 0 to s.len
        invariant forall j :: 0 <= j < i ==> buf[j] == s.buf[j]
        invariant SliceOk(s) && Contents(s) == old(Contents(s))
      {
        buf[i] := s.buf[i];
      }
      buf[s.len] := info;
      r := Slice(buf, s.len + 1);
    }
  }

  /** The buffer in mid-loop: the survivors of the first `i` entries in front, the entries from `i` on untouched. */
  ghost predicate Compacting(buf: seq<TrackInfo>, infos: seq<TrackInfo>, t: Track, i: nat, idx: nat) {
    && idx <= i <= |infos| <= |buf|
    && buf[..idx] == Without(infos[..i], t)
    && forall j :: i <= j < |infos| ==> buf[j] == infos[j]
  }

  lemma CompactStep(buf: seq<TrackInfo>, infos: seq<TrackInfo>, t: Track, i: nat, idx: nat)
    requires Compacting(buf, infos, t, i, idx) && i < |infos|
    ensures if infos[i].track == t then Compacting(buf, infos, t, i + 1, idx)
            else Compacting(buf[idx := infos[i]], infos, t, i + 1, idx + 1)
  {
    assert infos[..i + 1][..i] == infos[..i];
    if infos[i].track != t {
      assert buf[idx := infos[i]][..idx + 1] == buf[..idx] + [infos[i]];
    }
  }

  /** The loops of RemoveTrack over one slice: move the survivors down, clear the rest, cut the length. The loop
      reads the slice it overwrites. */
  method Compact(s: Slice, t: Track) returns (r: Slice, numRemoved: nat)
    requires SliceOk(s)
    modifies s.buf
    ensures r.buf == s.buf && SliceOk(r) && Contents(r) == Without(old(Contents(s)), t)
    ensures numRemoved == s.len - r.len
    ensures forall i :: r.len <= i < s.len ==> s.buf[i] == CLEARED
  {
    ghost var infos := Contents(s);
    var idx := 0;
    numRemoved := 0;
    for i := 0 to s.len
      invariant idx <= i && numRemoved == i - idx && Compacting(s.buf[..], infos, t, i, idx)
    {
      CompactStep(s.buf[..], infos, t, i, idx);
      ghost var before := s.buf[..];
      var info := s.buf[i];
      if info.track == t {
        numRemoved := numRemoved + 1;
      } else {
        s.buf[idx] := info;
        assert s.buf[..] == before[idx := info];
        idx := idx + 1;
      }
    }
    assert infos[..s.len] == infos && s.buf[..][..idx] == s.buf[..idx];
    for j := idx to s.len
      invariant s.buf[..idx] == Without(infos, t)
      invariant forall k :: idx <= k < j ==> s.buf[k] == CLEARED
    {
      s.buf[j] := CLEARED;
    }
    r := Slice(s.buf, idx);
  }

  /** Whether a slice already holds the track. */
  method Scan(slice: Slice, t: Track) returns (found: bool)
    requires SliceOk(slice)
    ensures found <==> Holds(Contents(slice), t)
  {
    for i := 0 to slice.len
      invariant forall j :: 0 <= j < i ==> slice.buf[j].track != t
    {
      if slice.buf[i].track == t {
        assert Contents(slice)[i] in Contents(slice);
        return true;
      }
    }
    return false;
  }

  class RoomTrackManager {
    var tracks: map<TrackID, Slice>
    /** The lists that the slices hold, and the buffers they hold them in. */
    ghost var lists: Lists
    ghost var buffers: set<array<TrackInfo>>

    /** Every list has a buffer of its own. */
    ghost predicate Valid()
      reads this, buffers
    {
      && lists.Keys == tracks.Keys
      && (forall id <- tracks :: tracks[id].buf in buffers && SliceOk(tracks[id]) && Contents(tracks[id]) == lists[id])
      && (forall c, d :: c in tracks && d in tracks && c != d ==> tracks[c].buf != tracks[d].buf)
    }

    constructor ()
      ensures Valid() && lists == map[] && fresh(buffers)
    {
      tracks, lists, buffers := map[], map[], {};
    }

    /** The slice of an id, an empty one if it has none. */
    method SliceOf(id: TrackID) returns (slice: Slice)
      requires Valid()
      ensures SliceOk(slice) && Contents(slice) == ListOf(lists, id)
      ensures if id in tracks then slice == tracks[id] else fresh(slice.buf)
    {
      if id in tracks {
        slice := tracks[id];
      } else {
        var buf := new TrackInfo[0](_ => CLEARED);
        slice := Slice(buf, 0);
      }
    }

    /** Returns whether the track was new to its list. */
    method AddTrack(info: TrackInfo) returns (added: bool)
      requires Valid()
      modifies this, buffers
      ensures Valid() && fresh(buffers - old(buffers))
      ensures lists == Add(old(lists), info)
      ensures added <==> !Holds(ListOf(old(lists), info.track.id), info.track)
    {
      var id := info.track.id;
      var slice := SliceOf(id);
      var found := Scan(slice, info.track);
      if found {
        return false;
      }
      slice := Append(slice, info);
      Store(id, slice);
      return true;
    }

    /** Store a slice whose buffer no other list uses. */
    method Store(id: TrackID, slice: Slice)
      requires SliceOk(slice) && lists.Keys == tracks.Keys
      requires forall d <- tracks :: tracks[d].buf in buffers
      requires forall d <- tracks :: d != id ==>
                 SliceOk(tracks[d]) && Contents(tracks[d]) == lists[d] && tracks[d].buf != slice.buf
      requires forall c, d :: c in tracks && d in tracks && c != d ==> tracks[c].buf != tracks[d].buf
      modifies this
      ensures Valid() && lists == old(lists)[id := Contents(slice)] && buffers == old(buffers) + {slice.buf}
    {
      tracks := tracks[id := slice];
      lists := lists[id := Contents(slice)];
      buffers := buffers + {slice.buf};
    }

    /** Returns how many entries were removed. */
    method RemoveTrack(t: Track) returns (numRemoved: nat)
      requires Valid()
      modifies this, buffers
      ensures Valid() && buffers == old(buffers)
      ensures lists == Remove(old(lists), t)
      ensures numRemoved == |ListOf(old(lists), t.id)| - |ListOf(lists, t.id)|
    {
      if t.id !in tracks {
        return 0;
      }
      var cut;
      cut, numRemoved := Compact(tracks[t.id], t);
      Resliced(t.id, cut);
    }

    /** Store the compacted slice, or drop the id when nothing is left. */
    method Resliced(id: TrackID, cut: Slice)
      requires id in tracks && lists.Keys == tracks.Keys && SliceOk(cut) && cut.buf == tracks[id].buf
      requires forall d <- tracks :: tracks[d].buf in buffers
      requires forall d <- tracks :: d != id ==> SliceOk(tracks[d]) && Contents(tracks[d]) == lists[d]
      requires forall c, d :: c in tracks && d in tracks && c != d ==> tracks[c].buf != tracks[d].buf
      modifies this
      ensures Valid() && lists == Put(old(lists), id, Contents(cut)) && buffers == old(buffers)
    {
      if cut.len == 0 {
        tracks := tracks - {id};
        lists := lists - {id};
      } else {
        Store(id, cut);
        assert Contents(cut) != [];
      }
    }

    method GetTrackInfo(id: TrackID, isOpen: Track -> bool) returns (r: Option<TrackInfo>)
      requires Valid()
      ensures r == Lookup(lists, id, isOpen)
    {
      if id !in tracks || tracks[id].len == 0 {
        return None;
      }
      var info := tracks[id].buf[0];
      assert info == Contents(tracks[id])[0];
      return if isOpen(info.track) then Some(info) else None;
    }
  }
}
