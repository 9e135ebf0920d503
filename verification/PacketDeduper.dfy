/** The packet deduper of pkg/rtc/user_packet_deduper.go: a bounded window of ids kept as a linked list that is
    threaded through a map. */
module PacketDeduper {
  const MAX_SIZE := 100

  const ZERO: seq<bv8> := [0, 0, 0, 0, 0, 0, 0, 0, 0, 0, 0, 0, 0, 0, 0, 0]

  type Uuid = s: seq<bv8> | |s| == 16 witness ZERO

  /** `seen` maps each id but the newest to its successor. */
  datatype Deduper = Deduper(seen: map<Uuid, Uuid>, head: Uuid, tail: Uuid)

  const EMPTY := Deduper(map[], ZERO, ZERO)

  /** IsDuplicate: the answer and the new state. A nonce that is not an id is never a duplicate. */
  function Check(d: Deduper, nonce: seq<bv8>): (bool, Deduper) {
    if |nonce| != 16 then (false, d)
    else if d.head == nonce || nonce in d.seen then (true, d)
    else
      var id: Uuid := nonce;
      var seen := d.seen[d.head := id];
      if |seen| == MAX_SIZE && d.tail in seen then (false, Deduper(seen - {d.tail}, id, seen[d.tail]))
      else (false, Deduper(seen, id, d.tail))
  }

  /** The state after a list of nonces, and the ids accepted as new, oldest first. */
  function Run(nonces: seq<seq<bv8>>): (Deduper, seq<Uuid>) {
    if nonces == [] then (EMPTY, [])
    else
      var (d, accepted) := Run(nonces[..|nonces| - 1]);
      var nonce := nonces[|nonces| - 1];
      var (duplicate, d') := Check(d, nonce);
      (d', if duplicate || |nonce| != 16 then accepted else accepted + [nonce])
  }

  /** The newest entries of the list made of the zero id and all accepted ids. */
  function Window(accepted: seq<Uuid>): seq<Uuid> {
    var all := [ZERO] + accepted;
    if |all| <= MAX_SIZE then all else all[|all| - MAX_SIZE..]
  }

  ghost predicate Distinct(w: seq<Uuid>) {
    forall i, j :: 0 <= i < j < |w| ==> w[i] != w[j]
  }

  /** The map threads exactly the window `w`, as one chain without repetition from tail to head. */
  ghost predicate Threads(d: Deduper, w: seq<Uuid>) {
    && w != [] && Distinct(w)
    && d.tail == w[0] && d.head == w[|w| - 1]
    && (forall i :: 0 <= i < |w| - 1 ==> w[i] in d.seen && d.seen[w[i]] == w[i + 1])
    && (forall id <- d.seen :: exists i :: 0 <= i < |w| - 1 && w[i] == id)
  }

  lemma {:induction false} DistinctSize(w: seq<Uuid>)
    requires Distinct(w)
    ensures |set id | id in w| == |w|
  {
    if w != [] {
      var init, last := w[..|w| - 1], w[|w| - 1];
      DistinctSize(init);
      assert w == init + [last];
      assert (set id | id in w) == (set id | id in init) + {last};
    }
  }

  /** The keys are the window without its last id. */
  lemma ThreadsKeys(d: Deduper, w: seq<Uuid>, id: Uuid)
    requires Threads(d, w)
    ensures id in d.seen <==> id in w[..|w| - 1]
  {
    var init := w[..|w| - 1];
    if id in d.seen {
      var i :| 0 <= i < |w| - 1 && w[i] == id;
      assert init[i] == id;
    }
    if id in init {
      var i :| 0 <= i < |init| && init[i] == id;
      assert w[i] == id;
    }
  }

  lemma ThreadsSize(d: Deduper, w: seq<Uuid>)
    requires Threads(d, w)
    ensures |d.seen| == |w| - 1
  {
    var init := w[..|w| - 1];
    DistinctSize(init);
    forall id ensures id in d.seen.Keys <==> id in (set x | x in init) {
      ThreadsKeys(d, w, id);
    }
    assert d.seen.Keys == set id | id in init;
  }

  /** Taking in a new id appends it to the chain. */
  lemma AppendThreads(d: Deduper, w: seq<Uuid>, id: Uuid)
    requires Threads(d, w) && id !in w
    ensures Threads(Deduper(d.seen[d.head := id], id, d.tail), w + [id])
  {
    var w', seen := w + [id], d.seen[d.head := id];
    forall x <- seen ensures exists i :: 0 <= i < |w'| - 1 && w'[i] == x {
      if x == d.head {
        assert w'[|w| - 1] == x;
      } else {
        var i :| 0 <= i < |w| - 1 && w[i] == x;
        assert w'[i] == x;
      }
    }
  }

  /** Dropping the tail of a chain of at least two leaves the chain without its oldest id. */
  lemma DropTailThreads(d: Deduper, w: seq<Uuid>)
    requires Threads(d, w) && |w| > 1
    ensures d.tail in d.seen && Threads(Deduper(d.seen - {d.tail}, d.head, d.seen[d.tail]), w[1..])
  {
    var w', seen := w[1..], d.seen - {d.tail};
    forall i | 0 <= i < |w'| - 1 ensures w'[i] in seen && seen[w'[i]] == w'[i + 1] {
      assert w[i + 1] in d.seen && w[0] != w[i + 1];
    }
    forall x <- seen ensures exists i :: 0 <= i < |w'| - 1 && w'[i] == x {
      var i :| 0 <= i < |w| - 1 && w[i] == x;
      assert w'[i - 1] == x;
    }
  }

  lemma MemberIffThreaded(d: Deduper, w: seq<Uuid>, id: Uuid)
    requires Threads(d, w)
    ensures (d.head == id || id in d.seen) <==> id in w
  {
    if id in w {
      var i :| 0 <= i < |w| && w[i] == id;
    }
  }

  lemma CheckThreads(d: Deduper, accepted: seq<Uuid>, nonce: seq<bv8>)
    requires Threads(d, Window(accepted))
    ensures
      var (duplicate, d') := Check(d, nonce);
      && (duplicate <==> |nonce| == 16 && nonce in Window(accepted))
      && Threads(d', Window(if duplicate || |nonce| != 16 then accepted else accepted + [nonce]))
  {
    if |nonce| == 16 {
      MemberIffThreaded(d, Window(accepted), nonce);
      if nonce !in Window(accepted) { AcceptThreads(d, accepted, nonce); }
    }
  }

  lemma {:induction false} RunThreads(nonces: seq<seq<bv8>>)
    ensures var (d, accepted) := Run(nonces); Threads(d, Window(accepted))
  {
    if nonces != [] {
      RunThreads(nonces[..|nonces| - 1]);
      var (d, accepted) := Run(nonces[..|nonces| - 1]);
      CheckThreads(d, accepted, nonces[|nonces| - 1]);
    }
  }

  /** For every sequence of packets: the map always threads exactly the last 100 entries of the zero id followed by
      the accepted ids, and the next packet is called a duplicate exactly when its id is among them. */
  lemma {:induction false} DuplicateIffInWindow(nonces: seq<seq<bv8>>, nonce: seq<bv8>)
    ensures
      var (d, accepted) := Run(nonces);
      && Threads(d, Window(accepted))
      && (Check(d, nonce).0 <==>
            |nonce| == 16 && nonce in if |accepted| < 100 then [ZERO] + accepted else accepted[|accepted| - 100..])
  {
    RunThreads(nonces);
    var (d, accepted) := Run(nonces);
    CheckThreads(d, accepted, nonce);
    WindowIs(accepted);
  }

  lemma WindowIs(accepted: seq<Uuid>)
    ensures Window(accepted) == if |accepted| < 100 then [ZERO] + accepted else accepted[|accepted| - 100..]
  {
  }

  lemma AcceptThreads(d: Deduper, accepted: seq<Uuid>, id: Uuid)
    requires Threads(d, Window(accepted)) && id !in Window(accepted)
    ensures Threads(Check(d, id).1, Window(accepted + [id]))
  {
    var w := Window(accepted);
    var d1 := Deduper(d.seen[d.head := id], id, d.tail);
    AppendThreads(d, w, id);
    WindowSlides(accepted, id);
    CheckAppends(d, w, id);
    if |w| == MAX_SIZE { DropTailThreads(d1, w + [id]); }
  }

  /** A new id slides the window once it is full. */
  lemma WindowSlides(accepted: seq<Uuid>, id: Uuid)
    ensures Window(accepted + [id])
         == if |Window(accepted)| == MAX_SIZE then (Window(accepted) + [id])[1..] else Window(accepted) + [id]
    ensures |Window(accepted)| <= MAX_SIZE
  {
    assert [ZERO] + (accepted + [id]) == [ZERO] + accepted + [id];
  }

  lemma CheckAppends(d: Deduper, w: seq<Uuid>, id: Uuid)
    requires Threads(d, w) && |w| <= MAX_SIZE && id !in w
    ensures
      var d1 := Deduper(d.seen[d.head := id], id, d.tail);
      Check(d, id).1
      == if |w| == MAX_SIZE && d1.tail in d1.seen then Deduper(d1.seen - {d1.tail}, id, d1.seen[d1.tail]) else d1
  {
    MemberIffThreaded(d, w, id);
    AppendThreads(d, w, id);
    ThreadsSize(Deduper(d.seen[d.head := id], id, d.tail), w + [id]);
  }

  class UserPacketDeduper {
    var seen: map<Uuid, Uuid>
    var head: Uuid
    var tail: Uuid

    function View(): Deduper
      reads this
    {
      Deduper(seen, head, tail)
    }

    constructor ()
      ensures View() == EMPTY
    {
      seen, head, tail := map[], ZERO, ZERO;
    }

    /** `w` is the window the map threads. */
    method IsDuplicate(nonce: seq<bv8>, ghost w: seq<Uuid>) returns (duplicate: bool)
      requires Threads(View(), w)
      modifies this
      ensures (duplicate, View()) == Check(old(View()), nonce)
      ensures duplicate <==> |nonce| == 16 && nonce in w
    {
      if |nonce| != 16 {
        return false;
      }
      var id: Uuid := nonce;
      MemberIffThreaded(View(), w, id);
      if head == id {
        return true;
      }
      if id in seen {
        return true;
      }
      AppendThreads(View(), w, id);
      seen := seen[head := id];
      head := id;
      if |seen| == MAX_SIZE {
        ThreadsSize(View(), w + [id]);
        var oldTail := tail;
        tail := seen[oldTail];
        seen := seen - {oldTail};
      }
      return false;
    }
  }
}
