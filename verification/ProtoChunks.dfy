/** ChunkProtoBatch of pkg/rtc/utils.go and the broadcast of pkg/rtc/room.go that uses it. */
module ProtoChunks {
  import opened ParticipantUpdates

  /** The encoded size of a list of messages. */
  function Total<T>(ms: seq<T>, size: T -> nat): nat {
    if ms == [] then 0 else Total(ms[..|ms| - 1], size) + size(ms[|ms| - 1])
  }

  function Flatten<T>(chunks: seq<seq<T>>): seq<T> {
    if chunks == [] then [] else chunks[0] + Flatten(chunks[1..])
  }

  /** A chunk fits the target or is a single message. */
  predicate Fits<T>(chunk: seq<T>, size: T -> nat, target: int) {
    chunk != [] && (Total(chunk, size) <= target || |chunk| == 1)
  }

  /** A way to cut `batch` into contiguous chunks that all fit. */
  predicate IsChunking<T(==)>(chunks: seq<seq<T>>, batch: seq<T>, size: T -> nat, target: int) {
    Flatten(chunks) == batch && forall c <- chunks :: Fits(c, size, target)
  }

  /** How far the first chunk reaches once it holds `k` messages. */
  function Cut<T>(batch: seq<T>, k: nat, size: T -> nat, target: int): (r: nat)
    requires k <= |batch|
    ensures k <= r <= |batch|
    decreases |batch| - k
  {
    if k < |batch| && Total(batch[..k], size) + size(batch[k]) <= target then Cut(batch, k + 1, size, target) else k
  }

  function Greedy<T>(batch: seq<T>, size: T -> nat, target: int): seq<seq<T>>
    decreases |batch|
  {
    if batch == [] then []
    else
      var k := Cut(batch, 1, size, target);
      [batch[..k]] + Greedy(batch[k..], size, target)
  }

  lemma {:induction false} TotalConcat<T>(a: seq<T>, b: seq<T>, size: T -> nat)
    ensures Total(a + b, size) == Total(a, size) + Total(b, size)
  {
    if b == [] {
      assert a + b == a;
    } else {
      TotalConcat(a, b[..|b| - 1], size);
      assert (a + b)[..|a + b| - 1] == a + b[..|b| - 1];
    }
  }

  lemma FirstOfConcat<T>(a: seq<seq<T>>, b: seq<seq<T>>)
    requires a != []
    ensures (a + b)[0] == a[0] && (a + b)[1..] == a[1..] + b
  {
  }

  lemma Associate<T>(a: seq<T>, b: seq<T>, c: seq<T>)
    ensures a + (b + c) == a + b + c
  {
  }

  lemma {:induction false} FlattenConcat<T>(a: seq<seq<T>>, b: seq<seq<T>>)
    ensures Flatten(a + b) == Flatten(a) + Flatten(b)
  {
    if a == [] {
      assert a + b == b;
    } else {
      FlattenConcat(a[1..], b);
      FirstOfConcat(a, b);
      Associate(a[0], Flatten(a[1..]), Flatten(b));
    }
  }

  lemma {:induction false} CutFits<T>(batch: seq<T>, k: nat, size: T -> nat, target: int)
    requires k <= |batch| && Fits(batch[..k], size, target)
    ensures Fits(batch[..Cut(batch, k, size, target)], size, target)
    decreases |batch| - k
  {
    if k < |batch| && Total(batch[..k], size) + size(batch[k]) <= target {
      assert batch[..k + 1][..k] == batch[..k];
      CutFits(batch, k + 1, size, target);
    }
  }

  lemma {:induction false} GreedyIsChunking<T>(batch: seq<T>, size: T -> nat, target: int)
    ensures IsChunking(Greedy(batch, size, target), batch, size, target)
    decreases |batch|
  {
    if batch != [] {
      var k := Cut(batch, 1, size, target);
      CutFits(batch, 1, size, target);
      GreedyIsChunking(batch[k..], size, target);
      assert batch == batch[..k] + batch[k..];
      var rest := Greedy(batch[k..], size, target);
      assert ([batch[..k]] + rest)[1..] == rest;
    }
  }

  /** The first cut is at least as long as any chunk that fits. */
  lemma {:induction false} CutIsLongest<T>(batch: seq<T>, k: nat, j: nat, size: T -> nat, target: int)
    requires 1 <= k <= j <= |batch| && Fits(batch[..j], size, target)
    ensures Cut(batch, k, size, target) >= j
    decreases j - k
  {
    if k < j {
      assert batch[..j] == batch[..k + 1] + batch[k + 1..j];
      TotalConcat(batch[..k + 1], batch[k + 1..j], size);
      assert batch[..k + 1][..k] == batch[..k];
      CutIsLongest(batch, k + 1, j, size, target);
    }
  }

  /** Greedy on any suffix needs no more chunks than any chunking of the whole: it stays ahead. */
  lemma {:induction false} GreedyStaysAhead<T>(batch: seq<T>, m: nat, chunks: seq<seq<T>>, size: T -> nat, target: int)
    requires IsChunking(chunks, batch, size, target) && m <= |batch|
    ensures |Greedy(batch[m..], size, target)| <= |chunks|
    decreases |chunks|
  {
    if m < |batch| {
      var c, rest := chunks[0], Flatten(chunks[1..]);
      assert batch == c + rest && c in chunks;
      RestIsChunking(chunks, batch, size, target);
      if m >= |c| {
        assert batch[m..] == rest[m - |c|..];
        GreedyStaysAhead(rest, m - |c|, chunks[1..], size, target);
      } else {
        FirstCutPasses(c, rest, m, size, target);
        var k := Cut(batch[m..], 1, size, target);
        assert batch[m..][k..] == rest[m + k - |c|..];
        GreedyStaysAhead(rest, m + k - |c|, chunks[1..], size, target);
      }
    }
  }

  lemma RestIsChunking<T>(chunks: seq<seq<T>>, batch: seq<T>, size: T -> nat, target: int)
    requires IsChunking(chunks, batch, size, target) && chunks != []
    ensures IsChunking(chunks[1..], Flatten(chunks[1..]), size, target)
  {
  }

  lemma SuffixFits<T>(c: seq<T>, m: nat, size: T -> nat, target: int)
    requires Fits(c, size, target) && m < |c|
    ensures Fits(c[m..], size, target)
  {
    TotalConcat(c[..m], c[m..], size);
    assert c == c[..m] + c[m..];
  }

  /** From inside a chunk that fits, the first cut reaches at least its end. */
  lemma FirstCutPasses<T>(c: seq<T>, rest: seq<T>, m: nat, size: T -> nat, target: int)
    requires Fits(c, size, target) && m < |c|
    ensures |c| - m <= Cut((c + rest)[m..], 1, size, target)
  {
    var sub := c[m..];
    SuffixFits(c, m, size, target);
    assert (c + rest)[m..] == sub + rest && (sub + rest)[..|sub|] == sub;
    CutIsLongest(sub + rest, 1, |sub|, size, target);
  }

  /** The open chunk `batch[start..i]` cannot take message `i`: greedy closes it there. */
  lemma CloseChunk<T>(batch: seq<T>, start: nat, i: nat, size: T -> nat, target: int)
    requires start < i < |batch|
    requires Cut(batch[start..], 1, size, target) == Cut(batch[start..], i - start, size, target)
    requires Total(batch[start..i], size) + size(batch[i]) > target
    ensures Greedy(batch[start..], size, target) == [batch[start..i]] + Greedy(batch[i..], size, target)
  {
    assert batch[start..][..i - start] == batch[start..i];
    assert batch[start..][i - start..] == batch[i..];
  }

  /** The open chunk takes message `i`. */
  lemma ExtendChunk<T>(batch: seq<T>, start: nat, i: nat, size: T -> nat, target: int)
    requires start <= i < |batch|
    ensures Total(batch[start..i + 1], size) == Total(batch[start..i], size) + size(batch[i])
    ensures start < i && Total(batch[start..i + 1], size) <= target ==>
              Cut(batch[start..], i - start, size, target) == Cut(batch[start..], i + 1 - start, size, target)
  {
    assert batch[start..i + 1][..i - start] == batch[start..i];
    assert batch[start..][..i - start] == batch[start..i];
  }

  /** The loop state before message `i`: greedy is to be continued at `start`, and the open chunk up to `i` is the
      beginning of its next chunk. */
  ghost predicate Chunking<T>(
    batch: seq<T>, chunks: seq<seq<T>>, start: nat, i: nat, total: int, size: T -> nat, target: int)
  {
    && start <= i <= |batch| && (i > 0 ==> start < i)
    && total == Total(batch[start..i], size)
    && chunks + Greedy(batch[start..], size, target) == Greedy(batch, size, target)
    && (i > 0 ==> Cut(batch[start..], 1, size, target) == Cut(batch[start..], i - start, size, target))
  }

  lemma TakeMessage<T>(batch: seq<T>, chunks: seq<seq<T>>, start: nat, i: nat, total: int, size: T -> nat, target: int)
    requires Chunking(batch, chunks, start, i, total, size, target) && i < |batch|
    requires total + size(batch[i]) <= target || start == i
    ensures Chunking(batch, chunks, start, i + 1, total + size(batch[i]), size, target)
  {
    ExtendChunk(batch, start, i, size, target);
  }

  lemma StartNext<T>(batch: seq<T>, chunks: seq<seq<T>>, start: nat, i: nat, total: int, size: T -> nat, target: int)
    requires Chunking(batch, chunks, start, i, total, size, target) && start < i < |batch|
    requires total + size(batch[i]) > target
    ensures Chunking(batch, chunks + [batch[start..i]], i, i + 1, size(batch[i]), size, target)
  {
    CloseChunk(batch, start, i, size, target);
    ExtendChunk(batch, i, i, size, target);
    var tail := Greedy(batch[i..], size, target);
    assert chunks + [batch[start..i]] + tail == chunks + ([batch[start..i]] + tail);
  }

  lemma LastChunk<T>(batch: seq<T>, chunks: seq<seq<T>>, start: nat, total: int, size: T -> nat, target: int)
    requires Chunking(batch, chunks, start, |batch|, total, size, target)
    ensures Greedy(batch, size, target) == if start < |batch| then chunks + [batch[start..]] else chunks
  {
    if start < |batch| {
      var rest := batch[start..];
      assert Cut(rest, 1, size, target) == |rest|;
      assert rest[..|rest|] == rest && rest[|rest|..] == [];
      assert Greedy(rest, size, target) == [rest] + [];
    }
  }

  /** The loop of ChunkProtoBatch; it is greedy. */
  method Chunks<T(==)>(batch: seq<T>, size: T -> nat, target: int) returns (chunks: seq<seq<T>>)
    ensures chunks == Greedy(batch, size, target)
  {
    chunks := [];
    var start, total := 0, 0;
    assert batch[0..] == batch;
    for i := 0 to |batch|
      invariant Chunking(batch, chunks, start, i, total, size, target)
    {
      var s := size(batch[i]);
      if total + s > target {
        if start < i {
          StartNext(batch, chunks, start, i, total, size, target);
          chunks := chunks + [batch[start..i]];
        } else {
          TakeMessage(batch, chunks, start, i, total, size, target);
        }
        start := i;
        total := 0;
      } else {
        TakeMessage(batch, chunks, start, i, total, size, target);
      }
      total := total + s;
    }
    LastChunk(batch, chunks, start, total, size, target);
    if start < |batch| {
      chunks := chunks + [batch[start..]];
    }
  }

  /** The total adds up the sizes, and the concatenation the chunks. */
  lemma Adds<T>(ms: seq<T>, m: T, chunks: seq<seq<T>>, size: T -> nat)
    ensures Total([], size) == 0 && Total(ms + [m], size) == Total(ms, size) + size(m)
    ensures Flatten<T>([]) == [] && Flatten([ms] + chunks) == ms + Flatten(chunks)
  {
    assert (ms + [m])[..|ms|] == ms && ([ms] + chunks)[1..] == chunks;
  }

  /** The chunks are the batch in order, each not empty and within the target unless it is a single message, and no
      chunking of the batch has fewer. */
  method ChunkProtoBatch<T(==)>(batch: seq<T>, size: T -> nat, target: int) returns (chunks: seq<seq<T>>)
    ensures IsChunking(chunks, batch, size, target)
    ensures Flatten(chunks) == batch
    ensures forall c <- chunks :: |c| == 1 || (|c| > 1 && Total(c, size) <= target)
    ensures forall other :: IsChunking(other, batch, size, target) ==> |chunks| <= |other|
  {
    chunks := Chunks(batch, size, target);
    GreedyIsChunking(batch, size, target);
    forall other | IsChunking(other, batch, size, target) ensures |chunks| <= |other| {
      GreedyStaysAhead(batch, 0, other, size, target);
      assert batch[0..] == batch;
    }
  }

  // ---------------------------------------------------------------------------------------------------------
  // SendParticipantUpdates
  // ---------------------------------------------------------------------------------------------------------

  predicate IsCloseNotifySkippable(reason: CloseReason) { reason == DuplicateIdentity }

  /** What a client that handles identity-based reconnects need not hear. */
  predicate Skippable(u: Update) { u.isSynthesizedDisconnect || IsCloseNotifySkippable(u.closeReason) }

  function Infos(updates: seq<Update>, filtered: bool): seq<Info> {
    if updates == [] then []
    else
      var u := updates[|updates| - 1];
      Infos(updates[..|updates| - 1], filtered) + (if filtered && Skippable(u) then [] else [u.info])
  }

  /** The filtered list leaves out exactly the synthesized disconnects and the updates closed because of a duplicate
      identity, the full one nothing; both keep the order. */
  lemma InfosOf(updates: seq<Update>, u: Update)
    ensures Infos([], true) == Infos([], false) == []
    ensures Infos(updates + [u], false) == Infos(updates, false) + [u.info]
    ensures Infos(updates + [u], true)
         == Infos(updates, true) +
            (if u.isSynthesizedDisconnect || u.closeReason == DuplicateIdentity then [] else [u.info])
  {
    assert (updates + [u])[..|updates|] == updates;
  }

  /** A recipient: whether it supports identity-based reconnection, and which of its sends fails first. */
  datatype Recipient = Recipient(identityBased: bool, failsAt: nat)

  lemma {:induction false} FlattenPrefix<T>(chunks: seq<seq<T>>, n: nat)
    requires n <= |chunks|
    ensures Flatten(chunks[..n]) <= Flatten(chunks)
  {
    assert chunks == chunks[..n] + chunks[n..];
    FlattenConcat(chunks[..n], chunks[n..]);
  }

  /** `sent` is what a recipient gets of its list of infos: all of it in order, or, after a failed send, the
      chunks up to and including the failed one. */
  ghost predicate Serves(sent: seq<seq<Info>>, infos: seq<Info>, failsAt: nat, size: Info -> nat, target: int) {
    && Flatten(sent) <= infos
    && (|sent| <= failsAt ==> Flatten(sent) == infos)
    && |sent| <= failsAt + 1
    && forall c <- sent :: Fits(c, size, target)
  }

  /** The lists of infos for clients without and with identity-based reconnection. */
  method SplitUpdates(updates: seq<Update>) returns (full: seq<Info>, filtered: seq<Info>)
    ensures full == Infos(updates, false) && filtered == Infos(updates, true)
  {
    full, filtered := [], [];
    for i := 0 to |updates|
      invariant full == Infos(updates[..i], false) && filtered == Infos(updates[..i], true)
    {
      assert updates[..i + 1][..i] == updates[..i];
      if !(updates[i].isSynthesizedDisconnect || IsCloseNotifySkippable(updates[i].closeReason)) {
        filtered := filtered + [updates[i].info];
      }
      full := full + [updates[i].info];
    }
    assert updates[..|updates|] == updates;
  }

  /** The inner loop: chunk by chunk until one send fails. */
  method SendChunks(chunks: seq<seq<Info>>, failsAt: nat,
      ghost infos: seq<Info>, ghost size: Info -> nat, ghost target: int)
    returns (sent: seq<seq<Info>>)
    requires Flatten(chunks) == infos && forall c <- chunks :: Fits(c, size, target)
    ensures Serves(sent, infos, failsAt, size, target)
  {
    sent := [];
    for n := 0 to |chunks|
      invariant sent == chunks[..n] && n <= failsAt
    {
      FlattenPrefix(chunks, n + 1);
      sent := sent + [chunks[n]];
      assert sent == chunks[..n + 1];
      if n == failsAt {
        return;
      }
    }
    assert sent == chunks;
  }

  /** The outer loop over the participants. */
  method SendToAll(participants: seq<Recipient>, fullChunks: seq<seq<Info>>, filteredChunks: seq<seq<Info>>,
      ghost updates: seq<Update>, ghost size: Info -> nat, ghost target: int)
    returns (sent: seq<seq<seq<Info>>>)
    requires Flatten(fullChunks) == Infos(updates, false) && forall c <- fullChunks :: Fits(c, size, target)
    requires Flatten(filteredChunks) == Infos(updates, true) && forall c <- filteredChunks :: Fits(c, size, target)
    ensures |sent| == |participants|
    ensures forall i :: 0 <= i < |participants| ==>
              Serves(sent[i], Infos(updates, participants[i].identityBased), participants[i].failsAt, size, target)
  {
    sent := [];
    for i := 0 to |participants|
      invariant |sent| == i
      invariant forall j :: 0 <= j < i ==>
                  Serves(sent[j], Infos(updates, participants[j].identityBased), participants[j].failsAt, size, target)
    {
      var p := participants[i];
      var chunks := if p.identityBased then filteredChunks else fullChunks;
      var one := SendChunks(chunks, p.failsAt, Infos(updates, p.identityBased), size, target);
      sent := sent + [one];
    }
  }

  /** Every recipient is sent its full or filtered list of infos in order; every chunk fits the target or is a
      single info. */
  method SendParticipantUpdates(updates: seq<Update>, participants: seq<Recipient>, size: Info -> nat, target: int)
    returns (sent: seq<seq<seq<Info>>>)
    ensures |sent| == |participants|
    ensures forall i :: 0 <= i < |participants| ==>
              Serves(sent[i], Infos(updates, participants[i].identityBased), participants[i].failsAt, size, target)
  {
    var fullUpdates, filteredUpdates := SplitUpdates(updates);
    var filteredChunks := ChunkProtoBatch(filteredUpdates, size, target);
    var fullChunks := ChunkProtoBatch(fullUpdates, size, target);
    sent := SendToAll(participants, fullChunks, filteredChunks, updates, size, target);
  }
}
