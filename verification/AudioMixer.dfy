/** The capture agent's mixer, src/audio_mixer.cc: two drop-oldest ring buffers and the mixed frame. Samples are
    real numbers. */
module AudioMixer {
  const FRAME_SAMPLES := 480

  // ---------------------------------------------------------------------------------------------------------
  // The bounded drop-oldest sequence
  // ---------------------------------------------------------------------------------------------------------

  /** The newest `capacity` samples. */
  function Newest(s: seq<real>, capacity: nat): seq<real> {
    if |s| <= capacity then s else s[|s| - capacity..]
  }

  datatype Event = Write(data: seq<real>) | Read(count: nat)

  /** What became of one written sample. */
  datatype Fate = Consumed(sample: real) | Overwritten(sample: real)

  /** A history: everything written, what happened to the samples no longer available (oldest first), and those
      that are. */
  datatype History = History(written: seq<real>, gone: seq<Fate>, available: seq<real>)

  function Fates(samples: seq<real>, consumed: bool): seq<Fate> {
    seq(|samples|, i requires 0 <= i < |samples| => if consumed then Consumed(samples[i]) else Overwritten(samples[i]))
  }

  function Step(h: History, e: Event, capacity: nat): History {
    match e
    case Write(data) =>
      var all := h.available + data;
      var dropped := |all| - |Newest(all, capacity)|;
      History(h.written + data, h.gone + Fates(all[..dropped], false), all[dropped..])
    case Read(count) =>
      var n := if count <= |h.available| then count else |h.available|;
      History(h.written, h.gone + Fates(h.available[..n], true), h.available[n..])
  }

  function Exec(es: seq<Event>, capacity: nat): History {
    if es == [] then History([], [], []) else Step(Exec(es[..|es| - 1], capacity), es[|es| - 1], capacity)
  }

  function Samples(fates: seq<Fate>): seq<real> {
    seq(|fates|, i requires 0 <= i < |fates| => fates[i].sample)
  }

  lemma SamplesOfFates(gone: seq<Fate>, samples: seq<real>, consumed: bool)
    ensures Samples(gone + Fates(samples, consumed)) == Samples(gone) + samples
  {
  }

  lemma StepAccounts(h: History, e: Event, capacity: nat)
    requires Samples(h.gone) + h.available == h.written
    ensures var h' := Step(h, e, capacity); Samples(h'.gone) + h'.available == h'.written
  {
    match e
    case Write(data) =>
      var all := h.available + data;
      var dropped := |all| - |Newest(all, capacity)|;
      SamplesOfFates(h.gone, all[..dropped], false);
      assert Samples(h.gone) + all[..dropped] + all[dropped..] == Samples(h.gone) + all;
      assert Samples(h.gone) + all == h.written + data;
    case Read(count) =>
      var n := if count <= |h.available| then count else |h.available|;
      SamplesOfFates(h.gone, h.available[..n], true);
      assert Samples(h.gone) + h.available[..n] + h.available[n..] == Samples(h.gone) + h.available;
  }

  lemma StepBounded(h: History, e: Event, capacity: nat)
    requires |h.available| <= capacity
    ensures |Step(h, e, capacity).available| <= capacity
    ensures e.Write? && |e.data| >= capacity ==> Step(h, e, capacity).available == e.data[|e.data| - capacity..]
  {
  }

  /** Over any run, the written samples are exactly those read or overwritten, in the order written, followed by
      those still available; never more than the capacity is available; and a write longer than the capacity
      leaves exactly its newest samples. */
  lemma {:induction false} EverySampleAccountedFor(es: seq<Event>, capacity: nat)
    ensures
      var h := Exec(es, capacity);
      && Samples(h.gone) + h.available == h.written
      && |h.available| <= capacity
      && (es != [] && es[|es| - 1].Write? && |es[|es| - 1].data| >= capacity ==>
            h.available == es[|es| - 1].data[|es[|es| - 1].data| - capacity..])
  {
    if es != [] {
      var init, e := es[..|es| - 1], es[|es| - 1];
      EverySampleAccountedFor(init, capacity);
      var before := Exec(init, capacity);
      StepAccounts(before, e, capacity);
      StepBounded(before, e, capacity);
    }
  }

  /** A read consumes the oldest samples, as many as asked for or all there are. */
  lemma ReadTakesOldest(es: seq<Event>, count: nat, capacity: nat)
    ensures
      var h, h' := Exec(es, capacity), Exec(es + [Read(count)], capacity);
      var n := |h.available| - |h'.available|;
      && n == (if count < |h.available| then count else |h.available|)
      && h'.available == h.available[n..] && |h'.gone| == |h.gone| + n && h.gone <= h'.gone
      && forall i :: 0 <= i < n ==> h'.gone[|h.gone| + i] == Consumed(h.available[i])
  {
    assert (es + [Read(count)])[..|es|] == es;
  }

  ghost predicate Lossless(h: History) { forall f <- h.gone :: f.Consumed? }

  /** Every write of the run finds room for all its samples. */
  ghost predicate WritesFit(es: seq<Event>, capacity: nat) {
    es == [] ||
    (var init, e := es[..|es| - 1], es[|es| - 1];
     WritesFit(init, capacity) && (e.Write? ==> |Exec(init, capacity).available| + |e.data| <= capacity))
  }

  lemma StepLoses(h: History, e: Event, capacity: nat)
    ensures Lossless(Step(h, e, capacity)) <==>
              Lossless(h) && (e.Write? ==> |h.available| + |e.data| <= capacity)
  {
    match e
    case Write(data) =>
      var all := h.available + data;
      LosslessSnoc(h, all[..|all| - |Newest(all, capacity)|], false);
    case Read(count) =>
      LosslessSnoc(h, h.available[..if count <= |h.available| then count else |h.available|], true);
  }

  lemma LosslessSnoc(h: History, samples: seq<real>, consumed: bool)
    ensures Lossless(h.(gone := h.gone + Fates(samples, consumed))) <==> Lossless(h) && (consumed || samples == [])
  {
    var all := h.gone + Fates(samples, consumed);
    assert forall f <- h.gone :: f in all;
    assert forall f <- Fates(samples, consumed) :: f in all && (f.Consumed? <==> consumed);
    if samples != [] { assert Fates(samples, consumed)[0] in Fates(samples, consumed); }
  }

  /** A run loses no sample if and only if every write finds room; the reader then gets exactly what was written. */
  lemma {:induction false} LosslessIff(es: seq<Event>, capacity: nat)
    ensures Lossless(Exec(es, capacity)) <==> WritesFit(es, capacity)
  {
    if es != [] {
      LosslessIff(es[..|es| - 1], capacity);
      StepLoses(Exec(es[..|es| - 1], capacity), es[|es| - 1], capacity);
    }
  }

  // ---------------------------------------------------------------------------------------------------------
  // The ring buffer
  // ---------------------------------------------------------------------------------------------------------

  /** Position `i` samples after the read position. */
  function Wrap(i: nat, size: nat): (r: nat)
    requires i < 2 * size
    ensures r < size
  {
    if i < size then i else i - size
  }

  /** The `n` samples of a ring from position `r` on, oldest first. */
  function Ring(b: seq<real>, r: nat, n: nat): (s: seq<real>)
    requires r < |b| && n <= |b|
    ensures |s| == n
  {
    if r + n <= |b| then b[r..r + n] else b[r..] + b[..r + n - |b|]
  }

  lemma RingAt(b: seq<real>, r: nat, n: nat, i: nat)
    requires r < |b| && n <= |b| && i < n
    ensures Ring(b, r, n)[i] == b[Wrap(r + i, |b|)]
  {
  }

  /** `(p + 1) % size`, as the source moves its positions. */
  method Next(p: nat, size: nat) returns (q: nat)
    requires p < size
    ensures q == Wrap(p + 1, size)
  {
    q := (p + 1) % size;
  }

  /** Writing behind the last sample appends it. */
  lemma RingAppend(b: seq<real>, r: nat, n: nat, x: real)
    requires r < |b| && n < |b|
    ensures Ring(b[Wrap(r + n, |b|) := x], r, n + 1) == Ring(b, r, n) + [x]
  {
    var b' := b[Wrap(r + n, |b|) := x];
    forall i | 0 <= i < n + 1 ensures Ring(b', r, n + 1)[i] == (Ring(b, r, n) + [x])[i] {
      RingAt(b', r, n + 1, i);
      if i < n { RingAt(b, r, n, i); }
    }
  }

  /** Moving the read position forward drops the oldest sample. */
  lemma RingDrop(b: seq<real>, r: nat, n: nat)
    requires r < |b| && 0 < n <= |b|
    ensures Ring(b, Wrap(r + 1, |b|), n - 1) == Ring(b, r, n)[1..]
  {
    forall i | 0 <= i < n - 1 ensures Ring(b, Wrap(r + 1, |b|), n - 1)[i] == Ring(b, r, n)[1..][i] {
      RingAt(b, Wrap(r + 1, |b|), n - 1, i);
      RingAt(b, r, n, i + 1);
    }
  }

  /** In a full ring, writing overwrites the oldest sample and moves the read position past it. */
  lemma RingOverwrite(b: seq<real>, r: nat, x: real)
    requires r < |b|
    ensures Ring(b[r := x], Wrap(r + 1, |b|), |b|) == Ring(b, r, |b|)[1..] + [x]
  {
    var b', r' := b[r := x], Wrap(r + 1, |b|);
    forall i | 0 <= i < |b| ensures Ring(b', r', |b|)[i] == (Ring(b, r, |b|)[1..] + [x])[i] {
      RingAt(b', r', |b|, i);
      if i < |b| - 1 { RingAt(b, r, |b|, i + 1); }
    }
  }

  /** One write, in a ring with room and in a full one. */
  lemma WriteStep(b: seq<real>, r: nat, n: nat, x: real)
    requires r < |b| && n <= |b|
    ensures
      var b' := b[Wrap(r + n, |b|) := x];
      if n < |b| then
        && Ring(b', r, n + 1) == Newest(Ring(b, r, n) + [x], |b|)
        && Wrap(Wrap(r + n, |b|) + 1, |b|) == Wrap(r + (n + 1), |b|)
      else
        && Ring(b', Wrap(r + 1, |b|), n) == Newest(Ring(b, r, n) + [x], |b|)
        && Wrap(Wrap(r + n, |b|) + 1, |b|) == Wrap(Wrap(r + 1, |b|) + n, |b|)
  {
    var s := Ring(b, r, n) + [x];
    if n < |b| {
      RingAppend(b, r, n, x);
      assert Newest(s, |b|) == s;
    } else {
      RingOverwrite(b, r, x);
      assert Newest(s, |b|) == s[1..] == Ring(b, r, n)[1..] + [x];
    }
  }

  lemma NewestNow(s: seq<real>, data: seq<real>, capacity: nat)
    requires |s| <= capacity
    ensures s == Newest(s + data[..0], capacity)
  {
    assert s + data[..0] == s;
  }

  /** Dropping the oldest early changes nothing. */
  lemma NewestSnoc(s: seq<real>, x: real, capacity: nat)
    ensures Newest(Newest(s, capacity) + [x], capacity) == Newest(s + [x], capacity)
  {
    if |s| > capacity {
      assert (s[|s| - capacity..] + [x])[1..] == (s + [x])[|s| + 1 - capacity..];
    }
  }

  lemma NewestTwice(s: seq<real>, data: seq<real>, i: nat, capacity: nat)
    requires i < |data|
    ensures Newest(Newest(s + data[..i], capacity) + [data[i]], capacity) == Newest(s + data[..i + 1], capacity)
  {
    NewestSnoc(s + data[..i], data[i], capacity);
    assert s + data[..i + 1] == s + data[..i] + [data[i]];
  }

  /** Position `r` of the ring is where sample `i` of `all` is still to be read, with all that follow it. */
  ghost predicate Reading(b: seq<real>, r: nat, all: seq<real>, i: nat) {
    i <= |all| && r < |b| && |all| - i <= |b| && Ring(b, r, |all| - i) == all[i..]
  }

  lemma OneMore(all: seq<real>, i: nat)
    requires i < |all|
    ensures all[..i + 1] == all[..i] + [all[i]] && all[i..][0] == all[i] && all[i..][1..] == all[i + 1..]
  {
  }

  lemma ReadStep(b: seq<real>, r: nat, all: seq<real>, i: nat)
    requires Reading(b, r, all, i) && i < |all|
    ensures all[..i + 1] == all[..i] + [b[r]] && Reading(b, Wrap(r + 1, |b|), all, i + 1)
    ensures Wrap(Wrap(r + 1, |b|) + (|all| - i - 1), |b|) == Wrap(r + (|all| - i), |b|)
  {
    RingAt(b, r, |all| - i, 0);
    RingDrop(b, r, |all| - i);
    OneMore(all, i);
  }

  class RingBuffer {
    const buf: array<real>
    var readPos: nat
    var writePos: nat
    var available: nat

    ghost predicate Valid()
      reads this
    {
      && readPos < buf.Length && available <= buf.Length
      && writePos == Wrap(readPos + available, buf.Length)
    }

    /** The available samples, oldest first. */
    ghost function Contents(): seq<real>
      requires Valid()
      reads this, buf
    {
      Ring(buf[..], readPos, available)
    }

    constructor (capacity: nat)
      requires capacity > 0
      ensures Valid() && Contents() == [] && buf.Length == capacity && fresh(buf)
    {
      buf := new real[capacity](_ => 0.0);
      readPos, writePos, available := 0, 0, 0;
    }

    method Store(x: real)
      requires writePos < buf.Length
      modifies buf
      ensures buf[..] == old(buf[..])[writePos := x]
    {
      buf[writePos] := x;
    }

    /** Move past the sample just stored, and past the oldest one when the ring is full. */
    method Advance()
      requires Valid()
      modifies this
      ensures writePos == Wrap(old(writePos) + 1, buf.Length)
      ensures if old(available) < buf.Length then available == old(available) + 1 && readPos == old(readPos)
              else available == old(available) && readPos == Wrap(old(readPos) + 1, buf.Length)
    {
      writePos := Next(writePos, buf.Length);
      if available < buf.Length {
        available := available + 1;
      } else {
        readPos := Next(readPos, buf.Length);
      }
    }

    /** The body of the Write loop. */
    method WriteOne(x: real)
      requires Valid()
      modifies this, buf
      ensures Valid() && Contents() == Newest(old(Contents()) + [x], buf.Length)
    {
      WriteStep(buf[..], readPos, available, x);
      Store(x);
      Advance();
    }

    /** Refines the bounded sequence: append, then keep the newest `capacity`. */
    method WriteAll(data: seq<real>)
      requires Valid()
      modifies this, buf
      ensures Valid() && Contents() == Newest(old(Contents()) + data, buf.Length)
    {
      ghost var before, s := Contents(), Contents();
      NewestNow(before, data, buf.Length);
      for i := 0 to |data|
        invariant Valid() && Contents() == s && s == Newest(before + data[..i], buf.Length)
      {
        NewestTwice(before, data, i, buf.Length);
        s := Newest(s + [data[i]], buf.Length);
        WriteOne(data[i]);
      }
      assert data[..|data|] == data;
    }

    method ReadAll(count: nat) returns (data: seq<real>)
      requires Valid()
      modifies this`readPos, this`available
      ensures Valid()
      ensures var n := if count <= |old(Contents())| then count else |old(Contents())|;
              data == old(Contents())[..n] && Contents() == old(Contents())[n..]
    {
      var toRead := if count <= available then count else available;
      data := ReadExactly(toRead, Contents());
      available := available - toRead;
    }

    /** The body of the Read loop. */
    method ReadOne(ghost all: seq<real>, ghost i: nat) returns (x: real)
      requires Reading(buf[..], readPos, all, i) && i < |all| && writePos == Wrap(readPos + (|all| - i), buf.Length)
      modifies this`readPos
      ensures all[..i + 1] == all[..i] + [x] && Reading(buf[..], readPos, all, i + 1)
      ensures writePos == Wrap(readPos + (|all| - i - 1), buf.Length)
    {
      ReadStep(buf[..], readPos, all, i);
      x := buf[readPos];
      readPos := Next(readPos, buf.Length);
    }

    /** The Read loop. */
    method ReadExactly(toRead: nat, ghost all: seq<real>) returns (data: seq<real>)
      requires Valid() && all == Contents() && toRead <= available
      modifies this`readPos
      ensures data == all[..toRead] && Reading(buf[..], readPos, all, toRead)
      ensures writePos == Wrap(readPos + (|all| - toRead), buf.Length)
    {
      data := [];
      for i := 0 to toRead
        invariant data == all[..i] && Reading(buf[..], readPos, all, i)
        invariant writePos == Wrap(readPos + (|all| - i), buf.Length)
      {
        var x := ReadOne(all, i);
        data := data + [x];
      }
    }

    function Available(): (r: nat)
      requires Valid()
      reads this, buf
      ensures r == |Contents()|
    {
      available
    }
  }

  // ---------------------------------------------------------------------------------------------------------
  // The mixed frame
  // ---------------------------------------------------------------------------------------------------------

  function Clamp(x: real, lo: real, hi: real): (r: real)
    requires lo <= hi
    ensures r == x || (r == lo && x < lo) || (r == hi && x > hi)
    ensures lo <= r <= hi
  {
    if x < lo then lo else if x > hi then hi else x
  }

  /** Sample `i` of a mixed frame; an empty source contributes nothing. */
  function Mixed(mic: seq<real>, sys: seq<real>, micGain: real, sysGain: real, i: nat): real
    requires (mic == [] || i < |mic|) && (sys == [] || i < |sys|)
  {
    Clamp((if mic == [] then 0.0 else mic[i] * micGain) + (if sys == [] then 0.0 else sys[i] * sysGain), -1.0, 1.0)
  }

  /** Each source comes with its own gain, an empty one is silent, and what exceeds full scale is cut there. */
  lemma MixedIs(mic: seq<real>, sys: seq<real>, micGain: real, sysGain: real, i: nat)
    requires (mic == [] || i < |mic|) && (sys == [] || i < |sys|)
    ensures
      var sum := if mic == [] && sys == [] then 0.0
                 else if sys == [] then mic[i] * micGain
                 else if mic == [] then sys[i] * sysGain
                 else mic[i] * micGain + sys[i] * sysGain;
      Mixed(mic, sys, micGain, sysGain, i) == if sum < -1.0 then -1.0 else if sum > 1.0 then 1.0 else sum
  {
  }

  class Mixer {
    const mic: RingBuffer
    const system: RingBuffer
    var micGain: real
    var systemGain: real
    var micActive: bool
    var systemActive: bool

    ghost predicate Valid()
      reads this, mic, system
    {
      mic != system && mic.buf != system.buf && mic.Valid() && system.Valid()
    }

    constructor ()
      ensures Valid() && mic.Contents() == [] && system.Contents() == [] && !micActive && !systemActive
    {
      mic := new RingBuffer(48000);
      system := new RingBuffer(48000);
      micGain, systemGain, micActive, systemActive := 1.0, 0.8, false, false;
    }

    method SetMicGain(gain: real)
      modifies this`micGain
      ensures micGain == if gain < 0.0 then 0.0 else if gain > 1.0 then 1.0 else gain
    {
      micGain := Clamp(gain, 0.0, 1.0);
    }

    method PushMicData(data: seq<real>)
      requires Valid()
      modifies this`micActive, mic, mic.buf
      ensures Valid() && micActive && mic.Contents() == Newest(old(mic.Contents()) + data, mic.buf.Length)
      ensures system.Contents() == old(system.Contents())
    {
      micActive := true;
      mic.WriteAll(data);
    }

    /** The mixing loop: sum with gain, clamp. */
    method Mix(micData: seq<real>, sysData: seq<real>, out: array<real>, frames: nat)
      requires (micData == [] || |micData| == frames) && (sysData == [] || |sysData| == frames) && frames <= out.Length
      modifies out
      ensures forall i :: 0 <= i < out.Length ==>
                out[i] == if i < frames then Mixed(micData, sysData, micGain, systemGain, i) else old(out[i])
    {
      for i := 0 to frames
        invariant forall j :: 0 <= j < out.Length ==>
                    out[j] == if j < i then Mixed(micData, sysData, micGain, systemGain, j) else old(out[j])
      {
        var sample := 0.0;
        if |micData| > 0 {
          sample := sample + micData[i] * micGain;
        }
        if |sysData| > 0 {
          sample := sample + sysData[i] * systemGain;
        }
        out[i] := Clamp(sample, -1.0, 1.0);
      }
    }

    /** A source is ready when it was ever pushed to and holds a whole frame.
        Consumes exactly one frame from each ready source and nothing from the other; writes only when it can. A
        negative count wraps to a huge one in the source, which no source can fill. */
    method GetMixedFrame(out: array<real>, frames: int) returns (ok: bool)
      requires Valid() && frames <= FRAME_SAMPLES && frames <= out.Length
      requires out != mic.buf && out != system.buf
      modifies mic, system, out
      ensures Valid()
      ensures
        var m, s := old(mic.Contents()), old(system.Contents());
        var micReady := old(micActive) && frames >= 0 && |m| >= frames;
        var sysReady := old(systemActive) && frames >= 0 && |s| >= frames;
        && ok == (micReady || sysReady)
        && mic.Contents() == (if micReady then m[frames..] else m)
        && system.Contents() == (if sysReady then s[frames..] else s)
        && (!ok ==> out[..] == old(out[..]))
        && (ok ==> forall i :: 0 <= i < out.Length ==>
              out[i] == if i < frames then
                          Mixed(if micReady then m[..frames] else [], if sysReady then s[..frames] else [],
                                micGain, systemGain, i)
                        else old(out[i]))
    {
      var micReady := micActive && frames >= 0 && mic.Available() >= frames;
      var sysReady := systemActive && frames >= 0 && system.Available() >= frames;
      if !micReady && !sysReady {
        return false;
      }
      var micData, sysData := [], [];
      if micReady {
        micData := mic.ReadAll(frames);
      }
      if sysReady {
        sysData := system.ReadAll(frames);
      }
      Mix(micData, sysData, out, frames);
      return true;
    }
  }
}
