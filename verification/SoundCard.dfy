/** The sound card's ring memory. A looping card plays whatever the memory holds until it is
    stopped, so every period that is not queued must be silent; and what is queued must be what
    was written, in order.
  */
module SoundCard {
  import opened Bytes
  import opened Outcomes
  import opened Resampling
  import opened SoundFormat
  import opened SoundRing

  type Period = seq<Byte>

  function Silence(): (r: Period)
    ensures |r| == PERIOD_BYTES
  {
    Zeros(PERIOD_BYTES)
  }

  ghost function Concat(ps: seq<Period>): seq<Byte> {
    if ps == [] then [] else Concat(ps[..|ps| - 1]) + ps[|ps| - 1]
  }

  /** The queued periods hold the audio, in order; the others are silent. */
  ghost predicate Laid(buffer: seq<Period>, first: nat, audio: seq<Period>) {
    && |buffer| == PERIODS && |audio| <= MAX_QUEUED && first < PERIODS
    && forall i: nat :: i < PERIODS ==> buffer[Slot(first, i)] == if i < |audio| then audio[i] else Silence()
  }

  /** Which place in the ring a period has, counted from `first`. */
  lemma PlaceOf(first: nat, p: nat) returns (i: nat)
    requires p < PERIODS && first < PERIODS
    ensures i < PERIODS && Slot(first, i) == p
  {
    i := (p + PERIODS - first) % PERIODS;
  }

  /** What the converter took and gave, and what is written and not yet played. */
  datatype Progress = Progress(stream: seq<Byte>, outs: seq<Frame>, unplayed: seq<Byte>)

  /** The input was taken, and what came out of it was written. */
  ghost predicate Moved(a: Progress, b: Progress, input: seq<Byte>, bytes: seq<Byte>) {
    && b.stream == a.stream + input && b.unplayed == a.unplayed + bytes
    && a.outs <= b.outs && Emitted(bytes, b.outs[|a.outs|..])
  }

  lemma SliceJoin(s: seq<Byte>, a: nat, n: nat)
    requires a + n <= |s|
    ensures s[..a + n] == s[..a] + s[a..][..n]
  {
  }

  lemma NotMoved(a: Progress)
    ensures Moved(a, a, [], [])
  {
  }

  lemma MovedOn(a: Progress, b: Progress, c: Progress, input: seq<Byte>, bytes: seq<Byte>, input': seq<Byte>,
                bytes': seq<Byte>, all: seq<Byte>)
    requires Moved(a, b, input, bytes) && Moved(b, c, input', bytes') && all == input + input'
    ensures Moved(a, c, all, bytes + bytes')
  {
    var (f, g) := (b.outs[|a.outs|..], c.outs[|b.outs|..]);
    assert c.outs[|a.outs|..] == f + g;
    BothEmitted(bytes, f, bytes', g);
  }

  class Card {
    const ring: Ring
    var buffer: seq<Period>
    var staging: Period
    /** Set when the card has halted but may be running on through silence. */
    var quiet: bool
    var open: bool
    var draining: bool
    var underruns: nat
    var stalls: nat
    /** The device: whether the card may be moving through the memory. */
    var moving: bool
    /** The queued periods' contents, and the bytes of the period being filled. */
    ghost var audio: seq<Period>
    ghost var pending: seq<Byte>

    ghost predicate Valid()
      reads this, ring
    {
      && ring.Valid() && |audio| == ring.queued && Laid(buffer, ring.firstQueued, audio)
      && |staging| == PERIOD_BYTES && |pending| == ring.fillBytes && staging[..ring.fillBytes] == pending
      && ring.fillBytes % 4 == 0 && MotionOk()
    }

    /** While the ring runs the card moves and is not quiet; a card that may be moving while the
        ring is idle is quiet; a quiet card has nothing queued. */
    ghost predicate MotionOk()
      reads this, ring
    {
      (ring.running ==> moving && !quiet) && (moving && !ring.running ==> quiet) && (quiet ==> audio == [])
    }

    /** So a card that may be moving while the ring is idle finds every period silent. */
    lemma MovingIdleIsSilent(p: nat)
      requires Valid() && moving && !ring.running && p < PERIODS
      ensures quiet && buffer[p] == Silence()
    {
      var i := PlaceOf(ring.firstQueued, p);
      assert buffer[Slot(ring.firstQueued, i)] == Silence();
    }

    /** `apply`: only a card at rest is started, only a moving one extended. */
    method Apply(a: Action)
      requires (a.Start? ==> !moving) && (a.Submit? ==> moving)
      modifies this`moving
      ensures moving == (old(moving) || a.Start?)
    {
      if a.Start? {
        moving := true;
      }
    }

    method StopDevice()
      modifies this`moving
      ensures !moving
    {
      moving := false;
    }

    /** A period that is not queued is silent. */
    lemma UnqueuedIsSilent(p: nat)
      requires Valid() && p < PERIODS && !ring.Queued(p)
      ensures buffer[p] == Silence()
    {
      var i := PlaceOf(ring.firstQueued, p);
      assert i >= ring.queued;
      assert buffer[Slot(ring.firstQueued, i)] == Silence();
    }

    /** What has been written and not yet played. */
    ghost function Unplayed(): seq<Byte>
      reads this
    {
      Concat(audio) + pending
    }

    /** Bytes until the ring is full. */
    ghost function Room(): int
      reads this, ring
    {
      PERIODS * PERIOD_BYTES - ring.queued * PERIOD_BYTES - ring.fillBytes
    }

    constructor ()
      ensures Valid() && fresh(ring) && audio == [] && pending == [] && !ring.running && !moving
      ensures !quiet && !open && !draining && underruns == 0 && stalls == 0
    {
      ring := new Ring();
      buffer := seq(PERIODS, _ => Silence());
      staging := Silence();
      quiet, open, draining, underruns, stalls, moving := false, false, false, 0, 0, false;
      audio, pending := [], [];
    }

    /** `poll`: catch up with the card and silence what it has finished; drop everything if it has
        stalled. A card that halts may stop by itself or run on. */
    method Poll(status: Status, stalled: bool, stops: bool)
      requires Valid()
      modifies this, ring
      ensures Valid() && ring.queued <= |old(audio)| && audio == old(audio)[|old(audio)| - ring.queued..]
      ensures pending == old(pending) || (pending == [] && audio == [] && stalled && stalls == old(stalls) + 1)
      ensures old(ring.running) && status.halted ==> audio == [] && !ring.running && pending == old(pending)
      ensures !old(ring.running) ==> audio == old(audio) && pending == old(pending)
      ensures ring.running ==> old(ring.running)
      ensures old(ring.running) && !status.halted && PlaceIs(old(ring.firstQueued), 0, status.current) && stalled ==>
        audio == [] && pending == [] && !ring.running && stalls == old(stalls) + 1
      ensures !stalled || !old(ring.running) || status.halted ==> stalls == old(stalls)
      ensures old(ring.running) && !status.halted ==>
        forall d: nat :: 0 < d < old(ring.queued) && PlaceIs(old(ring.firstQueued), d, status.current) ==>
          audio == old(audio)[d..] && pending == old(pending) && stalls == old(stalls)
      ensures old(ring.running) && status.halted ==> quiet && moving == (old(moving) && !stops)
      ensures underruns == old(underruns) + if old(ring.running) && status.halted && open && !draining then 1 else 0
    {
      var u := Look(status);
      if u.count == 0 && ring.running && stalled {
        Stall();
      } else {
        Follow(u, stops);
      }
    }

    /** The ring has caught up and the card's own record has not. */
    ghost predicate Caught(u: Update)
      reads this, ring
    {
      && ring.Valid() && u.count <= |audio| && ring.queued == |audio| - u.count && u.first < PERIODS
      && Laid(buffer, u.first, audio) && (u.count < |audio| ==> ring.firstQueued == Slot(u.first, u.count))
      && |staging| == PERIOD_BYTES && |pending| == ring.fillBytes && staging[..ring.fillBytes] == pending
      && ring.fillBytes % 4 == 0 && (if u.halted then !ring.running && ring.queued == 0 else MotionOk())
    }

    method Look(status: Status) returns (u: Update)
      requires Valid()
      modifies ring
      ensures Caught(u) && (u.halted <==> old(ring.running) && status.halted)
      ensures u.halted ==> u.count == |audio|
      ensures !u.halted ==> ring.running == old(ring.running)
      ensures !old(ring.running) ==> u.count == 0
      ensures old(ring.running) && !status.halted ==>
        Passed(old(ring.firstQueued), old(ring.queued), status.current, u.count)
    {
      u := ring.CatchUp(status);
    }

    /** Everything is dropped ... */
    method Stall()
      requires ring.Valid() && |staging| == PERIOD_BYTES
      modifies this, ring
      ensures Valid() && audio == [] && pending == [] && !ring.running
      ensures stalls == old(stalls) + 1 && underruns == old(underruns)
    {
      Abandon();
      stalls := stalls + 1;
    }

    /** ... or the card's record follows the ring. */
    method Follow(u: Update, stops: bool)
      requires Caught(u)
      modifies this`quiet, this`moving, this`underruns, this`buffer, this`audio
      ensures Valid() && audio == old(audio)[u.count..]
      ensures underruns == old(underruns) + if u.halted && open && !draining then 1 else 0
      ensures u.halted ==> quiet && moving == (old(moving) && !stops)
    {
      if u.halted {
        Halted(stops);
      }
      Retire(u);
    }

    /** The end of the audio, or an underrun if more was expected. */
    method Halted(stops: bool)
      modifies this`quiet, this`moving, this`underruns
      ensures quiet && moving == (old(moving) && !stops)
      ensures underruns == old(underruns) + if open && !draining then 1 else 0
    {
      quiet := true;
      moving := moving && !stops;
      if open && !draining {
        underruns := underruns + 1;
      }
    }

    /** The finished periods go silent and out of the queue. */
    method Retire(u: Update)
      requires Laid(buffer, u.first, audio) && u.count <= |audio| && ring.firstQueued < PERIODS
      requires u.count < |audio| ==> ring.firstQueued == Slot(u.first, u.count)
      modifies this`buffer, this`audio
      ensures audio == old(audio)[u.count..] && Laid(buffer, ring.firstQueued, audio)
    {
      Quieten(u.first, u.count);
      ShiftLaid(buffer, u.first, audio, u.count, ring.firstQueued);
      audio := audio[u.count..];
    }

    method Quieten(first: nat, count: nat)
      requires Laid(buffer, first, audio) && count <= |audio|
      modifies this`buffer
      ensures |buffer| == PERIODS
      ensures forall i: nat :: i < PERIODS ==>
          buffer[Slot(first, i)] == if count <= i < |audio| then audio[i] else Silence()
    {
      var k := 0;
      while k < count
        invariant k <= count && |buffer| == PERIODS
        invariant forall i: nat :: i < PERIODS ==>
            buffer[Slot(first, i)] == if k <= i < |audio| then audio[i] else Silence()
      {
        forall i: nat | i < PERIODS && i != k
          ensures Slot(first, i) != Slot(first, k)
        {
          SlotsDiffer(first, i, k);
        }
        buffer := buffer[(first + k) % PERIODS := Silence()];
        k := k + 1;
      }
    }

    /** `reset`: the card is stopped and everything queued dropped. */
    method Reset()
      requires Valid()
      modifies this, ring
      ensures Valid() && audio == [] && pending == [] && !ring.running && !moving && !quiet
    {
      Abandon();
    }

    method Abandon()
      requires ring.Valid() && |staging| == PERIOD_BYTES
      modifies ring, this`buffer, this`quiet, this`moving, this`audio, this`pending
      ensures Valid() && audio == [] && pending == [] && !ring.running && !moving && !quiet
    {
      StopDevice();
      ring.Reset();
      buffer := seq(PERIODS, _ => Silence());
      quiet := false;
      audio, pending := [], [];
    }

    /** Bytes staged for the period being filled; once it is complete it goes into the ring. */
    method CommitStaged(bytes: seq<Byte>) returns (a: Action)
      requires Valid() && ring.queued < MAX_QUEUED && 0 < |bytes| && ring.fillBytes + |bytes| <= PERIOD_BYTES
      requires |bytes| % 4 == 0
      modifies this, ring
      ensures Valid() && Unplayed() == old(Unplayed()) + bytes
      ensures a.Start? ==> ring.firstQueued == 0 && a.last == ring.queued - 1
      ensures a.Submit? ==> ring.queued > 0 && a.last == Slot(ring.firstQueued, ring.queued - 1)
      ensures ring.fillBytes ==
              if old(ring.fillBytes) + |bytes| == PERIOD_BYTES then 0 else old(ring.fillBytes) + |bytes|
      ensures ring.queued == old(ring.queued) + if old(ring.fillBytes) + |bytes| == PERIOD_BYTES then 1 else 0
    {
      Stage(bytes);
      if ring.fillBytes + |bytes| == PERIOD_BYTES {
        a := CompletePeriod(bytes);
      } else {
        a := GrowPeriod(bytes);
      }
    }

    /** A card still running through silence would play new audio early: it is stopped first. */
    method Settle()
      requires MotionOk()
      modifies this`quiet, this`moving
      ensures !quiet && (moving <==> ring.running)
    {
      if quiet {
        quiet := false;
        StopDevice();
      }
    }

    /** The staged period is copied into the ring, then handed over. */
    method CompletePeriod(bytes: seq<Byte>) returns (a: Action)
      requires ring.Valid() && |audio| == ring.queued < MAX_QUEUED && Laid(buffer, ring.firstQueued, audio)
      requires |staging| == PERIOD_BYTES && |pending| == ring.fillBytes && staging[..PERIOD_BYTES] == pending + bytes
      requires ring.fillBytes + |bytes| == PERIOD_BYTES && MotionOk()
      modifies this`quiet, this`moving, this`buffer, this`audio, this`pending, ring
      ensures Valid() && Unplayed() == old(Unplayed()) + bytes && ring.fillBytes == 0
      ensures ring.queued == old(ring.queued) + 1
      ensures a.Start? ==> ring.firstQueued == 0 && a.last == ring.queued - 1
      ensures a.Submit? ==> ring.queued > 0 && a.last == Slot(ring.firstQueued, ring.queued - 1)
    {
      Settle();
      CopyPeriod(ring.fillPeriod, bytes);
      a := ring.Commit(|bytes|);
      Apply(a);
    }

    method CopyPeriod(period: nat, ghost bytes: seq<Byte>)
      requires Laid(buffer, ring.firstQueued, audio) && |audio| < MAX_QUEUED
      requires period == Slot(ring.firstQueued, |audio|)
      requires |staging| == PERIOD_BYTES == |pending| + |bytes| && staging[..PERIOD_BYTES] == pending + bytes
      modifies this`buffer, this`audio, this`pending
      ensures Laid(buffer, ring.firstQueued, audio) && audio == old(audio) + [staging] && pending == []
      ensures Unplayed() == old(Unplayed()) + bytes
    {
      FillLaid(buffer, ring.firstQueued, audio, staging);
      StagedPeriod(audio, pending, bytes, staging);
      buffer := buffer[period := staging];
      audio, pending := audio + [staging], [];
    }

    method GrowPeriod(bytes: seq<Byte>) returns (a: Action)
      requires ring.Valid() && |audio| == ring.queued < MAX_QUEUED && Laid(buffer, ring.firstQueued, audio)
      requires |staging| == PERIOD_BYTES && |pending| == ring.fillBytes && ring.fillBytes + |bytes| < PERIOD_BYTES
      requires staging[..ring.fillBytes + |bytes|] == pending + bytes && ring.fillBytes % 4 == 0 && |bytes| % 4 == 0
      requires MotionOk()
      modifies this`pending, ring
      ensures Valid() && Unplayed() == old(Unplayed()) + bytes && ring.fillBytes == old(ring.fillBytes) + |bytes|
      ensures ring.queued == old(ring.queued) && a == Nothing
    {
      assert Unplayed() + bytes == Concat(audio) + (pending + bytes);
      a := ring.Commit(|bytes|);
      pending := pending + bytes;
    }

    method Stage(bytes: seq<Byte>)
      requires Valid() && ring.fillBytes + |bytes| <= PERIOD_BYTES
      modifies this`staging
      ensures |staging| == PERIOD_BYTES && staging[..ring.fillBytes + |bytes|] == pending + bytes
    {
      var within := ring.fillBytes;
      staging := staging[..within] + bytes + staging[within + |bytes|..];
    }

    /** The loop of `write`: until the input is used up or the ring is full, what the converter
        makes of the input goes into the ring, in order. */
    method WriteSome(converter: Converter, input: seq<Byte>) returns (consumed: nat, ghost bytes: seq<Byte>)
      requires Valid() && converter.Valid()
      modifies this, ring, converter, converter.resampler
      ensures Valid() && converter.Valid() && consumed <= |input|
      ensures Moved(old(Progress(converter.stream, converter.outs, Unplayed())),
          Progress(converter.stream, converter.outs, Unplayed()), input[..consumed], bytes)
      ensures consumed == |input| || ring.queued == MAX_QUEUED
    {
      ghost var from := Progress(converter.stream, converter.outs, Unplayed());
      ghost var at := from;
      consumed, bytes := 0, [];
      NotMoved(from);
      while consumed < |input| && ring.queued < MAX_QUEUED
        invariant Valid() && converter.Valid() && consumed <= |input|
        invariant at == Progress(converter.stream, converter.outs, Unplayed())
        invariant Moved(from, at, input[..consumed], bytes)
        decreases |input| - consumed, Room()
      {
        var taken;
        ghost var more;
        taken, more := WriteChunk(converter, input[consumed..]);
        ghost var next := Progress(converter.stream, converter.outs, Unplayed());
        assert Moved(from, next, input[..consumed + taken], bytes + more) by {
          SliceJoin(input, consumed, taken);
          MovedOn(from, at, next, input[..consumed], bytes, input[consumed..][..taken], more,
              input[..consumed + taken]);
        }
        consumed, bytes, at := consumed + taken, bytes + more, next;
      }
    }

    /** One turn: what fits in the period being filled. */
    method WriteChunk(converter: Converter, input: seq<Byte>) returns (taken: nat, ghost bytes: seq<Byte>)
      requires Valid() && converter.Valid() && input != [] && ring.queued < MAX_QUEUED
      modifies this, ring, converter, converter.resampler
      ensures Valid() && converter.Valid() && taken <= |input|
      ensures Moved(old(Progress(converter.stream, converter.outs, Unplayed())),
          Progress(converter.stream, converter.outs, Unplayed()), input[..taken], bytes)
      ensures taken > 0 || Room() < old(Room())
    {
      var space := ring.Space();
      var output := new Byte[space.value.1];
      var produced;
      taken, produced := converter.Convert(input, output);
      bytes := output[..produced];
      if produced > 0 {
        var a := CommitStaged(output[..produced]);
      } else {
        assert Unplayed() + [] == Unplayed();
      }
    }

    /** `flush`: the partial period is padded with silence and the card started on what is
        queued, so that everything written is played. */
    method Flush()
      requires Valid()
      modifies this, ring
      ensures Valid() && (old(ring.queued) < MAX_QUEUED ==> pending == [])
      ensures exists n: nat :: n < PERIOD_BYTES && Unplayed() == old(Unplayed()) + Zeros(n)
      ensures ring.queued > 0 ==> ring.running
    {
      ghost var n: nat := 0;
      assert Unplayed() + Zeros(0) == Unplayed();
      if ring.fillBytes > 0 && ring.queued < MAX_QUEUED {
        n := PERIOD_BYTES - ring.fillBytes;
        var a := CommitStaged(Zeros(PERIOD_BYTES - ring.fillBytes));
      }
      assert Unplayed() == old(Unplayed()) + Zeros(n);
      var b := ring.Begin();
      Apply(b);
    }
  }

  /** The first `count` periods are gone from the front. */
  lemma ShiftLaid(buffer: seq<Period>, first: nat, audio: seq<Period>, count: nat, first': nat)
    requires |buffer| == PERIODS && first < PERIODS && count <= |audio| <= MAX_QUEUED && first' < PERIODS
    requires forall i: nat :: i < PERIODS ==>
        buffer[Slot(first, i)] == if count <= i < |audio| then audio[i] else Silence()
    requires count < |audio| ==> first' == Slot(first, count)
    ensures Laid(buffer, first', audio[count..])
  {
    forall i: nat | i < PERIODS
      ensures buffer[Slot(first', i)] == if i < |audio| - count then audio[count..][i] else Silence()
    {
      if count == |audio| {
        var j := PlaceOf(first, Slot(first', i));
        assert buffer[Slot(first, j)] == Silence();
      } else {
        SlotSum(first, count, i);
        ShiftPlace(buffer, first, audio, count, i);
      }
    }
  }

  lemma ShiftPlace(buffer: seq<Period>, first: nat, audio: seq<Period>, count: nat, i: nat)
    requires |buffer| == PERIODS && count < |audio| <= MAX_QUEUED && i < PERIODS
    requires forall i: nat :: i < PERIODS ==>
        buffer[Slot(first, i)] == if count <= i < |audio| then audio[i] else Silence()
    ensures buffer[Slot(first, count + i)] == if i < |audio| - count then audio[count..][i] else Silence()
  {
    var j: nat := if count + i < PERIODS then count + i else count + i - PERIODS;
    SlotWraps(first, j);
    assert buffer[Slot(first, j)] == if count <= j < |audio| then audio[j] else Silence();
  }

  /** The period being filled joins the queued ones. */
  lemma FillLaid(buffer: seq<Period>, first: nat, audio: seq<Period>, staging: Period)
    requires Laid(buffer, first, audio) && |audio| < MAX_QUEUED
    ensures Laid(buffer[Slot(first, |audio|) := staging], first, audio + [staging])
  {
    forall i: nat | i < PERIODS
      ensures buffer[Slot(first, |audio|) := staging][Slot(first, i)] ==
          if i < |audio| + 1 then (audio + [staging])[i] else Silence()
    {
      assert buffer[Slot(first, i)] == if i < |audio| then audio[i] else Silence();
      if i != |audio| {
        SlotsDiffer(first, i, |audio|);
      }
    }
  }

  lemma ConcatNext(ps: seq<Period>, p: Period)
    ensures Concat(ps + [p]) == Concat(ps) + p
  {
    assert (ps + [p])[..|ps|] == ps;
  }

  lemma StagedPeriod(audio: seq<Period>, pending: seq<Byte>, bytes: seq<Byte>, staging: Period)
    requires |staging| == PERIOD_BYTES == |pending| + |bytes| && staging[..PERIOD_BYTES] == pending + bytes
    ensures Concat(audio + [staging]) + [] == (Concat(audio) + pending) + bytes
  {
    assert staging == pending + bytes;
    ConcatNext(audio, staging);
  }
}
