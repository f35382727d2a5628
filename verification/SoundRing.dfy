/** The playback ring: 32 periods the card plays in order, one of them being filled. */
module SoundRing {
  import opened Outcomes

  const PERIODS: nat := 32
  const PERIOD_BYTES: nat := 2048
  const MAX_QUEUED: nat := 31
  const START_PERIODS: nat := 4

  /** What the card reports; `current` is any number. */
  datatype Status = Status(current: nat, halted: bool)

  datatype Action = Nothing | Start(last: nat) | Submit(last: nat)

  /** Whether the card stopped, and the periods it finished, `first` and how many. */
  datatype Update = Update(halted: bool, first: nat, count: nat)

  /** The period `i` places after `first`. */
  function Slot(first: nat, i: nat): (p: nat)
    ensures p < PERIODS
  {
    (first + i) % PERIODS
  }

  lemma SlotsDiffer(first: nat, i: nat, j: nat)
    requires i < PERIODS && j < PERIODS && i != j
    ensures Slot(first, i) != Slot(first, j)
  {
  }

  lemma SlotSum(first: nat, i: nat, j: nat)
    ensures Slot(Slot(first, i), j) == Slot(first, i + j)
  {
  }

  lemma SlotWraps(first: nat, i: nat)
    ensures Slot(first, i + PERIODS) == Slot(first, i)
  {
  }

  /** The card at a queued period has finished those before it. */
  lemma DoneIs(first: nat, current: nat, queued: nat)
    requires first < PERIODS && queued <= MAX_QUEUED
    ensures forall d: nat :: d < queued && current == Slot(first, d) ==> (current + PERIODS - first) % PERIODS == d
  {
    forall d: nat | d < queued && current == Slot(first, d)
      ensures (current + PERIODS - first) % PERIODS == d
    {
      DoneAt(first, d);
    }
  }

  lemma DoneAt(first: nat, d: nat)
    requires first < PERIODS && d < PERIODS
    ensures (Slot(first, d) + PERIODS - first) % PERIODS == d
  {
  }

  /** The period `d` places after `first` is `p`. */
  predicate PlaceIs(first: nat, d: nat, p: nat) {
    p == Slot(first, d)
  }

  /** A card at one of the queued periods has passed those before it; one that is nowhere among them,
      all but the last. */
  ghost predicate Passed(first: nat, queued: nat, current: nat, count: nat) {
    && (forall d: nat {:trigger PlaceIs(first, d, current)} :: d < queued && PlaceIs(first, d, current) ==> count == d)
    && ((forall d: nat {:trigger PlaceIs(first, d, current % PERIODS)} ::
           d < queued ==> !PlaceIs(first, d, current % PERIODS)) ==> count == queued - 1)
  }

  class Ring {
    var fillPeriod: nat
    var fillBytes: nat
    var firstQueued: nat
    var queued: nat
    var running: bool
    var played: nat

    /** The period being filled comes right after the queued ones, and is not one of them; an
        idle ring starts at period 0, below the start threshold; a running one has something
        queued. */
    ghost predicate Valid()
      reads this
    {
      && firstQueued < PERIODS && queued <= MAX_QUEUED && fillPeriod == Slot(firstQueued, queued)
      && fillBytes < PERIOD_BYTES && (running ==> queued > 0)
      && (!running ==> firstQueued == 0 && queued < START_PERIODS)
    }

    ghost predicate Queued(p: nat)
      reads this
    {
      exists i: nat :: i < queued && p == Slot(firstQueued, i)
    }

    lemma FillIsNotQueued()
      requires Valid()
      ensures !Queued(fillPeriod)
    {
      if Queued(fillPeriod) {
        var i: nat :| i < queued && fillPeriod == Slot(firstQueued, i);
        SlotsDiffer(firstQueued, i, queued);
      }
    }

    constructor ()
      ensures Valid() && queued == 0 && fillBytes == 0 && !running && played == 0
    {
      fillPeriod, fillBytes, firstQueued, queued, running, played := 0, 0, 0, 0, false, 0;
    }

    /** `update`: the card has finished some of the queued periods, from the front; while it
        runs, never the last one. */
    method CatchUp(status: Status) returns (u: Update)
      requires Valid()
      modifies this
      ensures Valid() && fillBytes == old(fillBytes) && u.count <= old(queued) && queued == old(queued) - u.count
      ensures u.first == old(firstQueued) && played == old(played) + u.count
      ensures queued > 0 ==> firstQueued == Slot(old(firstQueued), u.count)
      ensures u.halted <==> old(running) && status.halted
      ensures u.halted ==> queued == 0 && !running
      ensures !u.halted ==> running == old(running) && (old(running) ==> queued > 0)
      ensures !old(running) ==> u.count == 0
      ensures old(running) && !status.halted ==> Passed(old(firstQueued), old(queued), status.current, u.count)
    {
      var first := firstQueued;
      if !running {
        return Update(false, first, 0);
      }
      if status.halted {
        u := Update(true, first, queued);
        played := played + queued;
        queued, running, firstQueued, fillPeriod := 0, false, 0, 0;
        return;
      }
      var done := (status.current + PERIODS - firstQueued) % PERIODS;
      DoneIs(firstQueued, status.current, queued);
      assert Slot(firstQueued, done) == status.current % PERIODS;
      if done > queued - 1 {
        done := queued - 1;
      } else {
        assert PlaceIs(firstQueued, done, status.current % PERIODS);
      }
      SlotSum(firstQueued, done, queued - done);
      played := played + done;
      queued := queued - done;
      firstQueued := (firstQueued + done) % PERIODS;
      return Update(false, first, done);
    }

    /** `space`: the room in the period being filled, or none while the ring is full. */
    function Space(): (r: Option<(nat, nat)>)
      requires Valid()
      reads this
      ensures r.Some? <==> queued < MAX_QUEUED
      ensures r.Some? ==> r.value.0 / PERIOD_BYTES == fillPeriod && r.value.0 % PERIOD_BYTES == fillBytes
      ensures r.Some? ==> r.value.1 == PERIOD_BYTES - fillBytes > 0
    {
      if queued < MAX_QUEUED then Some((fillPeriod * PERIOD_BYTES + fillBytes, PERIOD_BYTES - fillBytes)) else None
    }

    /** `commit`: a full period joins the queue. */
    method Commit(count: nat) returns (a: Action)
      requires Valid() && queued < MAX_QUEUED && fillBytes + count <= PERIOD_BYTES
      modifies this
      ensures Valid() && firstQueued == old(firstQueued) && played == old(played)
      ensures old(fillBytes) + count < PERIOD_BYTES ==> a == Nothing && fillBytes == old(fillBytes) + count
      ensures old(fillBytes) + count < PERIOD_BYTES ==> queued == old(queued) && fillPeriod == old(fillPeriod)
      ensures old(fillBytes) + count == PERIOD_BYTES ==> fillBytes == 0 && queued == old(queued) + 1
      ensures a.Submit? ==> old(running) && a.last == Slot(firstQueued, queued - 1)
      ensures a.Start? ==> !old(running) && running && firstQueued == 0 && a.last == queued - 1
      ensures a == Nothing ==> running == old(running)
      ensures a.Submit? ==> running
    {
      fillBytes := fillBytes + count;
      if fillBytes < PERIOD_BYTES {
        return Nothing;
      }
      var period := fillPeriod;
      SlotSum(firstQueued, queued, 1);
      fillPeriod := (period + 1) % PERIODS;
      fillBytes := 0;
      queued := queued + 1;
      if running {
        return Submit(period);
      }
      if queued >= START_PERIODS {
        running := true;
        return Start(queued - 1);
      }
      return Nothing;
    }

    /** `start`: an idle card starts on what is queued, from period 0. */
    method Begin() returns (a: Action)
      requires Valid()
      modifies this`running
      ensures Valid() && (a.Start? <==> !old(running) && queued > 0) && !a.Submit?
      ensures a.Start? ==> running && firstQueued == 0 && a.last == queued - 1
      ensures a == Nothing ==> running == old(running)
    {
      if running || queued == 0 {
        return Nothing;
      }
      running := true;
      return Start(queued - 1);
    }

    method Reset()
      requires Valid()
      modifies this
      ensures Valid() && queued == 0 && fillBytes == 0 && !running && played == old(played)
    {
      fillPeriod, fillBytes, firstQueued, queued, running := 0, 0, 0, 0, false;
    }
  }
}
