/** Building the kernel's page tables at boot: a list of mappings made one after the other, on tables
    that are empty at first. Ranges of memory go in with large leaves, sections of the image page by
    page over them.
  */
module KernelBoot {
  import opened Outcomes
  import opened PageEntries
  import opened KernelMap
  import opened KernelTables

  /** One call of `map_range`, or of `map_pages_at`, which puts `lo .. hi` at `base` and up. */
  datatype Job = Memory(range: Range) | Section(base: nat, lo: nat, hi: nat, flags: bv64)

  /** Reserved memory is left out of the maps; sections are not empty and lie in the lower half. */
  predicate JobOk(job: Job) {
    match job
    case Memory(r) => r.kind != Reserved
    case Section(_, lo, hi, flags) => lo < hi <= UPPER_HALF && PageFlags(flags)
  }

  /** Where the job puts the page, if it covers it. */
  function Gives(job: Job, q: nat): Option<Target> {
    match job
    case Memory(r) =>
      if r.start + Base(r) <= q < r.end + Base(r) then Some(Place(q - Base(r), FlagsFor(r.kind))) else None
    case Section(base, lo, hi, flags) => if lo + base <= q < hi + base then Some(Place(q - base, flags)) else None
  }

  /** Where the page leads after all jobs: as the last one that covers it says. */
  function Meant(jobs: seq<Job>, q: nat): Option<Target> {
    if jobs == [] then None
    else
      var last := jobs[|jobs| - 1];
      if Gives(last, q).Some? then Gives(last, q) else Meant(jobs[..|jobs| - 1], q)
  }

  /** The tables translate each page as the jobs say, and nothing else. */
  ghost predicate Built(gigs: Gigs, jobs: seq<Job>) {
    forall q: nat {:trigger Translate(gigs, q)} :: Translate(gigs, q) == Meant(jobs, q)
  }

  /** What the job does when it succeeds. */
  ghost predicate Applied(gigs: Gigs, gigs': Gigs, job: Job) {
    forall q: nat {:trigger Translate(gigs', q)} ::
      Translate(gigs', q) == if Gives(job, q).Some? then Gives(job, q) else Translate(gigs, q)
  }

  /** The job puts a page at `q`. */
  predicate Covers(job: Job, q: nat) {
    match job
    case Memory(r) => if r.direct then r.start + UPPER_HALF <= q < r.end + UPPER_HALF else r.start <= q < r.end
    case Section(base, lo, hi, _) => lo + base <= q < hi + base
  }

  /** ... and no later one does. */
  ghost predicate CoversLast(jobs: seq<Job>, i: int, q: nat) {
    0 <= i < |jobs| && Covers(jobs[i], q) && forall j :: i < j < |jobs| ==> !Covers(jobs[j], q)
  }

  /** The page leads where the job says: to its physical page, with the attributes of the kind of
      memory, bit by bit, or with the flags of the section. */
  predicate LeadsBy(gigs: Gigs, job: Job, q: nat) {
    match job
    case Memory(r) => Covers(job, q) && LeadsAs(gigs, r.direct, if r.direct then q - UPPER_HALF else q, r.kind)
    case Section(base, _, _, flags) =>
      base <= q && Translate(gigs, q) == Some(Target(Address(q - base), AttributesSmall(flags)))
  }

  /** Each page leads where the last job that covers it says, and no other page is mapped. */
  ghost predicate LedByLast(gigs: Gigs, jobs: seq<Job>) {
    && (forall i, q {:trigger CoversLast(jobs, i, q)} :: CoversLast(jobs, i, q) ==> LeadsBy(gigs, jobs[i], q))
    && (forall q: nat {:trigger Translate(gigs, q)} ::
          Translate(gigs, q).Some? ==> exists i :: 0 <= i < |jobs| && Covers(jobs[i], q))
  }

  lemma {:induction false} MeantByLast(jobs: seq<Job>, q: nat)
    ensures Meant(jobs, q).Some? ==> exists i :: 0 <= i < |jobs| && Covers(jobs[i], q)
    ensures forall i :: CoversLast(jobs, i, q) ==> Meant(jobs, q) == Gives(jobs[i], q) && Gives(jobs[i], q).Some?
  {
    if jobs != [] {
      var n := |jobs| - 1;
      if !Covers(jobs[n], q) {
        MeantByLast(jobs[..n], q);
        forall i | CoversLast(jobs, i, q)
          ensures CoversLast(jobs[..n], i, q) && jobs[..n][i] == jobs[i]
        {
        }
      }
    }
  }

  lemma BuiltByLast(gigs: Gigs, jobs: seq<Job>)
    requires Built(gigs, jobs)
    ensures LedByLast(gigs, jobs)
  {
    forall i, q: nat | CoversLast(jobs, i, q)
      ensures LeadsBy(gigs, jobs[i], q)
    {
      MeantByLast(jobs, q);
      assert Translate(gigs, q) == Meant(jobs, q);
      GivenLeads(gigs, jobs[i], q);
    }
    forall q: nat | Translate(gigs, q).Some?
      ensures exists i :: 0 <= i < |jobs| && Covers(jobs[i], q)
    {
      MeantByLast(jobs, q);
    }
  }

  lemma GivenLeads(gigs: Gigs, job: Job, q: nat)
    requires Covers(job, q) && Translate(gigs, q) == Gives(job, q)
    ensures LeadsBy(gigs, job, q)
  {
    if job.Memory? {
      var r := job.range;
      PlaceSuits(gigs, r, q - Base(r));
    }
  }

  lemma OneJobMore(gigs: Gigs, gigs': Gigs, jobs: seq<Job>, job: Job)
    requires Built(gigs, jobs) && Applied(gigs, gigs', job)
    ensures Built(gigs', jobs + [job])
  {
    forall q: nat
      ensures Translate(gigs', q) == Meant(jobs + [job], q)
    {
      assert Translate(gigs, q) == Meant(jobs, q);
      assert (jobs + [job])[..|jobs|] == jobs;
    }
  }

  /** The range does not reach past its half. */
  predicate Coverable(job: Job) {
    job.Memory? && job.range.start < job.range.end ==> job.range.end <= UPPER_HALF
  }

  /** More table frames than the job, or all jobs, can take. */
  function Most(job: Job): nat
    requires JobOk(job)
  {
    match job
    case Memory(r) => KernelTables.Most(r)
    case Section(_, lo, hi, _) => 3 * (hi - lo)
  }

  function MostOf(jobs: seq<Job>): nat
    requires forall i :: 0 <= i < |jobs| ==> JobOk(jobs[i])
  {
    if jobs == [] then 0 else MostOf(jobs[..|jobs| - 1]) + Most(jobs[|jobs| - 1])
  }

  lemma {:induction false} MostGrows(jobs: seq<Job>, i: nat)
    requires i <= |jobs| && forall j :: 0 <= j < |jobs| ==> JobOk(jobs[j])
    ensures MostOf(jobs[..i]) <= MostOf(jobs)
    decreases |jobs|
  {
    if i < |jobs| {
      var front := jobs[..|jobs| - 1];
      MostGrows(front, i);
      assert front[..i] == jobs[..i];
    } else {
      assert jobs[..i] == jobs;
    }
  }

  /** One job. In tables that hold no 1 GiB leaf but the usual ones it works if it reports success, and
      leaves no other kind of 1 GiB leaf. */
  method Run(t: Tables, job: Job) returns (ok: bool)
    requires JobOk(job) && Uniform(t.gigs)
    modifies t`tops, t`gigs, t`free, t`memory
    ensures Uniform(t.gigs) && (ok ==> Applied(old(t.gigs), t.gigs, job))
    ensures t.free <= old(t.free) <= t.free + Most(job)
    ensures !t.lowerDropped && Coverable(job) && old(t.free) >= Most(job) ==> ok
  {
    match job
    case Memory(r) =>
      ok := t.MapRange(r);
      if ok {
        UniformUnobstructed(r, old(t.gigs), old(t.memory));
        MemoryApplied(r, old(t.gigs), t.gigs);
      }
    case Section(base, lo, hi, flags) =>
      ok := t.MapPages(base, lo, hi, flags);
      StillUniform(old(t.gigs), t.gigs);
      if ok {
        SectionApplied(base, lo, hi, flags, old(t.gigs), t.gigs);
      }
  }

  lemma MemoryApplied(r: Range, gigs: Gigs, gigs': Gigs)
    requires Mapped(gigs, gigs', Base(r), r.start, r.end, FlagsFor(r.kind))
    ensures Applied(gigs, gigs', Memory(r))
  {
  }

  lemma SectionApplied(base: nat, lo: nat, hi: nat, flags: bv64, gigs: Gigs, gigs': Gigs)
    requires Mapped(gigs, gigs', base, lo, hi, flags)
    ensures Applied(gigs, gigs', Section(base, lo, hi, flags))
  {
    var job := Section(base, lo, hi, flags);
    forall q: nat
      ensures Translate(gigs', q) == if Gives(job, q).Some? then Gives(job, q) else Translate(gigs, q)
    {
      assert Gives(job, q) == if lo + base <= q < hi + base then Some(Place(q - base, flags)) else None;
    }
  }

  /** `init_with_mode`: starting from nothing, if every mapping succeeds, each page of either half
      leads where the last mapping that covers it says, with its attributes, and no other page is
      mapped. Which leaves are large and which had to be split makes no difference. */
  method Boot(frames: nat, jobs: seq<Job>) returns (t: Tables, ok: bool)
    requires forall i :: 0 <= i < |jobs| ==> JobOk(jobs[i])
    ensures fresh(t) && (ok ==> Built(t.gigs, jobs) && LedByLast(t.gigs, jobs))
    ensures (forall i :: 0 <= i < |jobs| ==> Coverable(jobs[i])) && frames >= MostOf(jobs) ==> ok
  {
    t := new Tables(frames);
    ok := true;
    var i := 0;
    while i < |jobs|
      invariant i <= |jobs| && fresh(t) && Uniform(t.gigs) && (ok ==> Built(t.gigs, jobs[..i]))
      invariant !t.lowerDropped && t.free <= frames <= t.free + MostOf(jobs[..i])
      invariant (forall j :: 0 <= j < |jobs| ==> Coverable(jobs[j])) && frames >= MostOf(jobs) ==> ok
    {
      ghost var before := t.gigs;
      MostGrows(jobs, i + 1);
      var done := Run(t, jobs[i]);
      if ok && done {
        OneJobMore(before, t.gigs, jobs[..i], jobs[i]);
      }
      assert jobs[..i + 1] == jobs[..i] + [jobs[i]] && jobs[..i + 1][..i] == jobs[..i];
      ok, i := ok && done, i + 1;
    }
    assert jobs[..i] == jobs;
    if ok {
      BuiltByLast(t.gigs, jobs);
    }
  }
}
