/**
 Host memory over time: observations, admissions, VMs appearing and leaving, and
 capacity releases, in any interleaving by any number of jobs. Samples are taken
 before the admission that uses them and may be arbitrarily stale.
*/
module HostMemory {
  import opened Wrappers
  import opened HostAdmission

  datatype Limits = Limits(capacity: nat, headroom: nat)
  datatype Resident = Resident(host: Host, memory: nat)

  /** A free-memory reading: `observedAt` was read first, `snapshot` is what ran when vCenter answered. */
  datatype Sample = Sample(host: Host, observedAt: Time, snapshot: map<Vm, Resident>)

  /** `n` bounds every VM number the run will ever use. */
  datatype World = World(
    n: nat,
    clock: Time,
    limits: map<Host, Limits>,
    placements: map<Vm, Placement>,
    resident: map<Vm, Resident>,
    samples: seq<Sample>)

  datatype Step =
    | Tick(now: Time)
    | TakeSample(host: Host, observedAt: Time)
    | Admit(job: JobId, plan: seq<Candidate>)
    | Appear(vm: Vm)
    | Leave(vm: Vm)
    | Release(job: JobId, vms: set<Vm>)

  function ResidentShare(resident: map<Vm, Resident>, host: Host, v: Vm): int {
    if v in resident && resident[v].host == host then resident[v].memory else 0
  }

  /** Reserved by a placement whose VM does not run yet. */
  function PendingShare(placements: map<Vm, Placement>, resident: map<Vm, Resident>, host: Host, v: Vm): int {
    if v in placements && v !in resident && placements[v].host == host && placements[v].releasedAt.None?
    then placements[v].reservation else 0
  }

  function CommitShare(placements: map<Vm, Placement>, resident: map<Vm, Resident>, host: Host, v: Vm): int {
    ResidentShare(resident, host, v) + PendingShare(placements, resident, host, v)
  }

  /** Memory in use on the host plus memory promised to VMs that may still appear there. */
  function Committed(n: nat, placements: map<Vm, Placement>, resident: map<Vm, Resident>, host: Host): int {
    Sum(n, (v: Vm) => CommitShare(placements, resident, host, v))
  }

  function Free(w: World, s: Sample): int
    requires s.host in w.limits
  {
    w.limits[s.host].capacity - Sum(w.n, (v: Vm) => ResidentShare(s.snapshot, s.host, v))
  }

  function Insert(placements: map<Vm, Placement>, job: JobId, plan: seq<Candidate>): map<Vm, Placement> {
    if plan == [] then placements
    else
      var c := plan[|plan| - 1];
      Insert(placements, job, plan[..|plan| - 1])[c.vm := Placement(job, c.host, c.reservation, None)]
  }

  /** An existing plan wins; a duplicate VM, a placed VM or a full host aborts the transaction. */
  predicate Insertable(w: World, job: JobId, plan: seq<Candidate>) {
    && plan != []
    && (forall v | v in w.placements :: w.placements[v].job != job)
    && (forall i, j | 0 <= i < j < |plan| :: plan[i].vm != plan[j].vm)
    && (forall c | c in plan :: c.vm !in w.placements)
    && Admits(w.placements, w.n, job, plan)
  }

  function Released(p: Placement, now: Time): Placement {
    p.(releasedAt := if p.releasedAt.Some? then p.releasedAt else Some(now))
  }

  function Apply(w: World, s: Step): World {
    match s
    case Tick(now) => w.(clock := if now > w.clock then now else w.clock)
    case TakeSample(host, observedAt) => w.(samples := w.samples + [Sample(host, observedAt, w.resident)])
    case Admit(job, plan) => if Insertable(w, job, plan) then w.(placements := Insert(w.placements, job, plan)) else w
    case Appear(vm) =>
      if vm in w.placements
      then w.(resident := w.resident[vm := Resident(w.placements[vm].host, w.placements[vm].reservation)]) else w
    case Leave(vm) => w.(resident := w.resident - {vm})
    case Release(job, vms) =>
      if forall v | v in vms :: v in w.placements && w.placements[v].job == job
      then w.(placements := map v | v in w.placements ::
                              if v in vms then Released(w.placements[v], w.clock) else w.placements[v])
      else w
  }

  // ---------------------------------------------------------------------------
  // What callers and vCenter guarantee
  // ---------------------------------------------------------------------------

  /** Some reading of this host supports the candidate's figures. */
  ghost predicate Backed(w: World, c: Candidate) {
    exists s :: s in w.samples && s.host == c.host && s.host in w.limits
                && c.observedFree <= Free(w, s) && c.observedAt <= s.observedAt
  }

  /**
   A reading follows its observation time; candidates quote readings and at least
   the host's reserved headroom, and reserve memory only for a VM that does not
   run yet; a VM appears only under an unreleased reservation, so a release comes
   after its VM appeared or after it was given up.
  */
  ghost predicate Allowed(w: World, s: Step) {
    match s
    case TakeSample(host, observedAt) => host in w.limits && observedAt <= w.clock
    case Admit(_, plan) => forall c | c in plan ::
      c.vm < w.n && Backed(w, c) && c.headroom >= w.limits[c.host].headroom && (c.reservation > 0 ==> c.vm !in w.resident)
    case Appear(vm) => vm in w.placements && w.placements[vm].releasedAt.None? && w.placements[vm].reservation > 0
    case _ => true
  }

  // ---------------------------------------------------------------------------
  // The invariant
  // ---------------------------------------------------------------------------

  /** Each VM running now was in the snapshot, or its reservation cannot have been released before the observation. */
  ghost predicate SampleCovers(w: World, s: Sample) {
    && s.observedAt <= w.clock
    && (forall v | v in w.resident && w.resident[v].host == s.host ::
          || (v in s.snapshot && s.snapshot[v] == w.resident[v])
          || (v in w.placements && w.placements[v].host == s.host
              && 0 < w.placements[v].reservation == w.resident[v].memory
              && (w.placements[v].releasedAt.Some? ==> w.placements[v].releasedAt.value >= s.observedAt)))
  }

  ghost predicate Matches(w: World) {
    && (forall v | v in w.placements :: v < w.n)
    && (forall v | v in w.resident && v in w.placements && w.placements[v].reservation > 0 ::
          w.resident[v] == Resident(w.placements[v].host, w.placements[v].reservation))
    && (forall s | s in w.samples :: SampleCovers(w, s))
  }

  ghost predicate Safe(w: World) {
    forall h | h in w.limits :: Committed(w.n, w.placements, w.resident, h) <= w.limits[h].capacity - w.limits[h].headroom
  }

  // ---------------------------------------------------------------------------
  // Admission keeps every host within its limit
  // ---------------------------------------------------------------------------

  /** Stale reading plus fenced reservations cover everything committed now. */
  lemma SampleAndFenceCover(w: World, job: JobId, s: Sample, since: Time)
    requires Matches(w) && s in w.samples && s.host in w.limits && since <= s.observedAt
    requires forall v | v in w.placements :: w.placements[v].job != job
    ensures Committed(w.n, w.placements, w.resident, s.host)
         <= w.limits[s.host].capacity - Free(w, s) + ActiveReserved(w.placements, w.n, s.host, job, since)
  {
    assert SampleCovers(w, s);
    SumBound(w.n, (v: Vm) => CommitShare(w.placements, w.resident, s.host, v),
             (v: Vm) => ResidentShare(s.snapshot, s.host, v),
             (v: Vm) => ActiveShare(w.placements, s.host, job, since, v));
  }

  lemma {:induction false} SumAtOnePoint(n: nat, f: Vm -> int, g: Vm -> int, v: Vm)
    requires forall u: Vm | u != v :: f(u) == g(u)
    ensures Sum(n, f) == Sum(n, g) + if v < n then f(v) - g(v) else 0
  {
    if n > 0 {
      SumAtOnePoint(n - 1, f, g, v);
    }
  }

  lemma {:induction false} InsertKeepsOthers(placements: map<Vm, Placement>, job: JobId, plan: seq<Candidate>, v: Vm)
    ensures v in Insert(placements, job, plan) ==>
              || (v in placements && Insert(placements, job, plan)[v] == placements[v])
              || (exists c :: c in plan && c.vm == v && Insert(placements, job, plan)[v] == Placement(job, c.host, c.reservation, None))
    ensures v in placements ==> v in Insert(placements, job, plan)
    ensures (forall c | c in plan :: c.vm != v) && v in placements ==> Insert(placements, job, plan)[v] == placements[v]
    ensures (forall c | c in plan :: c.vm != v) && v !in placements ==> v !in Insert(placements, job, plan)
  {
    if plan != [] {
      InsertKeepsOthers(placements, job, plan[..|plan| - 1], v);
      assert plan == plan[..|plan| - 1] + [plan[|plan| - 1]];
    }
  }

  /** Inserting a plan commits exactly what it requested, host by host. */
  lemma {:induction false} InsertCommits(n: nat, placements: map<Vm, Placement>, resident: map<Vm, Resident>, job: JobId,
                                         plan: seq<Candidate>, host: Host)
    requires forall i, j | 0 <= i < j < |plan| :: plan[i].vm != plan[j].vm
    requires forall c | c in plan :: c.vm < n && c.vm !in placements && (c.reservation > 0 ==> c.vm !in resident)
    ensures Committed(n, Insert(placements, job, plan), resident, host)
         == Committed(n, placements, resident, host) + Requested(plan, host)
  {
    if plan != [] {
      var rest, c := plan[..|plan| - 1], plan[|plan| - 1];
      assert plan == rest + [c];
      InsertCommits(n, placements, resident, job, rest, host);
      var before, after := Insert(placements, job, rest), Insert(placements, job, plan);
      InsertKeepsOthers(placements, job, rest, c.vm);
      SumAtOnePoint(n, (v: Vm) => CommitShare(after, resident, host, v), (v: Vm) => CommitShare(before, resident, host, v), c.vm);
    }
  }

  lemma {:induction false} RequestedNeedsCandidate(plan: seq<Candidate>, host: Host)
    requires Requested(plan, host) > 0
    ensures exists c :: c in plan && c.host == host
  {
    var rest, c := plan[..|plan| - 1], plan[|plan| - 1];
    if c.host != host {
      RequestedNeedsCandidate(rest, host);
    }
  }

  lemma AdmissionIsSafe(w: World, job: JobId, plan: seq<Candidate>, host: Host)
    requires Matches(w) && Safe(w) && Allowed(w, Admit(job, plan)) && Insertable(w, job, plan) && host in w.limits
    ensures Committed(w.n, Insert(w.placements, job, plan), w.resident, host)
         <= w.limits[host].capacity - w.limits[host].headroom
  {
    InsertCommits(w.n, w.placements, w.resident, job, plan, host);
    RequestedIsNatural(plan, host);
    if Requested(plan, host) > 0 {
      RequestedNeedsCandidate(plan, host);
      var c :| c in plan && c.host == host;
      assert Backed(w, c);
      var s :| s in w.samples && s.host == c.host && c.observedFree <= Free(w, s) && c.observedAt <= s.observedAt;
      assert host in Hosts(plan) && HasRoom(w.placements, w.n, job, plan, host);
      assert Slack(w.placements, w.n, job, plan, c, c) >= 0;
      SampleAndFenceCover(w, job, s, c.observedAt);
    }
  }

  // ---------------------------------------------------------------------------
  // Every step, every run
  // ---------------------------------------------------------------------------

  lemma CommitOnlyFalls(n: nat, p: map<Vm, Placement>, r: map<Vm, Resident>, p': map<Vm, Placement>, r': map<Vm, Resident>, host: Host)
    requires forall v: Vm | v < n :: CommitShare(p', r', host, v) <= CommitShare(p, r, host, v)
    ensures Committed(n, p', r', host) <= Committed(n, p, r, host)
  {
    var zero := (v: Vm) => 0;
    SumBound(n, (v: Vm) => CommitShare(p', r', host, v), (v: Vm) => CommitShare(p, r, host, v), zero);
    SumZero(n, zero);
  }

  lemma StepKeepsSafe(w: World, s: Step)
    requires Matches(w) && Safe(w) && Allowed(w, s)
    ensures Safe(Apply(w, s))
  {
    var w' := Apply(w, s);
    forall h | h in w'.limits
      ensures Committed(w'.n, w'.placements, w'.resident, h) <= w'.limits[h].capacity - w'.limits[h].headroom
    {
      if s.Admit? {
        if Insertable(w, s.job, s.plan) {
          AdmissionIsSafe(w, s.job, s.plan, h);
        }
      } else {
        CommitOnlyFalls(w.n, w.placements, w.resident, w'.placements, w'.resident, h);
      }
    }
  }

  lemma StepKeepsSample(w: World, s: Step, sample: Sample)
    requires Matches(w) && Allowed(w, s) && SampleCovers(w, sample)
    ensures SampleCovers(Apply(w, s), sample)
  {
    if s.Admit? && Insertable(w, s.job, s.plan) {
      var rows := Insert(w.placements, s.job, s.plan);
      forall v | v in w.placements ensures v in rows && rows[v] == w.placements[v] {
        InsertKeepsOthers(w.placements, s.job, s.plan, v);
      }
    }
  }

  lemma AdmissionKeepsRows(w: World, job: JobId, plan: seq<Candidate>, v: Vm)
    requires Matches(w) && Allowed(w, Admit(job, plan)) && Insertable(w, job, plan)
    requires v in Insert(w.placements, job, plan)
    ensures v < w.n
    ensures v in w.resident && Insert(w.placements, job, plan)[v].reservation > 0 ==>
              w.resident[v] == Resident(Insert(w.placements, job, plan)[v].host, Insert(w.placements, job, plan)[v].reservation)
  {
    InsertKeepsOthers(w.placements, job, plan, v);
  }

  lemma StepKeepsMatches(w: World, s: Step)
    requires Matches(w) && Allowed(w, s)
    ensures Matches(Apply(w, s))
  {
    var w' := Apply(w, s);
    forall sample | sample in w'.samples ensures SampleCovers(w', sample) {
      if sample in w.samples {
        StepKeepsSample(w, s, sample);
      }
    }
    if s.Admit? && Insertable(w, s.job, s.plan) {
      forall v | v in w'.placements
        ensures v < w.n
        ensures v in w.resident && w'.placements[v].reservation > 0 ==>
                  w.resident[v] == Resident(w'.placements[v].host, w'.placements[v].reservation)
      {
        AdmissionKeepsRows(w, s.job, s.plan, v);
      }
    }
  }

  function Run(w: World, steps: seq<Step>): World
    decreases |steps|
  {
    if steps == [] then w else Run(Apply(w, steps[0]), steps[1..])
  }

  ghost predicate Obeys(w: World, steps: seq<Step>)
    decreases |steps|
  {
    steps == [] || (Allowed(w, steps[0]) && Obeys(Apply(w, steps[0]), steps[1..]))
  }

  /** Over every interleaving, what runs and what is promised never exceeds capacity minus reserved headroom. */
  lemma {:induction false} NeverOvercommitted(w: World, steps: seq<Step>)
    requires Matches(w) && Safe(w) && Obeys(w, steps)
    ensures Matches(Run(w, steps)) && Safe(Run(w, steps))
    decreases |steps|
  {
    if steps != [] {
      StepKeepsMatches(w, steps[0]);
      StepKeepsSafe(w, steps[0]);
      NeverOvercommitted(Apply(w, steps[0]), steps[1..]);
    }
  }

  /**
   The fence decides, whatever else the table holds: releasing a reservation takes it
   out of the sum exactly when the release came before the observation.
  */
  lemma FenceIsExact(placements: map<Vm, Placement>, n: nat, vm: Vm, job: JobId, observedAt: Time, released: Time)
    requires vm in placements && vm < n
    requires placements[vm].job != job && placements[vm].reservation > 0 && placements[vm].releasedAt.None?
    ensures var p := placements[vm];
            ActiveReserved(placements[vm := Released(p, released)], n, p.host, job, observedAt)
            == ActiveReserved(placements, n, p.host, job, observedAt) - if released < observedAt then p.reservation else 0
  {
    var host, after := placements[vm].host, placements[vm := Released(placements[vm], released)];
    SumAtOnePoint(n, (v: Vm) => ActiveShare(after, host, job, observedAt, v),
                  (v: Vm) => ActiveShare(placements, host, job, observedAt, v), vm);
  }
}
