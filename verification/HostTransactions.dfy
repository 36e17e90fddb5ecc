/**
 Placement transactions as they run: each takes the locks of its hosts one after the
 other in sorted order, reads each host's sum under its lock, and inserts its rows at
 commit, while other transactions, releases, readings and VMs come and go in between.
 Every such run is a run of the memory model in which the whole admission happens at
 commit, and a run of the lock model.
*/
module HostTransactions {
  import opened HostAdmission
  import Memory = HostMemory
  import Locks = HostLocks

  /** The locks of the first `taken` hosts of `order` are held; `passed` are the hosts whose sum was read and left room. */
  datatype Txn = Txn(plan: seq<Candidate>, order: seq<Host>, taken: nat, passed: set<Host>)

  datatype System = System(w: Memory.World, txns: map<JobId, Txn>)

  datatype Step =
    | Outside(step: Memory.Step)
    | Begin(job: JobId, plan: seq<Candidate>, order: seq<Host>)
    | Lock(job: JobId)
    | Read(job: JobId, host: Host)
    | Commit(job: JobId)
    | Abort(job: JobId)

  predicate Unplaced(w: Memory.World, job: JobId) {
    forall v | v in w.placements :: w.placements[v].job != job
  }

  /** The checks before the first lock: a new plan, each VM once, one headroom per host. */
  predicate Acceptable(w: Memory.World, job: JobId, plan: seq<Candidate>) {
    && plan != [] && Unplaced(w, job)
    && (forall i, j | 0 <= i < j < |plan| :: plan[i].vm != plan[j].vm)
    && forall h | h in Hosts(plan) :: Consistent(plan, h)
  }

  /** The hosts to lock: those with a request, in increasing order. */
  ghost predicate IsOrder(plan: seq<Candidate>, order: seq<Host>) {
    Increasing(order) && forall h :: h in order <==> h in Hosts(plan) && Requested(plan, h) > 0
  }

  predicate Locked(txn: Txn, host: Host) {
    txn.taken <= |txn.order| && host in txn.order[..txn.taken]
  }

  /** All sums were read, and no row of the plan exists yet. */
  predicate Committable(sys: System, job: JobId)
    requires job in sys.txns
  {
    var txn := sys.txns[job];
    && (forall h | h in Hosts(txn.plan) && Requested(txn.plan, h) > 0 :: h in txn.passed)
    && (forall c | c in txn.plan :: c.vm !in sys.w.placements)
  }

  ghost function Apply(sys: System, s: Step): System {
    match s
    case Outside(step) => sys.(w := Memory.Apply(sys.w, step))
    case Begin(job, plan, order) =>
      if job !in sys.txns && Acceptable(sys.w, job, plan) && IsOrder(plan, order)
      then sys.(txns := sys.txns[job := Txn(plan, order, 0, {})]) else sys
    case Lock(job) =>
      if job in sys.txns then sys.(txns := sys.txns[job := sys.txns[job].(taken := sys.txns[job].taken + 1)]) else sys
    case Read(job, host) =>
      if job !in sys.txns || !Locked(sys.txns[job], host) then sys
      else if HasRoom(sys.w.placements, sys.w.n, job, sys.txns[job].plan, host)
      then sys.(txns := sys.txns[job := sys.txns[job].(passed := sys.txns[job].passed + {host})])
      else sys.(txns := sys.txns - {job})
    case Commit(job) =>
      if job in sys.txns && Committable(sys, job)
      then System(sys.w.(placements := Memory.Insert(sys.w.placements, job, sys.txns[job].plan)), sys.txns - {job})
      else sys
    case Abort(job) => sys.(txns := sys.txns - {job})
  }

  /** The lock model's view: what each open transaction holds and still wants. */
  function LockState(sys: System): Locks.State {
    map job | job in sys.txns :: Locks.Progress(sys.txns[job].order, sys.txns[job].taken)
  }

  /** The hosts of the inventory and the numbers their locks are hashed to. */
  datatype Inventory = Inventory(hosts: set<Host>, key: Host -> int)

  /**
   What `HostMemory.Allowed` asks of an admission, when the transaction begins; a lock
   is granted as in `HostLocks`.
  */
  ghost predicate Allowed(inv: Inventory, sys: System, s: Step) {
    match s
    case Outside(step) => !step.Admit? && Memory.Allowed(sys.w, step)
    case Begin(job, plan, _) => Memory.Allowed(sys.w, Memory.Admit(job, plan)) && forall c | c in plan :: c.host in inv.hosts
    case Lock(job) => Locks.Allowed(inv.key, inv.hosts, LockState(sys), Locks.Acquire(job))
    case _ => true
  }

  ghost function Run(sys: System, steps: seq<Step>): System
    decreases |steps|
  {
    if steps == [] then sys else Run(Apply(sys, steps[0]), steps[1..])
  }

  ghost predicate Obeys(inv: Inventory, sys: System, steps: seq<Step>)
    decreases |steps|
  {
    steps == [] || (Allowed(inv, sys, steps[0]) && Obeys(inv, Apply(sys, steps[0]), steps[1..]))
  }

  // ---------------------------------------------------------------------------
  // What open transactions can rely on
  // ---------------------------------------------------------------------------

  ghost predicate CandidateOk(w: Memory.World, c: Candidate) {
    && c.vm < w.n && Memory.Backed(w, c) && c.headroom >= w.limits[c.host].headroom
    && (c.reservation > 0 && c.vm in w.resident ==> c.vm in w.placements)
  }

  /** What was read under a lock is still true: nobody else can add to that host's sum. */
  ghost predicate TxnOk(sys: System, job: JobId)
    requires job in sys.txns
  {
    var txn := sys.txns[job];
    && Acceptable(sys.w, job, txn.plan)
    && (forall c | c in txn.plan :: CandidateOk(sys.w, c))
    && IsOrder(txn.plan, txn.order)
    && (forall h | h in txn.passed :: Locked(txn, h))
    && (forall h | h in txn.passed :: HasRoom(sys.w.placements, sys.w.n, job, txn.plan, h))
  }

  ghost predicate Inv(inv: Inventory, sys: System) {
    && (forall job | job in sys.txns :: TxnOk(sys, job))
    && Locks.Ordered(inv.key, inv.hosts, LockState(sys))
  }

  /** Nobody shares a locked host. */
  lemma LockIsExclusive(inv: Inventory, sys: System, a: JobId, b: JobId, host: Host)
    requires Inv(inv, sys) && a in sys.txns && b in sys.txns && Locked(sys.txns[a], host) && Locked(sys.txns[b], host)
    ensures a == b
  {
    HoldsItsLock(inv, sys, a, host);
    HoldsItsLock(inv, sys, b, host);
  }

  lemma HoldsItsLock(inv: Inventory, sys: System, a: JobId, host: Host)
    requires a in sys.txns && Locked(sys.txns[a], host)
    ensures Locks.Holds(inv.key, LockState(sys), a, inv.key(host))
  {
    var txn := sys.txns[a];
    var i :| 0 <= i < txn.taken && txn.order[..txn.taken][i] == host;
    assert inv.key(LockState(sys)[a].plan[i]) == inv.key(host);
  }

  /** A smaller sum leaves the room that was found. */
  lemma RoomStays(before: map<Vm, Placement>, after: map<Vm, Placement>, n: nat, job: JobId, plan: seq<Candidate>, host: Host)
    requires HasRoom(before, n, job, plan, host)
    requires forall v: Vm, since | v < n :: ActiveShare(after, host, job, since, v) <= ActiveShare(before, host, job, since, v)
    ensures HasRoom(after, n, job, plan, host)
  {
    var zero := (v: Vm) => 0;
    SumZero(n, zero);
    forall since: Time ensures ActiveReserved(after, n, host, job, since) <= ActiveReserved(before, n, host, job, since) {
      SumBound(n, (v: Vm) => ActiveShare(after, host, job, since, v), (v: Vm) => ActiveShare(before, host, job, since, v), zero);
    }
    if Requested(plan, host) != 0 {
      forall a, b | a in plan && b in plan && a.host == host && b.host == host
        ensures Slack(after, n, job, plan, a, b) >= 0
      {
        assert Slack(before, n, job, plan, a, b) >= 0;
      }
    }
  }

  /** Outside steps add nothing to any sum. */
  lemma OutsideKeepsTxn(sys: System, step: Memory.Step, job: JobId)
    requires job in sys.txns && TxnOk(sys, job) && !step.Admit? && Memory.Allowed(sys.w, step)
    ensures TxnOk(Apply(sys, Outside(step)), job)
  {
    var w, w', txn := sys.w, Memory.Apply(sys.w, step), sys.txns[job];
    forall c | c in txn.plan ensures CandidateOk(w', c) {
      assert CandidateOk(w, c);
      BackedStays(w, step, c);
    }
    forall h | h in txn.passed ensures HasRoom(w'.placements, w'.n, job, txn.plan, h) {
      RoomStays(w.placements, w'.placements, w.n, job, txn.plan, h);
    }
  }

  lemma BackedStays(w: Memory.World, step: Memory.Step, c: Candidate)
    requires Memory.Backed(w, c) && !step.Admit?
    ensures Memory.Backed(Memory.Apply(w, step), c)
  {
    var s :| s in w.samples && s.host == c.host && s.host in w.limits
             && c.observedFree <= Memory.Free(w, s) && c.observedAt <= s.observedAt;
    var w' := Memory.Apply(w, step);
    assert s in w'.samples && Memory.Free(w', s) == Memory.Free(w, s);
  }

  lemma {:induction false} RequestedCovers(plan: seq<Candidate>, c: Candidate)
    requires c in plan
    ensures c.reservation <= Requested(plan, c.host)
  {
    var rest, last := plan[..|plan| - 1], plan[|plan| - 1];
    RequestedIsNatural(rest, c.host);
    if c != last {
      assert c in rest;
      RequestedCovers(rest, c);
    }
  }

  /** A commit adds nothing to a host whose lock another transaction holds. */
  lemma CommitSparesLocked(inv: Inventory, sys: System, mine: JobId, other: JobId, host: Host, since: Time, v: Vm)
    requires Inv(inv, sys) && mine in sys.txns && other in sys.txns && mine != other && Committable(sys, other)
    requires Locked(sys.txns[mine], host)
    ensures ActiveShare(Memory.Insert(sys.w.placements, other, sys.txns[other].plan), host, mine, since, v)
         <= ActiveShare(sys.w.placements, host, mine, since, v)
  {
    var plan := sys.txns[other].plan;
    assert TxnOk(sys, other);
    Memory.InsertKeepsOthers(sys.w.placements, other, plan, v);
    forall c | c in plan && c.host == host ensures c.reservation == 0 {
      RequestedCovers(plan, c);
      if Requested(plan, host) > 0 {
        LockIsExclusive(inv, sys, mine, other, host);
      }
    }
  }

  /** A commit by another job leaves this job unplaced and its candidates as good as they were. */
  lemma CommitKeepsCandidates(sys: System, other: JobId, job: JobId)
    requires job in sys.txns && TxnOk(sys, job) && other in sys.txns && job != other
    ensures var w' := sys.w.(placements := Memory.Insert(sys.w.placements, other, sys.txns[other].plan));
            Unplaced(w', job) && forall c | c in sys.txns[job].plan :: CandidateOk(w', c)
  {
    var plan := sys.txns[other].plan;
    var w' := sys.w.(placements := Memory.Insert(sys.w.placements, other, plan));
    forall v | v in w'.placements ensures w'.placements[v].job != job {
      Memory.InsertKeepsOthers(sys.w.placements, other, plan, v);
    }
    forall c | c in sys.txns[job].plan ensures CandidateOk(w', c) {
      assert CandidateOk(sys.w, c);
      Memory.InsertKeepsOthers(sys.w.placements, other, plan, c.vm);
      var s :| s in sys.w.samples && s.host == c.host && s.host in sys.w.limits
               && c.observedFree <= Memory.Free(sys.w, s) && c.observedAt <= s.observedAt;
      assert s in w'.samples && Memory.Free(w', s) == Memory.Free(sys.w, s);
    }
  }

  lemma CommitKeepsTxn(inv: Inventory, sys: System, other: JobId, job: JobId)
    requires Inv(inv, sys) && job in sys.txns && other in sys.txns && job != other && Committable(sys, other)
    ensures TxnOk(Apply(sys, Commit(other)), job)
  {
    var sys', txn := Apply(sys, Commit(other)), sys.txns[job];
    assert TxnOk(sys, job);
    CommitKeepsCandidates(sys, other, job);
    forall h | h in txn.passed ensures HasRoom(sys'.w.placements, sys'.w.n, job, txn.plan, h) {
      forall since: Time, v: Vm
        ensures ActiveShare(sys'.w.placements, h, job, since, v) <= ActiveShare(sys.w.placements, h, job, since, v)
      {
        CommitSparesLocked(inv, sys, job, other, h, since, v);
      }
      RoomStays(sys.w.placements, sys'.w.placements, sys.w.n, job, txn.plan, h);
    }
  }

  lemma BeginIsOk(sys: System, job: JobId, plan: seq<Candidate>, order: seq<Host>, other: JobId)
    requires Memory.Allowed(sys.w, Memory.Admit(job, plan)) && other in Apply(sys, Begin(job, plan, order)).txns
    requires other in sys.txns ==> TxnOk(sys, other)
    ensures TxnOk(Apply(sys, Begin(job, plan, order)), other)
  {
  }

  lemma LockKeepsTxn(sys: System, job: JobId, other: JobId)
    requires Locks.Unfinished(LockState(sys), job) && other in sys.txns && TxnOk(sys, other)
    ensures TxnOk(Apply(sys, Lock(job)), other)
  {
    if job == other {
      forall h | h in sys.txns[job].passed ensures Locked(Apply(sys, Lock(job)).txns[job], h) {
        LockedStays(sys.txns[job], h);
      }
    }
  }

  lemma ReadKeepsTxn(sys: System, job: JobId, host: Host, other: JobId)
    requires other in Apply(sys, Read(job, host)).txns && other in sys.txns && TxnOk(sys, other)
    ensures TxnOk(Apply(sys, Read(job, host)), other)
  {
  }

  lemma StepKeepsTxns(inv: Inventory, sys: System, s: Step, job: JobId)
    requires Inv(inv, sys) && Allowed(inv, sys, s) && job in Apply(sys, s).txns
    ensures TxnOk(Apply(sys, s), job)
  {
    if job in sys.txns {
      assert TxnOk(sys, job);
    }
    match s
    case Outside(step) => OutsideKeepsTxn(sys, step, job);
    case Begin(other, plan, order) => BeginIsOk(sys, other, plan, order, job);
    case Lock(other) => LockKeepsTxn(sys, other, job);
    case Read(other, host) => ReadKeepsTxn(sys, other, host, job);
    case Commit(other) => if Apply(sys, s) != sys { CommitKeepsTxn(inv, sys, other, job); }
    case Abort(_) =>
  }

  lemma LockedStays(txn: Txn, h: Host)
    requires Locked(txn, h) && txn.taken < |txn.order|
    ensures Locked(txn.(taken := txn.taken + 1), h)
  {
    assert txn.order[..txn.taken + 1] == txn.order[..txn.taken] + [txn.order[txn.taken]];
  }

  lemma BeginRefinesLocks(inv: Inventory, sys: System, job: JobId, plan: seq<Candidate>, order: seq<Host>)
    requires job !in sys.txns && IsOrder(plan, order) && forall c | c in plan :: c.host in inv.hosts
    ensures Locks.Allowed(inv.key, inv.hosts, LockState(sys), Locks.Begin(job, order))
    ensures LockState(sys.(txns := sys.txns[job := Txn(plan, order, 0, {})])) == Locks.Apply(LockState(sys), Locks.Begin(job, order))
  {
    forall h | h in order ensures h in inv.hosts {
      assert h in Hosts(plan);
    }
  }

  lemma EndRefinesLocks(inv: Inventory, sys: System, w: Memory.World, job: JobId)
    requires job in sys.txns
    ensures Locks.Allowed(inv.key, inv.hosts, LockState(sys), Locks.Finish(job))
    ensures LockState(System(w, sys.txns - {job})) == Locks.Apply(LockState(sys), Locks.Finish(job))
  {
  }

  /** Reading a sum that leaves room changes no lock. */
  lemma ReadRefinesLocks(sys: System, w: Memory.World, job: JobId, passed: set<Host>)
    requires job in sys.txns
    ensures LockState(System(w, sys.txns[job := sys.txns[job].(passed := passed)])) == LockState(sys)
  {
  }

  ghost predicate RefinesLocks(inv: Inventory, a: Locks.State, b: Locks.State) {
    a == b || exists step :: Locks.Allowed(inv.key, inv.hosts, a, step) && Locks.Apply(a, step) == b
  }

  /** In the lock model each step begins, acquires, finishes or changes nothing. */
  lemma StepRefinesLocks(inv: Inventory, sys: System, s: Step)
    requires Allowed(inv, sys, s)
    ensures RefinesLocks(inv, LockState(sys), LockState(Apply(sys, s)))
  {
    match s
    case Outside(_) =>
    case Begin(job, plan, order) =>
      if Apply(sys, s) != sys { BeginRefinesLocks(inv, sys, job, plan, order); }
    case Lock(job) =>
      assert LockState(Apply(sys, s)) == Locks.Apply(LockState(sys), Locks.Acquire(job));
    case Read(job, host) =>
      if job in sys.txns {
        EndRefinesLocks(inv, sys, sys.w, job);
        ReadRefinesLocks(sys, sys.w, job, sys.txns[job].passed + {host});
      }
    case Commit(job) =>
      if Apply(sys, s) != sys { EndRefinesLocks(inv, sys, Apply(sys, s).w, job); }
    case Abort(job) =>
      if job in sys.txns { EndRefinesLocks(inv, sys, sys.w, job); } else { assert sys.txns - {job} == sys.txns; }
  }

  lemma StepKeepsInv(inv: Inventory, sys: System, s: Step)
    requires Inv(inv, sys) && Allowed(inv, sys, s)
    ensures Inv(inv, Apply(sys, s))
  {
    forall job | job in Apply(sys, s).txns ensures TxnOk(Apply(sys, s), job) {
      StepKeepsTxns(inv, sys, s, job);
    }
    StepRefinesLocks(inv, sys, s);
    if LockState(Apply(sys, s)) != LockState(sys) {
      var b :| Locks.Allowed(inv.key, inv.hosts, LockState(sys), b) && Locks.Apply(LockState(sys), b) == LockState(Apply(sys, s));
      Locks.StepKeepsOrdered(inv.key, inv.hosts, LockState(sys), b);
    }
  }

  // ---------------------------------------------------------------------------
  // The locked protocol refines the one-step admission
  // ---------------------------------------------------------------------------

  /** Each step either leaves the memory model alone or is one of its steps; a commit is the whole admission. */
  lemma StepRefines(inv: Inventory, sys: System, s: Step)
    requires Inv(inv, sys) && Allowed(inv, sys, s)
    ensures Apply(sys, s).w == sys.w
         || exists b :: Memory.Allowed(sys.w, b) && Apply(sys, s).w == Memory.Apply(sys.w, b)
  {
    match s
    case Outside(step) => assert Memory.Allowed(sys.w, step);
    case Commit(job) =>
      if job in sys.txns && Committable(sys, job) {
        var plan := sys.txns[job].plan;
        assert TxnOk(sys, job);
        forall h | h in Hosts(plan) ensures HasRoom(sys.w.placements, sys.w.n, job, plan, h) {
          RequestedIsNatural(plan, h);
        }
        assert Memory.Insertable(sys.w, job, plan);
        forall c | c in plan ensures CandidateOk(sys.w, c) && c.vm !in sys.w.placements {}
        assert Memory.Allowed(sys.w, Memory.Admit(job, plan));
        assert Apply(sys, s).w == Memory.Apply(sys.w, Memory.Admit(job, plan));
      }
    case _ =>
  }

  /**
   Over every interleaving of lock, read, commit and abort steps of any number of
   placement transactions, what runs and what is promised stays within every limit.
  */
  lemma {:induction false} NeverOvercommittedUnderLocks(inv: Inventory, sys: System, steps: seq<Step>)
    requires Inv(inv, sys) && Memory.Matches(sys.w) && Memory.Safe(sys.w) && Obeys(inv, sys, steps)
    ensures Inv(inv, Run(sys, steps)) && Memory.Matches(Run(sys, steps).w) && Memory.Safe(Run(sys, steps).w)
    decreases |steps|
  {
    if steps != [] {
      StepKeepsInv(inv, sys, steps[0]);
      StepRefines(inv, sys, steps[0]);
      if Apply(sys, steps[0]).w != sys.w {
        var b :| Memory.Allowed(sys.w, b) && Apply(sys, steps[0]).w == Memory.Apply(sys.w, b);
        Memory.StepKeepsMatches(sys.w, b);
        Memory.StepKeepsSafe(sys.w, b);
      }
      NeverOvercommittedUnderLocks(inv, Apply(sys, steps[0]), steps[1..]);
    }
  }

  /** Its next lock is free, or it holds them all. */
  ghost predicate CanMove(inv: Inventory, sys: System, job: JobId) {
    job in sys.txns && (sys.txns[job].taken >= |sys.txns[job].order| || Allowed(inv, sys, Lock(job)))
  }

  /** With layered lock numbers, whenever transactions are open one of them can take its next lock or has them all. */
  lemma TransactionsProgress(inv: Inventory, sys: System, steps: seq<Step>)
    requires Inv(inv, sys) && Memory.Matches(sys.w) && Memory.Safe(sys.w) && Obeys(inv, sys, steps)
    requires Locks.Layered(inv.key, inv.hosts) && Run(sys, steps).txns != map[]
    ensures exists job :: CanMove(inv, Run(sys, steps), job)
  {
    NeverOvercommittedUnderLocks(inv, sys, steps);
    var now := Run(sys, steps);
    var some :| some in now.txns;
    assert some in LockState(now);
    Locks.SomeoneMoves(inv.key, inv.hosts, LockState(now));
    var job :| Locks.CanMove(inv.key, inv.hosts, LockState(now), job);
    assert CanMove(inv, now, job);
  }
}
