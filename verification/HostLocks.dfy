/**
 Host locks and deadlock. Any number of placement transactions hold and await
 advisory locks that end with the transaction; each takes the locks of its hosts
 in the order `HostAdmission.AdmitHostCapacity` returns them, strictly increasing.
 The lock of a host is not the host itself but a number hashed from its name, so
 `key` is a parameter: two hosts may share a lock.
*/
module HostLocks {
  import opened HostAdmission

  type Txn = nat

  /** `plan` is the sequence of hosts to lock; the locks of the first `taken` are held. */
  datatype Progress = Progress(plan: seq<Host>, taken: nat)

  type State = map<Txn, Progress>

  ghost predicate Holds(key: Host -> int, s: State, t: Txn, lock: int) {
    t in s && exists i :: 0 <= i < s[t].taken && i < |s[t].plan| && key(s[t].plan[i]) == lock
  }

  predicate Unfinished(s: State, t: Txn) {
    t in s && s[t].taken < |s[t].plan|
  }

  function NextHost(s: State, t: Txn): Host
    requires Unfinished(s, t)
  {
    s[t].plan[s[t].taken]
  }

  datatype Step = Begin(txn: Txn, plan: seq<Host>) | Acquire(txn: Txn) | Finish(txn: Txn)

  /**
   Plans name hosts of the inventory. A lock is granted only while nobody else holds
   it; a transaction may commit or abort at any time.
  */
  ghost predicate Allowed(key: Host -> int, hosts: set<Host>, s: State, step: Step) {
    match step
    case Begin(t, plan) => t !in s && Increasing(plan) && forall h | h in plan :: h in hosts
    case Acquire(t) => Unfinished(s, t) && forall u | u in s && u != t :: !Holds(key, s, u, key(NextHost(s, t)))
    case Finish(t) => t in s
  }

  function Apply(s: State, step: Step): State {
    match step
    case Begin(t, plan) => s[t := Progress(plan, 0)]
    case Acquire(t) => if t in s then s[t := s[t].(taken := s[t].taken + 1)] else s
    case Finish(t) => s - {t}
  }

  function Run(s: State, steps: seq<Step>): State
    decreases |steps|
  {
    if steps == [] then s else Run(Apply(s, steps[0]), steps[1..])
  }

  ghost predicate Obeys(key: Host -> int, hosts: set<Host>, s: State, steps: seq<Step>)
    decreases |steps|
  {
    steps == [] || (Allowed(key, hosts, s, steps[0]) && Obeys(key, hosts, Apply(s, steps[0]), steps[1..]))
  }

  /** Plans are sorted lists of inventory hosts, and no lock has two holders. */
  ghost predicate Ordered(key: Host -> int, hosts: set<Host>, s: State) {
    && (forall t | t in s :: s[t].taken <= |s[t].plan| && Increasing(s[t].plan) && forall h | h in s[t].plan :: h in hosts)
    && (forall t, u, lock | Holds(key, s, t, lock) && Holds(key, s, u, lock) :: t == u)
  }

  lemma HeldBefore(key: Host -> int, hosts: set<Host>, s: State, step: Step, t: Txn, lock: int)
    requires Allowed(key, hosts, s, step) && Holds(key, Apply(s, step), t, lock)
    ensures Holds(key, s, t, lock) || (step == Acquire(t) && Unfinished(s, t) && key(NextHost(s, t)) == lock)
  {
    var s' := Apply(s, step);
    var i :| 0 <= i < s'[t].taken && i < |s'[t].plan| && key(s'[t].plan[i]) == lock;
    if step == Acquire(t) && i < s[t].taken {
      assert key(s[t].plan[i]) == lock;
    }
  }

  lemma StepKeepsOrdered(key: Host -> int, hosts: set<Host>, s: State, step: Step)
    requires Ordered(key, hosts, s) && Allowed(key, hosts, s, step)
    ensures Ordered(key, hosts, Apply(s, step))
  {
    var s' := Apply(s, step);
    forall t, u, lock | Holds(key, s', t, lock) && Holds(key, s', u, lock) ensures t == u {
      HeldBefore(key, hosts, s, step, t, lock);
      HeldBefore(key, hosts, s, step, u, lock);
    }
  }

  lemma {:induction false} RunKeepsOrdered(key: Host -> int, hosts: set<Host>, s: State, steps: seq<Step>)
    requires Ordered(key, hosts, s) && Obeys(key, hosts, s, steps)
    ensures Ordered(key, hosts, Run(s, steps))
    decreases |steps|
  {
    if steps != [] {
      StepKeepsOrdered(key, hosts, s, steps[0]);
      RunKeepsOrdered(key, hosts, Apply(s, steps[0]), steps[1..]);
    }
  }

  // ---------------------------------------------------------------------------
  // Cycles of waits
  // ---------------------------------------------------------------------------

  /** `t` is blocked by `u`: the lock it needs next is held by `u`. */
  ghost predicate WaitsFor(key: Host -> int, s: State, t: Txn, u: Txn) {
    t != u && Unfinished(s, t) && Holds(key, s, u, key(NextHost(s, t)))
  }

  ghost predicate Chain(key: Host -> int, s: State, ts: seq<Txn>) {
    forall i | 0 <= i < |ts| - 1 :: WaitsFor(key, s, ts[i], ts[i + 1])
  }

  ghost predicate Deadlocked(key: Host -> int, s: State, cycle: seq<Txn>) {
    cycle != [] && Chain(key, s, cycle) && WaitsFor(key, s, cycle[|cycle| - 1], cycle[0])
  }

  /** Inventory hosts that share a lock are neighbours: no inventory host with another lock lies between them. */
  predicate Layered(key: Host -> int, hosts: set<Host>) {
    forall a, b, c :: a in hosts && b in hosts && c in hosts && a < b < c && key(a) == key(c) ==> key(b) == key(a)
  }

  /** A blocked transaction always needs a higher host than the one that waits for it. */
  lemma WaitsClimb(key: Host -> int, hosts: set<Host>, s: State, t: Txn, u: Txn, v: Txn)
    requires Layered(key, hosts) && Ordered(key, hosts, s) && WaitsFor(key, s, t, u) && WaitsFor(key, s, u, v)
    ensures NextHost(s, t) < NextHost(s, u)
  {
    var wanted, next := NextHost(s, t), NextHost(s, u);
    var i :| 0 <= i < s[u].taken && i < |s[u].plan| && key(s[u].plan[i]) == key(wanted);
    var held := s[u].plan[i];
    assert held < next;
    assert key(held) != key(next) by {
      assert Holds(key, s, u, key(held));
    }
    assert held < next < wanted ==> key(next) == key(held);
  }

  lemma {:induction false} ChainClimbs(key: Host -> int, hosts: set<Host>, s: State, ts: seq<Txn>, next: Txn)
    requires Layered(key, hosts) && Ordered(key, hosts, s) && |ts| >= 2 && Chain(key, s, ts) && WaitsFor(key, s, ts[|ts| - 1], next)
    ensures Unfinished(s, ts[0]) && NextHost(s, ts[0]) < NextHost(s, ts[|ts| - 1])
    decreases |ts|
  {
    var last := |ts| - 1;
    assert WaitsFor(key, s, ts[last - 1], ts[last]);
    WaitsClimb(key, hosts, s, ts[last - 1], ts[last], next);
    if last > 1 {
      var shorter := ts[..last];
      forall i | 0 <= i < |shorter| - 1 ensures WaitsFor(key, s, shorter[i], shorter[i + 1]) {
        assert WaitsFor(key, s, ts[i], ts[i + 1]);
      }
      ChainClimbs(key, hosts, s, shorter, ts[last]);
    }
  }

  /** With layered locks no reachable state, for any host sets and any interleaving, holds a cycle of waits of any length. */
  lemma NoDeadlock(key: Host -> int, hosts: set<Host>, steps: seq<Step>, cycle: seq<Txn>)
    requires Layered(key, hosts) && Obeys(key, hosts, map[], steps)
    ensures !Deadlocked(key, Run(map[], steps), cycle)
  {
    var s := Run(map[], steps);
    RunKeepsOrdered(key, hosts, map[], steps);
    if |cycle| >= 2 && Chain(key, s, cycle) && WaitsFor(key, s, cycle[|cycle| - 1], cycle[0]) {
      ChainClimbs(key, hosts, s, cycle, cycle[0]);
      assert WaitsFor(key, s, cycle[0], cycle[1]);
      WaitsClimb(key, hosts, s, cycle[|cycle| - 1], cycle[0], cycle[1]);
    }
  }

  // ---------------------------------------------------------------------------
  // Progress
  // ---------------------------------------------------------------------------

  /** The transaction holds all its locks and may finish, or its next lock is free. */
  ghost predicate CanMove(key: Host -> int, hosts: set<Host>, s: State, t: Txn) {
    t in s && (!Unfinished(s, t) || Allowed(key, hosts, s, Acquire(t)))
  }

  /** Of finitely many unfinished transactions one needs the highest host. */
  lemma {:induction false} Highest(s: State, ts: set<Txn>) returns (top: Txn)
    requires ts != {} && forall t | t in ts :: Unfinished(s, t)
    ensures top in ts && forall t | t in ts :: NextHost(s, t) <= NextHost(s, top)
    decreases ts
  {
    top :| top in ts;
    if ts != {top} {
      var other := Highest(s, ts - {top});
      if NextHost(s, top) < NextHost(s, other) {
        top := other;
      }
    }
  }

  /** With layered locks some open transaction can always move on. */
  lemma SomeoneMoves(key: Host -> int, hosts: set<Host>, s: State)
    requires Layered(key, hosts) && Ordered(key, hosts, s) && s != map[]
    ensures exists t :: CanMove(key, hosts, s, t)
  {
    if forall t | t in s :: Unfinished(s, t) {
      var top := Highest(s, s.Keys);
      if !CanMove(key, hosts, s, top) {
        var u :| u in s && u != top && Holds(key, s, u, key(NextHost(s, top)));
        assert WaitsFor(key, s, top, u);
        if !CanMove(key, hosts, s, u) {
          var v :| v in s && v != u && Holds(key, s, v, key(NextHost(s, u)));
          WaitsClimb(key, hosts, s, top, u, v);
        }
      }
    } else {
      var t :| t in s && !Unfinished(s, t);
      assert CanMove(key, hosts, s, t);
    }
  }

  /** In every reachable state with an open transaction. */
  lemma AlwaysProgress(key: Host -> int, hosts: set<Host>, steps: seq<Step>)
    requires Layered(key, hosts) && Obeys(key, hosts, map[], steps) && Run(map[], steps) != map[]
    ensures exists t :: CanMove(key, hosts, Run(map[], steps), t)
  {
    RunKeepsOrdered(key, hosts, map[], steps);
    SomeoneMoves(key, hosts, Run(map[], steps));
  }

  // ---------------------------------------------------------------------------
  // The condition is exact
  // ---------------------------------------------------------------------------

  /** Two transactions and three hosts, the outer two sharing a lock: each ends up waiting for the other. */
  function Collision(a: Host, b: Host, c: Host): seq<Step> {
    [Begin(0, [a, b]), Begin(1, [b, c]), Acquire(0), Acquire(1)]
  }

  lemma CollisionDeadlocks(key: Host -> int, hosts: set<Host>, a: Host, b: Host, c: Host)
    requires a in hosts && b in hosts && c in hosts && a < b < c && key(a) == key(c) != key(b)
    ensures Obeys(key, hosts, map[], Collision(a, b, c)) && Deadlocked(key, Run(map[], Collision(a, b, c)), [0, 1])
  {
    var steps := Collision(a, b, c);
    var s1 := Apply(map[], steps[0]);
    var s2 := Apply(s1, steps[1]);
    var s3 := Apply(s2, steps[2]);
    var s4 := Apply(s3, steps[3]);
    assert steps[1..][1..] == steps[2..] && steps[2..][1..] == steps[3..] && steps[3..][1..] == [];
    assert s4[0] == Progress([a, b], 1) && s4[1] == Progress([b, c], 1);
    assert Run(s3, steps[3..]) == Run(s4, []) == s4;
    assert Run(s2, steps[2..]) == Run(s3, steps[3..]);
    assert Run(s1, steps[1..]) == Run(s2, steps[2..]);
    assert Run(map[], steps) == s4;
    assert key(s4[0].plan[0]) == key(c) && key(s4[1].plan[0]) == key(b);
    assert WaitsFor(key, s4, 0, 1) && WaitsFor(key, s4, 1, 0);
    assert Obeys(key, hosts, s3, steps[3..]);
    assert Obeys(key, hosts, s2, steps[2..]);
    assert Obeys(key, hosts, s1, steps[1..]);
  }

  ghost predicate DeadlockFree(key: Host -> int, hosts: set<Host>) {
    forall steps, cycle :: Obeys(key, hosts, map[], steps) ==> !Deadlocked(key, Run(map[], steps), cycle)
  }

  /** Taking host locks in sorted order is free of deadlock exactly when the inventory's lock numbers are layered. */
  lemma DeadlockFreeExactly(key: Host -> int, hosts: set<Host>)
    ensures Layered(key, hosts) <==> DeadlockFree(key, hosts)
  {
    if Layered(key, hosts) {
      forall steps, cycle | Obeys(key, hosts, map[], steps) ensures !Deadlocked(key, Run(map[], steps), cycle) {
        NoDeadlock(key, hosts, steps, cycle);
      }
    } else {
      var a, b, c :| a in hosts && b in hosts && c in hosts && a < b < c && key(a) == key(c) && key(b) != key(a);
      CollisionDeadlocks(key, hosts, a, b, c);
      var steps, cycle: seq<Txn> := Collision(a, b, c), [0, 1];
      assert Obeys(key, hosts, map[], steps) && Deadlocked(key, Run(map[], steps), cycle);
    }
  }

  /** In particular when no two hosts of the inventory share a lock. */
  lemma DistinctLocksAreLayered(key: Host -> int, hosts: set<Host>)
    requires forall a, b :: a in hosts && b in hosts && key(a) == key(b) ==> a == b
    ensures Layered(key, hosts)
  {
  }
}
