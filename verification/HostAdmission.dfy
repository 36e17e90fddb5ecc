/**
 Host memory admission: the decision `admitHostCapacity` takes under the host
 locks, and the proof that stale free-memory samples never lead to overcommit.

 Pod VMs are numbered; `n` bounds the numbers in use, so a SQL SUM over
 placements is a sum over 0..n.
*/
module HostAdmission {
  import opened Wrappers

  type Vm = nat
  type Host = nat
  type JobId = nat
  type Time = int

  datatype Placement = Placement(job: JobId, host: Host, reservation: nat, releasedAt: Option<Time>)

  /** One planned VM: what its observation saw, and what it asks for. */
  datatype Candidate = Candidate(vm: Vm, host: Host, observedFree: int, headroom: nat, reservation: nat, observedAt: Time)

  datatype AdmissionError = InconsistentHeadroom(host: Host) | Rejected(host: Host)

  function Sum(n: nat, f: Vm -> int): int {
    if n == 0 then 0 else Sum(n - 1, f) + f(n - 1)
  }

  lemma {:induction false} SumBound(n: nat, f: Vm -> int, g: Vm -> int, k: Vm -> int)
    requires forall v: Vm | v < n :: f(v) <= g(v) + k(v)
    ensures Sum(n, f) <= Sum(n, g) + Sum(n, k)
  {
    if n > 0 {
      SumBound(n - 1, f, g, k);
    }
  }

  lemma {:induction false} SumZero(n: nat, f: Vm -> int)
    requires forall v: Vm | v < n :: f(v) == 0
    ensures Sum(n, f) == 0
  {
    if n > 0 {
      SumZero(n - 1, f);
    }
  }

  /** Not yet released, or released at or after the observation: the stale sample may still show it as free. */
  predicate HoldsCapacity(p: Placement, host: Host, job: JobId, since: Time) {
    p.host == host && p.job != job && p.reservation > 0 && (p.releasedAt.Some? ==> p.releasedAt.value >= since)
  }

  function ActiveShare(placements: map<Vm, Placement>, host: Host, job: JobId, since: Time, v: Vm): int {
    if v in placements && HoldsCapacity(placements[v], host, job, since) then placements[v].reservation else 0
  }

  /** The durable reservations query. */
  function ActiveReserved(placements: map<Vm, Placement>, n: nat, host: Host, job: JobId, since: Time): int {
    Sum(n, (v: Vm) => ActiveShare(placements, host, job, since, v))
  }

  lemma EarlierFenceCountsMore(placements: map<Vm, Placement>, n: nat, host: Host, job: JobId, early: Time, late: Time)
    requires early <= late
    ensures ActiveReserved(placements, n, host, job, late) <= ActiveReserved(placements, n, host, job, early)
  {
    var zero := (v: Vm) => 0;
    SumBound(n, (v: Vm) => ActiveShare(placements, host, job, late, v), (v: Vm) => ActiveShare(placements, host, job, early, v), zero);
    SumZero(n, zero);
  }

  function Hosts(cs: seq<Candidate>): set<Host> {
    set c | c in cs :: c.host
  }

  function Requested(cs: seq<Candidate>, host: Host): int {
    if cs == [] then 0
    else Requested(cs[..|cs| - 1], host) + (if cs[|cs| - 1].host == host then cs[|cs| - 1].reservation else 0)
  }

  predicate Consistent(cs: seq<Candidate>, host: Host) {
    forall a, b | a in cs && b in cs && a.host == host && b.host == host :: a.headroom == b.headroom
  }

  /** What candidate `a`'s sample leaves when fenced at candidate `b`'s observation. */
  function Slack(placements: map<Vm, Placement>, n: nat, job: JobId, cs: seq<Candidate>, a: Candidate, b: Candidate): int {
    a.observedFree - ActiveReserved(placements, n, a.host, job, b.observedAt) - a.headroom - Requested(cs, a.host)
  }

  /** Every sample of the plan, under every observation time of the plan, has room for the whole request. */
  predicate HasRoom(placements: map<Vm, Placement>, n: nat, job: JobId, cs: seq<Candidate>, host: Host) {
    Requested(cs, host) == 0
    || forall a, b | a in cs && b in cs && a.host == host && b.host == host :: Slack(placements, n, job, cs, a, b) >= 0
  }

  predicate Admits(placements: map<Vm, Placement>, n: nat, job: JobId, cs: seq<Candidate>) {
    forall h | h in Hosts(cs) :: Consistent(cs, h) && HasRoom(placements, n, job, cs, h)
  }

  // ---------------------------------------------------------------------------
  // admitHostCapacity
  // ---------------------------------------------------------------------------

  datatype Admission = Admission(free: int, headroom: nat, requested: int, observedAt: Time)

  /** One host's accumulated entry: the least sample, the earliest fence, the common headroom, the total request. */
  ghost predicate Summarises(a: Admission, cs: seq<Candidate>, host: Host) {
    && (exists c :: c in cs && c.host == host && c.observedFree == a.free)
    && (exists c :: c in cs && c.host == host && c.observedAt == a.observedAt)
    && (forall c :: c in cs && c.host == host ==> a.free <= c.observedFree && a.observedAt <= c.observedAt && a.headroom == c.headroom)
    && a.requested == Requested(cs, host)
  }

  lemma {:induction false} RequestedIsNatural(cs: seq<Candidate>, host: Host)
    ensures Requested(cs, host) >= 0
  {
    if cs != [] {
      RequestedIsNatural(cs[..|cs| - 1], host);
    }
  }

  lemma SummaryDecides(placements: map<Vm, Placement>, n: nat, job: JobId, cs: seq<Candidate>, host: Host, a: Admission)
    requires Summarises(a, cs, host)
    ensures HasRoom(placements, n, job, cs, host)
      <==> (a.requested == 0
            || a.free - ActiveReserved(placements, n, host, job, a.observedAt) - a.headroom >= a.requested)
  {
    var least :| least in cs && least.host == host && least.observedFree == a.free;
    var first :| first in cs && first.host == host && first.observedAt == a.observedAt;
    assert Slack(placements, n, job, cs, least, first)
        == a.free - ActiveReserved(placements, n, host, job, a.observedAt) - a.headroom - a.requested;
    forall x, y | x in cs && y in cs && x.host == host && y.host == host
      ensures Slack(placements, n, job, cs, x, y) >= Slack(placements, n, job, cs, least, first)
    {
      EarlierFenceCountsMore(placements, n, host, job, first.observedAt, y.observedAt);
    }
  }

  ghost predicate Summary(byHost: map<Host, Admission>, cs: seq<Candidate>) {
    && byHost.Keys == Hosts(cs)
    && (forall h | h in byHost :: Summarises(byHost[h], cs, h))
  }

  lemma {:induction false} NothingRequested(cs: seq<Candidate>, host: Host)
    requires forall c | c in cs :: c.host != host
    ensures Requested(cs, host) == 0
  {
    if cs != [] {
      NothingRequested(cs[..|cs| - 1], host);
    }
  }

  lemma SummaryGrows(byHost: map<Host, Admission>, before: seq<Candidate>, c: Candidate, a: Admission)
    requires Summary(byHost, before)
    requires c.host in byHost ==> byHost[c.host].headroom == c.headroom
    requires a == Merge(byHost, c)
    ensures Summary(byHost[c.host := a], before + [c])
  {
    var grown := byHost[c.host := a];
    assert (before + [c])[..|before|] == before;
    if c.host !in byHost {
      forall d | d in before ensures d.host != c.host {
        assert d.host in Hosts(before);
      }
      NothingRequested(before, c.host);
      SummaryExtends(before, c, None, a);
    } else {
      SummaryExtends(before, c, Some(byHost[c.host]), a);
    }
    forall h | h in byHost && h != c.host ensures Summarises(byHost[h], before + [c], h) {
      OtherSummaryKept(before, c, h, byHost[h]);
    }
    assert Hosts(before + [c]) == Hosts(before) + {c.host};
  }

  function Merge(byHost: map<Host, Admission>, c: Candidate): Admission {
    if c.host !in byHost then Admission(c.observedFree, c.headroom, c.reservation, c.observedAt)
    else
      var a := byHost[c.host];
      Admission(if c.observedFree < a.free then c.observedFree else a.free, a.headroom, a.requested + c.reservation,
                if c.observedAt < a.observedAt then c.observedAt else a.observedAt)
  }

  lemma SummaryIsConsistent(byHost: map<Host, Admission>, cs: seq<Candidate>)
    requires Summary(byHost, cs)
    ensures forall h | h in Hosts(cs) :: Consistent(cs, h)
  {
    forall h | h in Hosts(cs) ensures Consistent(cs, h) {
      assert Summarises(byHost[h], cs, h);
    }
  }

  method Summarise(cs: seq<Candidate>) returns (r: Result<map<Host, Admission>, AdmissionError>)
    ensures r.Ok? <==> forall h | h in Hosts(cs) :: Consistent(cs, h)
    ensures r.Ok? ==> Summary(r.value, cs)
    ensures r.Err? ==> r.error.InconsistentHeadroom? && r.error.host in Hosts(cs) && !Consistent(cs, r.error.host)
  {
    var byHost: map<Host, Admission> := map[];
    for i := 0 to |cs|
      invariant Summary(byHost, cs[..i])
    {
      var c := cs[i];
      var a: Admission;
      if c.host !in byHost {
        a := Admission(c.observedFree, c.headroom, 0, c.observedAt);
      } else {
        a := byHost[c.host];
        if c.observedFree < a.free {
          a := a.(free := c.observedFree);
        }
        if c.headroom != a.headroom {
          ghost var other :| other in cs[..i] && other.host == c.host && other.observedFree == byHost[c.host].free;
          assert other in cs && c in cs && c.host in Hosts(cs) && !Consistent(cs, c.host);
          return Err(InconsistentHeadroom(c.host));
        }
        if c.observedAt < a.observedAt {
          a := a.(observedAt := c.observedAt);
        }
      }
      a := a.(requested := a.requested + c.reservation);
      SummaryGrows(byHost, cs[..i], c, a);
      assert cs[..i + 1] == cs[..i] + [c];
      byHost := byHost[c.host := a];
    }
    assert cs[..|cs|] == cs;
    SummaryIsConsistent(byHost, cs);
    return Ok(byHost);
  }

  lemma OtherSummaryKept(before: seq<Candidate>, c: Candidate, h: Host, a: Admission)
    requires Summarises(a, before, h) && h != c.host
    ensures Summarises(a, before + [c], h)
  {
    var x :| x in before && x.host == h && x.observedFree == a.free;
    var y :| y in before && y.host == h && y.observedAt == a.observedAt;
    assert x in before + [c] && y in before + [c];
    assert (before + [c])[..|before|] == before;
  }

  lemma SummaryExtends(before: seq<Candidate>, c: Candidate, old_: Option<Admission>, a: Admission)
    requires old_.None? ==> forall d | d in before :: d.host != c.host
    requires old_.Some? ==> Summarises(old_.value, before, c.host) && old_.value.headroom == c.headroom
    requires a.headroom == c.headroom && a.requested == Requested(before + [c], c.host)
    requires a.free == if old_.Some? && old_.value.free <= c.observedFree then old_.value.free else c.observedFree
    requires a.observedAt == if old_.Some? && old_.value.observedAt <= c.observedAt then old_.value.observedAt else c.observedAt
    ensures Summarises(a, before + [c], c.host)
  {
    assert (before + [c])[|before|] == c;
    if old_.Some? {
      var x :| x in before && x.host == c.host && x.observedFree == old_.value.free;
      var y :| y in before && y.host == c.host && y.observedAt == old_.value.observedAt;
      assert x in before + [c] && y in before + [c];
    }
  }

  predicate Increasing(hs: seq<Host>) {
    forall i, j | 0 <= i < j < |hs| :: hs[i] < hs[j]
  }

  method Least(hs: set<Host>) returns (h: Host)
    requires hs != {}
    ensures h in hs && forall x | x in hs :: h <= x
  {
    h :| h in hs;
    var rest := hs - {h};
    while rest != {}
      invariant h in hs && rest <= hs
      invariant forall x | x in hs && x !in rest :: h <= x
    {
      var x :| x in rest;
      if x < h {
        h := x;
      }
      rest := rest - {x};
    }
  }

  /** `sort.Strings` over the map's keys. */
  method Sorted(hs: set<Host>) returns (s: seq<Host>)
    ensures Increasing(s) && forall h :: h in s <==> h in hs
  {
    s := [];
    var rest := hs;
    while rest != {}
      invariant rest <= hs && Increasing(s)
      invariant forall h :: h in s <==> h in hs && h !in rest
      invariant forall x, y | x in s && y in rest :: x < y
    {
      var h := Least(rest);
      assert forall i | 0 <= i < |s| :: s[i] in s;
      s := s + [h];
      rest := rest - {h};
    }
  }

  /** The least slack over every sample and every observation time of the plan on this host. */
  ghost predicate LeastSlack(placements: map<Vm, Placement>, n: nat, job: JobId, cs: seq<Candidate>, host: Host, least: int) {
    && (forall x, y | x in cs && y in cs && x.host == host && y.host == host :: least <= Slack(placements, n, job, cs, x, y))
    && (exists x, y :: x in cs && y in cs && x.host == host && y.host == host && least == Slack(placements, n, job, cs, x, y))
  }

  /** The least free-memory sample of the plan on this host. */
  ghost predicate LeastSample(cs: seq<Candidate>, host: Host, c: Candidate) {
    c in cs && c.host == host && forall d | d in cs && d.host == host :: c.observedFree <= d.observedFree
  }

  /** The headroom reported for a host: the least slack, or without a request the least sample less its headroom, not below zero. */
  ghost predicate LeftOver(placements: map<Vm, Placement>, n: nat, job: JobId, cs: seq<Candidate>, host: Host, headroom: int) {
    if Requested(cs, host) > 0 then headroom >= 0 && LeastSlack(placements, n, job, cs, host, headroom)
    else exists c :: LeastSample(cs, host, c) && headroom == if c.observedFree < c.headroom then 0 else c.observedFree - c.headroom
  }

  lemma SummaryGivesLeastSlack(placements: map<Vm, Placement>, n: nat, job: JobId, cs: seq<Candidate>, host: Host, a: Admission)
    requires Summarises(a, cs, host)
    ensures LeastSlack(placements, n, job, cs, host,
                       a.free - ActiveReserved(placements, n, host, job, a.observedAt) - a.headroom - a.requested)
  {
    var least :| least in cs && least.host == host && least.observedFree == a.free;
    var first :| first in cs && first.host == host && first.observedAt == a.observedAt;
    assert Slack(placements, n, job, cs, least, first)
        == a.free - ActiveReserved(placements, n, host, job, a.observedAt) - a.headroom - a.requested;
    forall x, y | x in cs && y in cs && x.host == host && y.host == host
      ensures Slack(placements, n, job, cs, least, first) <= Slack(placements, n, job, cs, x, y)
    {
      EarlierFenceCountsMore(placements, n, host, job, first.observedAt, y.observedAt);
    }
  }

  /** One host's turn: no lock for a host nothing is requested on. */
  method DecideHost(placements: map<Vm, Placement>, n: nat, job: JobId, ghost cs: seq<Candidate>, host: Host, a: Admission)
    returns (headroom: int, locked: bool, ok: bool)
    requires Summarises(a, cs, host)
    ensures ok <==> HasRoom(placements, n, job, cs, host)
    ensures locked <==> Requested(cs, host) > 0
    ensures ok ==> LeftOver(placements, n, job, cs, host, headroom)
  {
    SummaryDecides(placements, n, job, cs, host, a);
    RequestedIsNatural(cs, host);
    if a.requested == 0 {
      ghost var c :| c in cs && c.host == host && c.observedFree == a.free;
      assert LeastSample(cs, host, c);
      headroom := a.free - a.headroom;
      return if headroom < 0 then 0 else headroom, false, true;
    }
    var active := ActiveReserved(placements, n, host, job, a.observedAt);
    var available := a.free - active - a.headroom;
    SummaryGivesLeastSlack(placements, n, job, cs, host, a);
    return available - a.requested, true, available >= a.requested;
  }

  lemma IncreasingSnoc(hs: seq<Host>, h: Host)
    requires Increasing(hs) && forall x | x in hs :: x < h
    ensures Increasing(hs + [h])
  {
    assert forall i | 0 <= i < |hs| :: hs[i] in hs;
  }

  /** The host loop: locks in order, stop at the first host without room. */
  method DecideHosts(placements: map<Vm, Placement>, n: nat, job: JobId, ghost cs: seq<Candidate>,
                     byHost: map<Host, Admission>, hosts: seq<Host>)
    returns (headroom: map<Host, int>, locks: seq<Host>, full: Option<Host>)
    requires Increasing(hosts) && forall h | h in hosts :: h in byHost && Summarises(byHost[h], cs, h)
    ensures full.None? <==> forall h | h in hosts :: HasRoom(placements, n, job, cs, h)
    ensures full.Some? ==> full.value in hosts && !HasRoom(placements, n, job, cs, full.value)
    ensures full.None? ==> forall h :: h in headroom <==> h in hosts
    ensures full.None? ==> forall h | h in headroom :: LeftOver(placements, n, job, cs, h, headroom[h])
    ensures Increasing(locks) && forall h | h in locks :: h in hosts && Requested(cs, h) > 0
    ensures full.None? ==> forall h | h in hosts && Requested(cs, h) > 0 :: h in locks
  {
    locks, headroom, full := [], map[], None;
    for i := 0 to |hosts|
      invariant Increasing(locks)
      invariant forall h | h in locks :: h in hosts[..i] && Requested(cs, h) > 0
      invariant forall h | h in hosts[..i] && Requested(cs, h) > 0 :: h in locks
      invariant forall h :: h in headroom <==> h in hosts[..i]
      invariant forall h | h in hosts[..i] :: HasRoom(placements, n, job, cs, h)
      invariant forall h | h in headroom :: LeftOver(placements, n, job, cs, h, headroom[h])
    {
      var host := hosts[i];
      var left, locked, ok := DecideHost(placements, n, job, cs, host, byHost[host]);
      assert hosts[..i + 1] == hosts[..i] + [host];
      if locked {
        IncreasingSnoc(locks, host);
        locks := locks + [host];
      }
      if !ok {
        full := Some(host);
        return;
      }
      headroom := headroom[host := left];
    }
    assert hosts[..|hosts|] == hosts;
  }

  /**
   Decides a plan. `locks` is the sequence of host locks taken, in order; they
   are held until the transaction ends, whatever the outcome.
  */
  method AdmitHostCapacity(placements: map<Vm, Placement>, n: nat, job: JobId, cs: seq<Candidate>)
    returns (r: Result<map<Host, int>, AdmissionError>, locks: seq<Host>)
    ensures r.Ok? <==> Admits(placements, n, job, cs)
    ensures r.Ok? ==> forall h :: h in r.value <==> h in Hosts(cs)
    ensures r.Ok? ==> forall h | h in r.value :: LeftOver(placements, n, job, cs, h, r.value[h])
    ensures Increasing(locks) && forall h | h in locks :: h in Hosts(cs) && Requested(cs, h) > 0
    ensures r.Ok? ==> forall h | h in Hosts(cs) && Requested(cs, h) > 0 :: h in locks
    ensures r.Err? && r.error.Rejected? ==> r.error.host in Hosts(cs) && !HasRoom(placements, n, job, cs, r.error.host)
  {
    var summary := Summarise(cs);
    if summary.Err? {
      return Err(summary.error), [];
    }
    var byHost := summary.value;
    var hosts := Sorted(byHost.Keys);
    var headroom, taken, full := DecideHosts(placements, n, job, cs, byHost, hosts);
    locks := taken;
    r := if full.Some? then Err(Rejected(full.value)) else Ok(headroom);
  }
}
