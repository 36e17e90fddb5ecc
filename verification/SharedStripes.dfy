/**
 Single-VM networks: nine pre-provisioned stripes share the students' pods. A new
 pod goes to the active stripe with the fewest live pods, lowest tag first.
*/
module SharedStripes {
  import opened Wrappers

  type Tag = nat
  type PodId = nat

  const FIRST: Tag := 347
  const LAST: Tag := 355
  const STRIPES := 9
  const SLOTS := 16

  predicate IsStripe(tag: Tag) {
    FIRST <= tag <= LAST
  }

  datatype Pick = Picked(tag: Tag) | NotReady | Full

  function CountAt(occupancy: map<Tag, nat>, tag: Tag): nat {
    if tag in occupancy then occupancy[tag] else 0
  }

  /** The least occupied stripe below the limit, ties to the lower tag. */
  ghost predicate IsBest(occupancy: map<Tag, nat>, tag: Tag) {
    && IsStripe(tag) && CountAt(occupancy, tag) < SLOTS
    && (forall other: Tag :: IsStripe(other) ==> CountAt(occupancy, tag) <= CountAt(occupancy, other))
    && (forall other: Tag :: IsStripe(other) && other < tag ==> CountAt(occupancy, tag) < CountAt(occupancy, other))
  }

  ghost predicate AllFull(occupancy: map<Tag, nat>) {
    forall tag :: IsStripe(tag) ==> CountAt(occupancy, tag) >= SLOTS
  }

  method PickStripe(occupancy: map<Tag, nat>, active: set<Tag>) returns (r: Pick)
    ensures r == NotReady <==> exists tag :: IsStripe(tag) && tag !in active
    ensures r.Picked? ==> IsBest(occupancy, r.tag)
    ensures r == Full <==> (forall tag :: IsStripe(tag) ==> tag in active) && AllFull(occupancy)
  {
    for tag := FIRST to LAST + 1
      invariant forall t :: FIRST <= t < tag ==> t in active
    {
      if tag !in active {
        assert IsStripe(tag);
        return NotReady;
      }
    }
    var best: Option<Tag>, bestCount := None, SLOTS;
    for tag := FIRST to LAST + 1
      invariant best.None? ==> forall t :: FIRST <= t < tag ==> CountAt(occupancy, t) >= SLOTS
      invariant best.Some? ==> FIRST <= best.value < tag && bestCount == CountAt(occupancy, best.value) < SLOTS
      invariant best.Some? ==> forall t :: FIRST <= t < tag ==> bestCount <= CountAt(occupancy, t)
      invariant best.Some? ==> forall t :: FIRST <= t < best.value ==> bestCount < CountAt(occupancy, t)
    {
      var n := CountAt(occupancy, tag);
      if n < SLOTS && (best.None? || n < bestCount) {
        best, bestCount := Some(tag), n;
      }
    }
    if best.None? {
      return Full;
    }
    assert IsStripe(best.value);
    return Picked(best.value);
  }

  /** At most one stripe is the best one. */
  lemma BestIsUnique(occupancy: map<Tag, nat>, a: Tag, b: Tag)
    requires IsBest(occupancy, a) && IsBest(occupancy, b)
    ensures a == b
  {
    assert IsStripe(a) && IsStripe(b);
  }

  /** One row of the query over active networks, with its number of live pods. */
  datatype NetworkRow = NetworkRow(tag: Tag, pods: nat)

  /** Tags are unique and within range, by the table's constraints. */
  ghost predicate RowsOk(rows: seq<NetworkRow>) {
    && (forall i :: 0 <= i < |rows| ==> IsStripe(rows[i].tag))
    && forall i, j :: 0 <= i < j < |rows| ==> rows[i].tag != rows[j].tag
  }

  method PickSharedStripe(policyReady: bool, rows: seq<NetworkRow>) returns (r: Pick, occupancy: map<Tag, nat>)
    requires RowsOk(rows)
    ensures forall i :: 0 <= i < |rows| ==> rows[i].tag in occupancy && occupancy[rows[i].tag] == rows[i].pods
    ensures r == NotReady <==> !policyReady || |rows| != STRIPES
    ensures r.Picked? ==> IsBest(occupancy, r.tag)
    ensures r == Full <==> policyReady && |rows| == STRIPES && forall i :: 0 <= i < |rows| ==> rows[i].pods >= SLOTS
  {
    occupancy := map[];
    var active := {};
    for i := 0 to |rows|
      invariant forall k :: 0 <= k < i ==> rows[k].tag in occupancy && occupancy[rows[k].tag] == rows[k].pods
      invariant forall tag :: tag in active <==> exists k :: 0 <= k < i && rows[k].tag == tag
    {
      occupancy := occupancy[rows[i].tag := rows[i].pods];
      active := active + {rows[i].tag};
    }
    if !policyReady || |rows| != STRIPES {
      return NotReady, occupancy;
    }
    EveryStripeListed(rows);
    forall tag | IsStripe(tag) ensures tag in active {
      var k :| 0 <= k < |rows| && rows[k].tag == tag;
    }
    r := PickStripe(occupancy, active);
  }

  /** Nine different tags between 347 and 355 are all of them. */
  lemma EveryStripeListed(rows: seq<NetworkRow>)
    requires RowsOk(rows) && |rows| == STRIPES
    ensures forall tag :: IsStripe(tag) ==> exists k :: 0 <= k < |rows| && rows[k].tag == tag
  {
    var seen := TagsOf(rows, |rows|);
    var all: set<Tag> := {347, 348, 349, 350, 351, 352, 353, 354, 355};
    DistinctCount(rows, |rows|);
    SubsetSize(seen, all);
    forall tag | IsStripe(tag) ensures exists k :: 0 <= k < |rows| && rows[k].tag == tag {
      assert tag in all;
    }
  }

  function TagsOf(rows: seq<NetworkRow>, n: nat): set<Tag>
    requires n <= |rows|
  {
    set k | 0 <= k < n :: rows[k].tag
  }

  lemma {:induction false} DistinctCount(rows: seq<NetworkRow>, n: nat)
    requires RowsOk(rows) && n <= |rows|
    ensures |TagsOf(rows, n)| == n
  {
    if n > 0 {
      DistinctCount(rows, n - 1);
      assert TagsOf(rows, n) == TagsOf(rows, n - 1) + {rows[n - 1].tag};
      assert rows[n - 1].tag !in TagsOf(rows, n - 1);
    }
  }

  lemma SubsetSize(a: set<Tag>, b: set<Tag>)
    requires a <= b && |a| == |b|
    ensures a == b
  {
    assert |b - a| == |b| - |a|;
  }

  // ---------------------------------------------------------------------------
  // Runs of picks and destructions
  // ---------------------------------------------------------------------------

  /** The shared pods that are not destroyed, with their stripes. */
  type Live = map<PodId, Tag>

  datatype Step = Place(pod: PodId, tag: Tag) | Destroy(pod: PodId)

  ghost function PodsOn(live: Live, tag: Tag): set<PodId> {
    set p | p in live && live[p] == tag
  }

  ghost function Occupancy(live: Live): map<Tag, nat> {
    map tag: Tag | FIRST <= tag <= LAST :: |PodsOn(live, tag)|
  }

  ghost function Apply(live: Live, s: Step): Live {
    match s
    case Place(pod, tag) => live[pod := tag]
    case Destroy(pod) => live - {pod}
  }

  /** A new pod is placed where the pick said, under the assignment lock. */
  ghost predicate Allowed(live: Live, s: Step) {
    s.Place? ==> s.pod !in live && IsBest(Occupancy(live), s.tag)
  }

  ghost function Run(live: Live, steps: seq<Step>): Live
    decreases |steps|
  {
    if steps == [] then live else Run(Apply(live, steps[0]), steps[1..])
  }

  ghost predicate Obeys(live: Live, steps: seq<Step>)
    decreases |steps|
  {
    steps != [] ==> Allowed(live, steps[0]) && Obeys(Apply(live, steps[0]), steps[1..])
  }

  ghost predicate WithinSlots(live: Live) {
    forall tag :: IsStripe(tag) ==> |PodsOn(live, tag)| <= SLOTS
  }

  ghost predicate Balanced(live: Live) {
    forall a, b :: IsStripe(a) && IsStripe(b) ==> |PodsOn(live, a)| <= |PodsOn(live, b)| + 1
  }

  lemma PlaceCounts(live: Live, pod: PodId, tag: Tag, other: Tag)
    requires pod !in live
    ensures |PodsOn(live[pod := tag], other)| == |PodsOn(live, other)| + if other == tag then 1 else 0
  {
    if other == tag {
      assert PodsOn(live[pod := tag], other) == PodsOn(live, other) + {pod};
    } else {
      assert PodsOn(live[pod := tag], other) == PodsOn(live, other);
    }
  }

  lemma DestroyCounts(live: Live, pod: PodId, tag: Tag)
    ensures |PodsOn(live - {pod}, tag)| <= |PodsOn(live, tag)|
  {
    assert PodsOn(live, tag) == PodsOn(live - {pod}, tag) + (PodsOn(live, tag) * {pod});
  }

  /** However picks and destructions interleave, no stripe gets more pods than it has slots. */
  lemma {:induction false} NeverOverfull(live: Live, steps: seq<Step>)
    requires WithinSlots(live) && Obeys(live, steps)
    ensures WithinSlots(Run(live, steps))
    decreases |steps|
  {
    if steps != [] {
      var s := steps[0];
      forall tag | IsStripe(tag) ensures |PodsOn(Apply(live, s), tag)| <= SLOTS {
        if s.Place? {
          PlaceCounts(live, s.pod, s.tag, tag);
        } else {
          DestroyCounts(live, s.pod, tag);
        }
      }
      NeverOverfull(Apply(live, s), steps[1..]);
    }
  }

  /** Picks alone keep the stripes level. */
  lemma {:induction false} PicksStayBalanced(live: Live, steps: seq<Step>)
    requires Balanced(live) && Obeys(live, steps) && forall i :: 0 <= i < |steps| ==> steps[i].Place?
    ensures Balanced(Run(live, steps))
    decreases |steps|
  {
    if steps != [] {
      var s := steps[0];
      forall a, b | IsStripe(a) && IsStripe(b) ensures |PodsOn(Apply(live, s), a)| <= |PodsOn(Apply(live, s), b)| + 1 {
        PlaceCounts(live, s.pod, s.tag, a);
        PlaceCounts(live, s.pod, s.tag, b);
        assert CountAt(Occupancy(live), b) == |PodsOn(live, b)|;
      }
      PicksStayBalanced(Apply(live, s), steps[1..]);
    }
  }

  /** From no pods at all: level within one, and never over the limit. */
  lemma EmptyStaysLevel(steps: seq<Step>)
    requires Obeys(map[], steps) && forall i :: 0 <= i < |steps| ==> steps[i].Place?
    ensures Balanced(Run(map[], steps)) && WithinSlots(Run(map[], steps))
  {
    assert forall tag :: PodsOn(map[], tag) == {};
    PicksStayBalanced(map[], steps);
    NeverOverfull(map[], steps);
  }

  // ---------------------------------------------------------------------------
  // Addresses
  // ---------------------------------------------------------------------------

  /** 10.110.0.0 as a number. */
  const BASE := 10 * 0x1_00_00_00 + 110 * 0x1_00_00
  const BLOCK := 64

  /** Addition on 32 bits. */
  function AddHosts(address: nat, n: nat): nat {
    (address + n) % 0x1_0000_0000
  }

  datatype Stripe = Stripe(tag: Tag, cidr: nat, gateway: nat, dhcpStart: nat, dhcpEnd: nat, runnerFirst: nat, runnerLast: nat)

  function StripeForTag(tag: Tag): Stripe
    requires IsStripe(tag)
  {
    var base := AddHosts(BASE, (tag - FIRST) * 64);
    Stripe(tag, base, AddHosts(base, 1), AddHosts(base, 16), AddHosts(base, 47), AddHosts(base, 2), AddHosts(base, 15))
  }

  predicate InBlock(s: Stripe, address: nat) {
    s.cidr <= address < s.cidr + BLOCK
  }

  /** No address wraps around: the base of a stripe is its place in the block of sixteen bits. */
  lemma StripeBase(tag: Tag)
    requires IsStripe(tag)
    ensures StripeForTag(tag).cidr == BASE + (tag - FIRST) * 64
  {
  }

  /** Gateway, runners and DHCP each have their own addresses, all inside the stripe's block. */
  lemma StripeLayout(tag: Tag)
    requires IsStripe(tag)
    ensures var s := StripeForTag(tag);
            && BASE <= s.cidr && s.cidr + BLOCK <= BASE + 0x1_00_00
            && s.cidr < s.gateway < s.runnerFirst <= s.runnerLast < s.dhcpStart <= s.dhcpEnd < s.cidr + BLOCK - 1
            && s.runnerLast - s.runnerFirst + 1 == 14 && s.dhcpEnd - s.dhcpStart + 1 == 32
  {
    StripeBase(tag);
  }

  /** The blocks of two stripes have no address in common. */
  lemma StripesDisjoint(a: Tag, b: Tag, address: nat)
    requires IsStripe(a) && IsStripe(b) && InBlock(StripeForTag(a), address) && InBlock(StripeForTag(b), address)
    ensures a == b
  {
    StripeBase(a);
    StripeBase(b);
    var x, y := StripeForTag(a).cidr, StripeForTag(b).cidr;
    assert x <= address < x + 64 && y <= address < y + 64;
  }

  method RunnerAddresses(s: Stripe) returns (r: seq<nat>)
    requires s.runnerFirst <= s.runnerLast
    ensures |r| == s.runnerLast - s.runnerFirst + 1
    ensures forall i :: 0 <= i < |r| ==> r[i] == s.runnerFirst + i
  {
    r := [];
    var ip := s.runnerFirst;
    while ip <= s.runnerLast
      invariant s.runnerFirst <= ip <= s.runnerLast + 1 && |r| == ip - s.runnerFirst
      invariant forall i :: 0 <= i < |r| ==> r[i] == s.runnerFirst + i
    {
      r := r + [ip];
      ip := ip + 1;
    }
  }
}
