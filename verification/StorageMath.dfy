/** Storage bounds, growth rates and the quota gate of the tape monitor, over exact arithmetic. */
module StorageMath {
  import opened Prelude
  import opened Sorting

  const HOUR_MS := 3600000
  const BUCKET_MS := 300000
  const MIN_GROWTH_INTERVAL_MS := 45 * 60 * 1000

  // ---------------------------------------------------------------- finalize reserve

  /** The writer's upper bound for a compressed segment. */
  function CompressBound(size: nat): nat { size + size / 8 + 128 }

  /** Bytes one active partial may still add; an empty partial is not finalized. */
  function PartialBound(size: nat, manifestBound: nat): nat {
    if size > 0 then CompressBound(size) + manifestBound else 0
  }

  function Sum(xs: seq<nat>): nat {
    if xs == [] then 0 else Sum(xs[..|xs| - 1]) + xs[|xs| - 1]
  }

  function Reserve(partials: seq<nat>, manifestBound: nat): nat {
    if partials == [] then 0
    else Reserve(partials[..|partials| - 1], manifestBound) + PartialBound(partials[|partials| - 1], manifestBound)
  }

  /** None stands for the ValueError on a negative partial or a bound that is not positive. */
  method DeterministicFinalizeReserve(partials: seq<int>, manifestBound: int) returns (r: Option<nat>)
    ensures r.None? <==> manifestBound <= 0 || exists i :: 0 <= i < |partials| && partials[i] < 0
    ensures r.Some? ==> (forall i :: 0 <= i < |partials| ==> partials[i] >= 0)
    ensures r.Some? ==> forall ps: seq<nat> :: |ps| == |partials| && (forall i :: 0 <= i < |ps| ==> ps[i] == partials[i]) ==>
                          r.value == Reserve(ps, manifestBound)
  {
    if manifestBound <= 0 {
      return None;
    }
    var known: seq<nat>, total := [], 0;
    for i := 0 to |partials|
      invariant |known| == i && forall j :: 0 <= j < i ==> known[j] == partials[j]
      invariant total == Reserve(known, manifestBound)
    {
      if partials[i] < 0 {
        return None;
      }
      ghost var before := known;
      known := known + [partials[i]];
      assert known[..i] == before;
      if partials[i] > 0 {
        total := total + CompressBound(partials[i]) + manifestBound;
      }
    }
    forall ps: seq<nat> | |ps| == |partials| && (forall i :: 0 <= i < |ps| ==> ps[i] == partials[i])
      ensures total == Reserve(ps, manifestBound)
    {
      assert ps == known;
    }
    r := Some(total);
  }

  /** Two partials need at least what one partial with both their bytes needs. */
  lemma BoundIsSuperadditive(a: nat, b: nat, manifestBound: nat)
    ensures PartialBound(a + b, manifestBound) <= PartialBound(a, manifestBound) + PartialBound(b, manifestBound)
  {
  }

  lemma {:induction false} ReserveConcat(a: seq<nat>, b: seq<nat>, manifestBound: nat)
    ensures Reserve(a + b, manifestBound) == Reserve(a, manifestBound) + Reserve(b, manifestBound)
  {
    if b == [] {
      assert a + b == a;
    } else {
      assert (a + b)[..|a + b| - 1] == a + b[..|b| - 1];
      ReserveConcat(a, b[..|b| - 1], manifestBound);
    }
  }

  lemma {:induction false} OnePartialBound(pieces: seq<nat>, manifestBound: nat)
    ensures PartialBound(Sum(pieces), manifestBound) <= Reserve(pieces, manifestBound)
  {
    if pieces != [] {
      OnePartialBound(pieces[..|pieces| - 1], manifestBound);
      BoundIsSuperadditive(Sum(pieces[..|pieces| - 1]), pieces[|pieces| - 1], manifestBound);
    }
  }

  /** Splitting one partial's bytes over any number of partials never lowers the reserve. */
  lemma SplittingNeverLowersReserve(others: seq<nat>, pieces: seq<nat>, manifestBound: nat)
    ensures Reserve(others + [Sum(pieces)], manifestBound) <= Reserve(others + pieces, manifestBound)
  {
    var one := [Sum(pieces)];
    ReserveConcat(others, one, manifestBound);
    ReserveConcat(others, pieces, manifestBound);
    assert one[..0] == [];
    assert Reserve(one, manifestBound) == Reserve(one[..0], manifestBound) + PartialBound(one[0], manifestBound);
    OnePartialBound(pieces, manifestBound);
  }

  // ---------------------------------------------------------------- the quota gate

  datatype GateInputs = GateInputs(quota: int, current: int, rate: real, reserve: int, margin: int,
                                   rootFree: int, rootRate: Option<real>, rootFloor: int, hours: int)

  datatype Gates = Gates(headroom: int, required: real, quotaMet: bool, rootMet: Option<bool>, green: bool)

  predicate Rejects(g: GateInputs) {
    || g.quota < 0 || g.current < 0 || g.reserve < 0 || g.margin < 0 || g.rootFree < 0 || g.rootFloor < 0 || g.hours < 0
    || g.rate < 0.0 || (g.rootRate.Some? && g.rootRate.value < 0.0)
  }

  /** The most that can arrive over the gate hours at the conservative rate. */
  function MostIngested(g: GateInputs): real { g.rate * g.hours as real }

  function ComputeGates(g: GateInputs): Option<Gates> {
    if Rejects(g) then None
    else
      var headroom := if g.quota > g.current then g.quota - g.current else 0;
      var required := MostIngested(g) + g.reserve as real + g.margin as real;
      var met := headroom as real >= required;
      var root := if g.rootRate.None? then None
                  else Some(g.rootFree as real >= g.rootRate.value * g.hours as real + g.rootFloor as real);
      Some(Gates(headroom, required, met, root, met && root == Some(true)))
  }

  /** Additional bytes while each active partial is finalized, each within its bound. */
  ghost predicate WithinBounds(growth: seq<nat>, partials: seq<nat>, manifestBound: nat) {
    |growth| == |partials| && forall i :: 0 <= i < |growth| ==> Finalizes(partials[i], growth[i], manifestBound)
  }

  /** An empty partial adds nothing; any other its own size and an eighth, 128 bytes and a manifest at most. */
  ghost predicate Finalizes(size: nat, added: nat, manifestBound: nat) {
    if size == 0 then added == 0 else 8 * (added - size - 128 - manifestBound) <= size
  }

  lemma FinalizesIff(size: nat, added: nat, manifestBound: nat)
    ensures Finalizes(size, added, manifestBound) <==> added <= PartialBound(size, manifestBound)
  {
  }

  /** No ingestion within the rate and no finalisation within the bounds exceeds the quota less the margin. */
  ghost predicate StaysWithinQuota(g: GateInputs, partials: seq<nat>, manifestBound: nat) {
    forall ingested: real, growth: seq<nat> ::
      0.0 <= ingested <= g.rate * g.hours as real && WithinBounds(growth, partials, manifestBound) ==>
        EndsWithin(g, ingested, growth)
  }

  ghost predicate EndsWithin(g: GateInputs, ingested: real, growth: seq<nat>) {
    g.current as real + ingested + Sum(growth) as real <= g.quota as real - g.margin as real
  }

  lemma {:induction false} GrowthWithinReserve(growth: seq<nat>, partials: seq<nat>, manifestBound: nat)
    requires WithinBounds(growth, partials, manifestBound)
    ensures Sum(growth) <= Reserve(partials, manifestBound)
  {
    if growth != [] {
      FinalizesIff(partials[|partials| - 1], growth[|growth| - 1], manifestBound);
      assert forall i :: 0 <= i < |growth| - 1 ==> Finalizes(partials[i], growth[i], manifestBound);
      hide Finalizes, PartialBound;
      GrowthWithinReserve(growth[..|growth| - 1], partials[..|partials| - 1], manifestBound);
    }
  }

  function WorstGrowth(partials: seq<nat>, manifestBound: nat): seq<nat> {
    seq(|partials|, i requires 0 <= i < |partials| => PartialBound(partials[i], manifestBound))
  }

  lemma {:induction false} WorstGrowthIsReserve(partials: seq<nat>, manifestBound: nat)
    ensures Sum(WorstGrowth(partials, manifestBound)) == Reserve(partials, manifestBound)
  {
    if partials != [] {
      var w, front := WorstGrowth(partials, manifestBound), partials[..|partials| - 1];
      WorstGrowthIsReserve(front, manifestBound);
      assert w[..|w| - 1] == WorstGrowth(front, manifestBound);
    }
  }

  lemma WorstIsWithinBounds(partials: seq<nat>, manifestBound: nat)
    ensures WithinBounds(WorstGrowth(partials, manifestBound), partials, manifestBound)
  {
    forall i | 0 <= i < |partials|
      ensures Finalizes(partials[i], WorstGrowth(partials, manifestBound)[i], manifestBound)
    {
      FinalizesIff(partials[i], WorstGrowth(partials, manifestBound)[i], manifestBound);
    }
  }

  /**
   The capture stays within the quota less the margin, for the gate hours at the conservative rate and
   through finalisation, exactly when the quota gate is met and the quota is not already exceeded.
   */
  lemma QuotaSafeIffGateMet(g: GateInputs, partials: seq<nat>, manifestBound: nat)
    requires !Rejects(g) && g.reserve == Reserve(partials, manifestBound)
    ensures StaysWithinQuota(g, partials, manifestBound) <==> ComputeGates(g).value.quotaMet && g.current <= g.quota
  {
    var most := g.rate * g.hours as real;
    assert most == MostIngested(g) && most >= 0.0;
    hide MostIngested, WithinBounds, Reserve;
    WorstGrowthIsReserve(partials, manifestBound);
    var worst := WorstGrowth(partials, manifestBound);
    WorstIsWithinBounds(partials, manifestBound);
    if StaysWithinQuota(g, partials, manifestBound) {
      assert EndsWithin(g, most, worst);
    }
    if ComputeGates(g).value.quotaMet && g.current <= g.quota {
      forall ingested: real, growth: seq<nat> | 0.0 <= ingested <= most && WithinBounds(growth, partials, manifestBound)
        ensures EndsWithin(g, ingested, growth)
      {
        GrowthWithinReserve(growth, partials, manifestBound);
      }
    }
  }

  /** Growth of the root filesystem within its rate, over the gate hours, leaves the emergency floor free. */
  ghost predicate RootStaysAboveFloor(g: GateInputs) {
    g.rootRate.Some? && forall used: real :: 0.0 <= used <= g.rootRate.value * g.hours as real ==> LeavesFloor(g, used)
  }

  ghost predicate LeavesFloor(g: GateInputs, used: real) { g.rootFree as real - used >= g.rootFloor as real }

  /** The inputs are refused exactly when one of them is negative. */
  lemma RejectsIff(g: GateInputs)
    ensures ComputeGates(g).None? <==>
            || (exists n :: n in [g.quota, g.current, g.reserve, g.margin, g.rootFree, g.rootFloor, g.hours] && n < 0)
            || g.rate < 0.0 || (g.rootRate.Some? && g.rootRate.value < 0.0)
  {
    var list := [g.quota, g.current, g.reserve, g.margin, g.rootFree, g.rootFloor, g.hours];
    assert list[0] in list && list[1] in list && list[2] in list && list[3] in list && list[4] in list && list[5] in list && list[6] in list;
  }

  /** The root gate answers only when a root rate is known, and then it is met exactly when the floor stays free. */
  lemma RootSafeIffGateMet(g: GateInputs)
    requires ComputeGates(g).Some?
    ensures ComputeGates(g).value.rootMet.Some? <==> g.rootRate.Some?
    ensures ComputeGates(g).value.rootMet == Some(true) <==> RootStaysAboveFloor(g)
  {
    if g.rootRate.Some? {
      var most := g.rootRate.value * g.hours as real;
      assert most >= 0.0;
      if RootStaysAboveFloor(g) {
        assert LeavesFloor(g, most);
      }
    }
  }

  /**
   GREEN for a capture within its quota means exactly that nothing within the rates and the bounds can break
   either limit: the quota less the margin, and the emergency floor of the root filesystem.
   */
  lemma GreenIffSafe(g: GateInputs, partials: seq<nat>, manifestBound: nat)
    requires !Rejects(g) && g.reserve == Reserve(partials, manifestBound)
    ensures ComputeGates(g).value.green && g.current <= g.quota <==>
            StaysWithinQuota(g, partials, manifestBound) && RootStaysAboveFloor(g)
    ensures ComputeGates(g).value.headroom >= 0
    ensures if g.current <= g.quota then g.current + ComputeGates(g).value.headroom == g.quota else ComputeGates(g).value.headroom == 0
  {
    QuotaSafeIffGateMet(g, partials, manifestBound);
    RootSafeIffGateMet(g);
    hide StaysWithinQuota, RootStaysAboveFloor, Reserve, MostIngested;
  }

  /** Over quota with nothing required, the clamped headroom lets the gate report itself met. */
  lemma GateMetOverQuota()
    ensures var g := GateInputs(10, 11, 0.0, 0, 0, 0, None, 0, 48);
            && ComputeGates(g).Some? && ComputeGates(g).value.quotaMet
            && !StaysWithinQuota(g, [], 65536)
  {
    var g := GateInputs(10, 11, 0.0, 0, 0, 0, None, 0, 48);
    QuotaSafeIffGateMet(g, [], 65536);
  }

  // ---------------------------------------------------------------- conservative growth rate

  datatype GrowthSample = GrowthSample(captured: int, bytes: int, surface: string)

  function CapturedOf(s: GrowthSample): int { s.captured }

  /** b is a trustworthy later measurement of a's surface. */
  predicate Eligible(a: GrowthSample, b: GrowthSample) {
    a.surface == b.surface && b.captured - a.captured >= MIN_GROWTH_INTERVAL_MS
  }

  function GrowthRate(a: GrowthSample, b: GrowthSample): real
    requires Eligible(a, b)
  {
    (if b.bytes > a.bytes then b.bytes - a.bytes else 0) as real * HOUR_MS as real / (b.captured - a.captured) as real
  }

  /** Eligible pairs share a surface and lie 45 minutes apart; the rate is the hourly growth, never negative. */
  lemma GrowthRateMeans(a: GrowthSample, b: GrowthSample)
    ensures Eligible(a, b) <==> a.surface == b.surface && a.captured + 2700000 <= b.captured
    ensures Eligible(a, b) ==> var growth := (b.bytes - a.bytes) as real;
            GrowthRate(a, b) * (b.captured - a.captured) as real == (if growth > 0.0 then growth else 0.0) * 3600000.0
  {
  }

  /** r is the greatest rate over all eligible pairs, None when there is no such pair. */
  ghost predicate IsMaxRate(samples: seq<GrowthSample>, r: Option<real>) {
    && (forall a, b :: a in samples && b in samples && Eligible(a, b) ==> r.Some? && GrowthRate(a, b) <= r.value)
    && (r.Some? ==> exists a, b :: a in samples && b in samples && Eligible(a, b) && GrowthRate(a, b) == r.value)
  }

  /** The result does not depend on the order or the repetition of the samples. */
  lemma MaxRateIsOrderFree(a: seq<GrowthSample>, b: seq<GrowthSample>, ra: Option<real>, rb: Option<real>)
    requires IsMaxRate(a, ra) && IsMaxRate(b, rb) && forall x :: x in a <==> x in b
    ensures ra == rb
  {
    MaxRateNeverFalls(a, b, ra, rb);
    MaxRateNeverFalls(b, a, rb, ra);
  }

  /** Adding samples never lowers the rate. */
  lemma MaxRateNeverFalls(a: seq<GrowthSample>, b: seq<GrowthSample>, ra: Option<real>, rb: Option<real>)
    requires IsMaxRate(a, ra) && IsMaxRate(b, rb) && forall x :: x in a ==> x in b
    ensures ra.Some? ==> rb.Some? && ra.value <= rb.value
  {
    if ra.Some? {
      var x, y :| x in a && y in a && Eligible(x, y) && GrowthRate(x, y) == ra.value;
      assert x in b && y in b;
    }
  }

  /** Best rate among pairs whose first sample is before i, or is i with a second one before j. */
  ghost predicate BestSoFar(s: seq<GrowthSample>, i: nat, j: nat, r: Option<real>) {
    && (forall p, q :: 0 <= p < q < |s| && (p < i || (p == i && q < j)) && Eligible(s[p], s[q]) ==>
          r.Some? && GrowthRate(s[p], s[q]) <= r.value)
    && (r.Some? ==> exists p, q :: 0 <= p < q < |s| && Eligible(s[p], s[q]) && GrowthRate(s[p], s[q]) == r.value)
  }

  lemma BestCovers(s: seq<GrowthSample>, r: Option<real>, a: GrowthSample, b: GrowthSample)
    requires SortedBy(s, CapturedOf) && BestSoFar(s, |s|, 0, r) && a in s && b in s && Eligible(a, b)
    ensures r.Some? && GrowthRate(a, b) <= r.value
  {
    hide GrowthRate;
    assert a.captured < b.captured;
    hide Eligible;
    assert forall i, j :: 0 <= i < j < |s| ==> CapturedOf(s[i]) <= CapturedOf(s[j]);
    var p :| 0 <= p < |s| && s[p] == a;
    var q :| 0 <= q < |s| && s[q] == b;
    assert CapturedOf(s[p]) < CapturedOf(s[q]);
  }

  lemma BestIsMax(samples: seq<GrowthSample>, s: seq<GrowthSample>, r: Option<real>)
    requires s == SortBy(samples, CapturedOf) && BestSoFar(s, |s|, 0, r)
    ensures IsMaxRate(samples, r)
  {
    hide GrowthRate, SortBy, Eligible;
    SortBySorts(samples, CapturedOf);
    forall x
      ensures x in s <==> x in samples
    {
      SortByKeepsMembers(samples, CapturedOf, x);
    }
    forall a, b | a in samples && b in samples && Eligible(a, b)
      ensures r.Some? && GrowthRate(a, b) <= r.value
    {
      BestCovers(s, r, a, b);
    }
    hide SortedBy;
    if r.Some? {
      var p, q :| 0 <= p < q < |s| && Eligible(s[p], s[q]) && GrowthRate(s[p], s[q]) == r.value;
      assert s[p] in s && s[q] in s;
    }
  }

  /** The greatest rate over every same-surface pair at least 45 minutes apart. */
  method ConservativeGrowthRate(samples: seq<GrowthSample>) returns (best: Option<real>)
    ensures IsMaxRate(samples, best)
  {
    hide GrowthRate, Eligible, SortBy, IsMaxRate;
    var ordered := SortBy(samples, CapturedOf);
    best := None;
    for i := 0 to |ordered|
      invariant BestSoFar(ordered, i, 0, best)
    {
      for j := i + 1 to |ordered|
        invariant BestSoFar(ordered, i, j, best)
      {
        if Eligible(ordered[i], ordered[j]) {
          var rate := GrowthRate(ordered[i], ordered[j]);
          if best.None? || rate > best.value {
            best := Some(rate);
          }
        }
      }
    }
    BestIsMax(samples, ordered, best);
  }

  // ---------------------------------------------------------------- nearest-rank p95

  function Identity(x: int): int { x }

  function AtMost(values: seq<int>, v: int): nat {
    if values == [] then 0 else AtMost(values[..|values| - 1], v) + if values[|values| - 1] <= v then 1 else 0
  }

  /** v is the smallest listed value that at least 95 percent of the values do not exceed. */
  ghost predicate IsNearestRank95(values: seq<int>, v: int) {
    && v in values
    && 100 * AtMost(values, v) >= 95 * |values|
    && forall u :: u in values && u < v ==> 100 * AtMost(values, u) < 95 * |values|
  }

  function NearestRankP95(values: seq<int>): Option<int> {
    if |values| < 3 then None
    else
      var ordered, rank := SortBy(values, Identity), (95 * |values| + 99) / 100;
      if rank - 1 < |ordered| then Some(ordered[rank - 1]) else None
  }

  lemma {:induction false} AtMostConcat(a: seq<int>, b: seq<int>, v: int)
    ensures AtMost(a + b, v) == AtMost(a, v) + AtMost(b, v)
  {
    if b == [] {
      assert a + b == a;
    } else {
      assert (a + b)[..|a + b| - 1] == a + b[..|b| - 1];
      AtMostConcat(a, b[..|b| - 1], v);
    }
  }

  lemma {:induction false} AtMostOfInsert(s: seq<int>, x: int, v: int)
    ensures AtMost(InsertBy(s, x, Identity), v) == AtMost(s, v) + if x <= v then 1 else 0
  {
    if s != [] && Identity(s[|s| - 1]) > Identity(x) {
      var front, last := s[..|s| - 1], s[|s| - 1];
      AtMostOfInsert(front, x, v);
      AtMostConcat(InsertBy(front, x, Identity), [last], v);
      AtMostConcat(front, [last], v);
      assert s == front + [last];
    } else {
      AtMostConcat(s, [x], v);
    }
  }

  lemma {:induction false} AtMostOfSort(s: seq<int>, v: int)
    ensures AtMost(SortBy(s, Identity), v) == AtMost(s, v)
  {
    if s != [] {
      AtMostOfSort(s[..|s| - 1], v);
      AtMostOfInsert(SortBy(s[..|s| - 1], Identity), s[|s| - 1], v);
    }
  }

  /** In a sorted list at least the first k + 1 values do not exceed the one at k; fewer for a smaller bound. */
  lemma {:induction false} RankOfSorted(s: seq<int>, k: nat, u: int)
    requires SortedBy(s, Identity) && k < |s|
    ensures AtMost(s, s[k]) >= k + 1
    ensures u < s[k] ==> AtMost(s, u) <= k
  {
    var front, last := s[..|s| - 1], s[|s| - 1];
    if k < |front| {
      RankOfSorted(front, k, u);
      assert Identity(s[k]) <= Identity(last);
    } else {
      AllAtMost(front, s[k]);
      AtMostLength(front, u);
    }
  }

  lemma {:induction false} AllAtMost(s: seq<int>, v: int)
    requires forall i :: 0 <= i < |s| ==> Identity(s[i]) <= Identity(v)
    ensures AtMost(s, v) == |s|
  {
    if s != [] {
      assert Identity(s[|s| - 1]) <= Identity(v);
      AllAtMost(s[..|s| - 1], v);
    }
  }

  lemma {:induction false} AtMostLength(s: seq<int>, v: int)
    ensures AtMost(s, v) <= |s|
  {
    if s != [] {
      AtMostLength(s[..|s| - 1], v);
    }
  }

  lemma RankBounds(n: nat)
    requires n >= 1
    ensures var k := (95 * n + 99) / 100 - 1; 0 <= k < n && 100 * k < 95 * n <= 100 * (k + 1)
  {
  }

  /** The value at position k of the sorted list is the nearest rank when k is the first position past 95 percent. */
  lemma RankedIsNearest(values: seq<int>, k: nat)
    requires k < |SortBy(values, Identity)| && 100 * k < 95 * |values| <= 100 * (k + 1)
    ensures IsNearestRank95(values, SortBy(values, Identity)[k])
  {
    var s := SortBy(values, Identity);
    SortBySorts(values, Identity);
    hide SortBy, AtMost;
    var v := s[k];
    SortByKeepsMembers(values, Identity, v);
    AtMostOfSort(values, v);
    RankOfSorted(s, k, v);
    forall u | u in values && u < v
      ensures 100 * AtMost(values, u) < 95 * |values|
    {
      AtMostOfSort(values, u);
      RankOfSorted(s, k, u);
    }
  }

  /** The p95 is the true nearest rank, for every list of at least three values. */
  lemma P95IsNearestRank(values: seq<int>)
    requires |values| >= 3
    ensures NearestRankP95(values).Some? && IsNearestRank95(values, NearestRankP95(values).value)
  {
    hide SortBy, IsNearestRank95;
    SortBySorts(values, Identity);
    RankBounds(|values|);
    RankedIsNearest(values, (95 * |values| + 99) / 100 - 1);
  }

  // ---------------------------------------------------------------- tape rates

  datatype Segment = Segment(bucket: int, received: int, compressed: nat, manifest: nat, healthy: bool) {
    function Retained(): nat { compressed + manifest }
  }

  function Buckets(segments: seq<Segment>): seq<int> {
    seq(|segments|, i requires 0 <= i < |segments| => segments[i].bucket)
  }

  /** Retained bytes of the segments whose bucket lies in a closed range. */
  function BytesBetween(segments: seq<Segment>, lo: int, hi: int): nat {
    if segments == [] then 0
    else
      var last := segments[|segments| - 1];
      BytesBetween(segments[..|segments| - 1], lo, hi) + if lo <= last.bucket <= hi then last.compressed + last.manifest else 0
  }

  /** The per-bucket totals of the listed buckets that lie in the range, added up. */
  function KeySum(keys: seq<int>, segments: seq<Segment>, lo: int, hi: int): nat {
    if keys == [] then 0
    else
      var key := keys[|keys| - 1];
      KeySum(keys[..|keys| - 1], segments, lo, hi) + if lo <= key <= hi then BytesBetween(segments, key, key) else 0
  }

  lemma {:induction false} KeySumStep(keys: seq<int>, front: seq<Segment>, last: Segment, lo: int, hi: int)
    requires Distinct(keys)
    ensures KeySum(keys, front + [last], lo, hi)
         == KeySum(keys, front, lo, hi) + if last.bucket in keys && lo <= last.bucket <= hi then last.Retained() else 0
  {
    if keys != [] {
      var head, key := keys[..|keys| - 1], keys[|keys| - 1];
      assert keys == head + [key] && key !in head;
      KeySumStep(head, front, last, lo, hi);
      assert (front + [last])[..|front|] == front;
    }
  }

  /** Adding up a dictionary of bucket totals over a range is adding up the segments of the range. */
  lemma {:induction false} KeySumIsBytes(keys: seq<int>, segments: seq<Segment>, lo: int, hi: int)
    requires Distinct(keys) && forall i :: 0 <= i < |segments| ==> segments[i].bucket in keys
    ensures KeySum(keys, segments, lo, hi) == BytesBetween(segments, lo, hi)
  {
    if segments == [] {
      EmptyKeySum(keys, lo, hi);
    } else {
      var front, last := segments[..|segments| - 1], segments[|segments| - 1];
      KeySumIsBytes(keys, front, lo, hi);
      KeySumStep(keys, front, last, lo, hi);
      assert front + [last] == segments;
    }
  }

  lemma {:induction false} EmptyKeySum(keys: seq<int>, lo: int, hi: int)
    ensures KeySum(keys, [], lo, hi) == 0
  {
    if keys != [] {
      EmptyKeySum(keys[..|keys| - 1], lo, hi);
    }
  }

  /** All twelve five-minute buckets of the hour that ends with this one are present. */
  predicate CompleteHour(buckets: seq<int>, terminal: int) {
    forall k :: 0 <= k < 12 ==> terminal - k * BUCKET_MS in buckets
  }

  /** The hourly totals of the complete windows, one per terminal bucket in time order. */
  function WindowTotals(keys: seq<int>, segments: seq<Segment>): seq<int> {
    Windows(SortBy(keys, Identity), keys, segments)
  }

  function Windows(terminals: seq<int>, keys: seq<int>, segments: seq<Segment>): seq<int> {
    if terminals == [] then []
    else
      var t := terminals[|terminals| - 1];
      Windows(terminals[..|terminals| - 1], keys, segments) +
      if CompleteHour(keys, t) then [KeySum(keys, segments, t - (HOUR_MS - BUCKET_MS), t)] else []
  }

  /** The terminals whose hour is complete, in order. */
  function CompleteHours(terminals: seq<int>, keys: seq<int>): seq<int> {
    if terminals == [] then []
    else
      var t := terminals[|terminals| - 1];
      CompleteHours(terminals[..|terminals| - 1], keys) + if CompleteHour(keys, t) then [t] else []
  }

  /** One total per hour, each the bytes of the segments of that hour. */
  ghost predicate TotalsOf(totals: seq<int>, hours: seq<int>, segments: seq<Segment>) {
    && |totals| == |hours|
    && forall i :: 0 <= i < |hours| ==> totals[i] == BytesBetween(segments, hours[i] - 3300000, hours[i])
  }

  /** Exactly the complete hours of the segments, each once and in time order. */
  ghost predicate AllCompleteHours(hours: seq<int>, segments: seq<Segment>) {
    && (forall i, j :: 0 <= i < j < |hours| ==> hours[i] < hours[j])
    && (forall t :: t in hours <==> TwelveBuckets(segments, t))
  }

  /** Some segment lies in each of the twelve five-minute buckets that end with t. */
  ghost predicate TwelveBuckets(segments: seq<Segment>, t: int) {
    forall k :: 0 <= k < 12 ==> exists i :: 0 <= i < |segments| && segments[i].bucket == t - k * 300000
  }

  lemma TwelveBucketsIff(segments: seq<Segment>, t: int)
    ensures TwelveBuckets(segments, t) <==> t in Buckets(segments) && CompleteHour(Buckets(segments), t)
  {
    var b := Buckets(segments);
    forall x
      ensures x in b <==> exists i :: 0 <= i < |segments| && segments[i].bucket == x
    {
      if i :| 0 <= i < |segments| && segments[i].bucket == x {
        assert b[i] == x;
      }
    }
    hide Buckets;
    if TwelveBuckets(segments, t) {
      assert t - 0 * 300000 in b;
    }
  }

  /** The window totals are those of the complete hours, one for each. */
  lemma {:induction false} WindowsAreCompleteHours(terminals: seq<int>, keys: seq<int>, segments: seq<Segment>)
    requires Distinct(keys) && forall i :: 0 <= i < |segments| ==> segments[i].bucket in keys
    ensures TotalsOf(Windows(terminals, keys, segments), CompleteHours(terminals, keys), segments)
  {
    if terminals != [] {
      var front, t := terminals[..|terminals| - 1], terminals[|terminals| - 1];
      WindowsAreCompleteHours(front, keys, segments);
      KeySumIsBytes(keys, segments, t - (HOUR_MS - BUCKET_MS), t);
      hide KeySum, BytesBetween, CompleteHour;
    }
  }

  lemma {:induction false} CompleteHoursIncrease(terminals: seq<int>, keys: seq<int>)
    requires forall i, j :: 0 <= i < j < |terminals| ==> terminals[i] < terminals[j]
    ensures var hours := CompleteHours(terminals, keys);
            && (forall i, j :: 0 <= i < j < |hours| ==> hours[i] < hours[j])
            && forall t :: t in hours <==> t in terminals && CompleteHour(keys, t)
  {
    hide CompleteHour;
    if terminals != [] {
      var front, t := terminals[..|terminals| - 1], terminals[|terminals| - 1];
      assert terminals == front + [t];
      CompleteHoursIncrease(front, keys);
      var before, hours := CompleteHours(front, keys), CompleteHours(terminals, keys);
      assert hours == before || hours == before + [t];
      hide CompleteHours;
      forall i | 0 <= i < |before|
        ensures before[i] < t
      {
        assert before[i] in before && before[i] in front;
      }
    }
  }

  lemma DistinctSortIncreases(keys: seq<int>)
    requires Distinct(keys)
    ensures var s := SortBy(keys, Identity);
            && (forall i, j :: 0 <= i < j < |s| ==> s[i] < s[j])
            && forall t :: t in s <==> t in keys
  {
    var s := SortBy(keys, Identity);
    SortBySorts(keys, Identity);
    forall t
      ensures t in s <==> t in keys
    {
      SortByKeepsMembers(keys, Identity, t);
    }
    forall i, j | 0 <= i < j < |s|
      ensures s[i] < s[j]
    {
      assert Identity(s[i]) <= Identity(s[j]);
      if s[i] == s[j] {
        TwiceInMultiset(s, i, j);
        OnceInMultiset(keys, s[i]);
        assert false;
      }
    }
  }

  lemma TwiceInMultiset(s: seq<int>, i: nat, j: nat)
    requires i < j < |s| && s[i] == s[j]
    ensures multiset(s)[s[i]] >= 2
  {
    assert s == s[..j] + [s[j]] + s[j + 1..];
    assert s[i] in s[..j];
  }

  lemma {:induction false} OnceInMultiset(s: seq<int>, x: int)
    requires Distinct(s)
    ensures multiset(s)[x] <= 1
  {
    if s != [] {
      var front, last := s[..|s| - 1], s[|s| - 1];
      OnceInMultiset(front, x);
      assert s == front + [last] && last !in front;
    }
  }

  /** Over the buckets of the segments themselves: one window for each complete hour. */
  lemma WindowTotalsAreComplete(segments: seq<Segment>)
    ensures var keys := FirstOccurrences(Buckets(segments));
            exists hours :: AllCompleteHours(hours, segments) && TotalsOf(WindowTotals(keys, segments), hours, segments)
  {
    var buckets := Buckets(segments);
    var keys := FirstOccurrences(buckets);
    forall i | 0 <= i < |segments|
      ensures segments[i].bucket in keys
    {
      assert buckets[i] == segments[i].bucket;
    }
    hide FirstOccurrences, Buckets, SortBy, CompleteHour, CompleteHours, Windows, TotalsOf, Distinct;
    var terminals := SortBy(keys, Identity);
    DistinctSortIncreases(keys);
    WindowsAreCompleteHours(terminals, keys, segments);
    HoursOfKeys(terminals, keys, segments);
    assert WindowTotals(keys, segments) == Windows(terminals, keys, segments);
  }

  lemma HoursOfKeys(terminals: seq<int>, keys: seq<int>, segments: seq<Segment>)
    requires forall i, j :: 0 <= i < j < |terminals| ==> terminals[i] < terminals[j]
    requires forall t :: t in terminals <==> t in keys
    requires forall t :: t in keys <==> t in Buckets(segments)
    ensures AllCompleteHours(CompleteHours(terminals, keys), segments)
  {
    hide Buckets, CompleteHour, CompleteHours, TwelveBuckets;
    CompleteHoursIncrease(terminals, keys);
    forall t
      ensures t in keys && CompleteHour(keys, t) <==> TwelveBuckets(segments, t)
    {
      SameHours(keys, Buckets(segments), t);
      TwelveBucketsIff(segments, t);
    }
  }

  lemma SameHours(a: seq<int>, b: seq<int>, t: int)
    requires forall x :: x in a <==> x in b
    ensures CompleteHour(a, t) <==> CompleteHour(b, t)
  {
  }

  datatype Rates = Rates(whole: Option<real>, recent: Option<real>, healthy: Option<real>, p95: Option<real>,
                         conservative: Option<real>)

  function Rate(bytes: nat, elapsed: int): Option<real> {
    if elapsed <= 0 then None else Some(bytes as real * HOUR_MS as real / elapsed as real)
  }

  function Retained(segments: seq<Segment>, since: int, onlyHealthy: bool): nat {
    if segments == [] then 0
    else
      var s := segments[|segments| - 1];
      Retained(segments[..|segments| - 1], since, onlyHealthy) +
      if s.received >= since && (s.healthy || !onlyHealthy) then s.Retained() else 0
  }

  function AllRetained(segments: seq<Segment>): nat {
    if segments == [] then 0 else AllRetained(segments[..|segments| - 1]) + segments[|segments| - 1].Retained()
  }

  datatype ActivePartial = ActivePartial(bucket: int, size: int)

  predicate Sizes(partials: seq<ActivePartial>) {
    forall i :: 0 <= i < |partials| ==> partials[i].size >= 0
  }

  function PartialBytes(partials: seq<ActivePartial>, since: Option<int>): nat
    requires Sizes(partials)
  {
    if partials == [] then 0
    else
      var p := partials[|partials| - 1];
      PartialBytes(partials[..|partials| - 1], since) +
      if since.None? || p.bucket + BUCKET_MS >= since.value then p.size else 0
  }

  /** The greater of two optional rates, ignoring missing and zero ones. */
  function Greater(a: Option<real>, b: Option<real>): Option<real> {
    if b.None? || b.value <= 0.0 then a
    else if a.None? || a.value < b.value then b
    else a
  }

  /** None stands for the ValueError of a capture that does not follow the activation, or of a negative partial. */
  function ComputeTapeRates(activation: int, captured: int, segments: seq<Segment>, partials: seq<ActivePartial>): Option<Rates> {
    var elapsed := captured - activation;
    if elapsed <= 0 || !Sizes(partials) then None
    else
      var window := if elapsed < HOUR_MS then elapsed else HOUR_MS;
      var since := captured - window;
      var open := PartialBytes(partials, Some(since));
      var whole := Rate(AllRetained(segments) + PartialBytes(partials, None), elapsed);
      var recent := Rate(Retained(segments, since, false) + open, window);
      var healthy := Rate(Retained(segments, since, true) + open, window);
      var p := NearestRankP95(WindowTotals(FirstOccurrences(Buckets(segments)), segments));
      var p95 := if p.None? then None else Some(p.value as real);
      Some(Rates(whole, recent, healthy, p95, Greater(Greater(Greater(Greater(None, whole), recent), healthy), p95)))
  }

  /**
   The conservative rate is one of the candidates and at least each of them, and missing only when
   none is positive; the p95 candidate is the true nearest rank over the totals of complete hours.
   */
  lemma ConservativeRateCoversCandidates(activation: int, captured: int, segments: seq<Segment>, partials: seq<ActivePartial>)
    ensures ComputeTapeRates(activation, captured, segments, partials).Some? <==> captured > activation && Sizes(partials)
    ensures ComputeTapeRates(activation, captured, segments, partials).Some? ==>
            var r := ComputeTapeRates(activation, captured, segments, partials).value;
            var candidates := {r.whole, r.recent, r.healthy, r.p95};
            && (forall c :: c in candidates && c.Some? && c.value > 0.0 ==> r.conservative.Some? && c.value <= r.conservative.value)
            && (r.conservative.Some? ==> r.conservative in candidates && r.conservative.value > 0.0)
  {
    hide NearestRankP95, WindowTotals, Retained, AllRetained, PartialBytes, Rate;
    if captured > activation && Sizes(partials) {
      var r := ComputeTapeRates(activation, captured, segments, partials).value;
      GreaterCovers(None, r.whole);
      var a := Greater(None, r.whole);
      GreaterCovers(a, r.recent);
      var b := Greater(a, r.recent);
      GreaterCovers(b, r.healthy);
      GreaterCovers(Greater(b, r.healthy), r.p95);
    }
  }

  lemma GreaterCovers(a: Option<real>, b: Option<real>)
    ensures var g := Greater(a, b);
            && (a.Some? ==> g.Some? && a.value <= g.value)
            && (b.Some? && b.value > 0.0 ==> g.Some? && b.value <= g.value)
            && (g == a || (g == b && b.value > 0.0))
  {
  }

  /** The weights of the segments, added up. */
  function Weigh(segments: seq<Segment>, weight: Segment -> nat): nat {
    if segments == [] then 0 else weight(segments[0]) + Weigh(segments[1..], weight)
  }

  function WeighOpen(partials: seq<ActivePartial>, weight: ActivePartial -> nat): nat {
    if partials == [] then 0 else weight(partials[0]) + WeighOpen(partials[1..], weight)
  }

  lemma {:induction false} WeighConcat(a: seq<Segment>, b: seq<Segment>, weight: Segment -> nat)
    ensures Weigh(a + b, weight) == Weigh(a, weight) + Weigh(b, weight)
  {
    if a == [] {
      assert a + b == b;
    } else {
      assert (a + b)[1..] == a[1..] + b;
      WeighConcat(a[1..], b, weight);
    }
  }

  lemma {:induction false} WeighOpenConcat(a: seq<ActivePartial>, b: seq<ActivePartial>, weight: ActivePartial -> nat)
    ensures WeighOpen(a + b, weight) == WeighOpen(a, weight) + WeighOpen(b, weight)
  {
    if a == [] {
      assert a + b == b;
    } else {
      assert (a + b)[1..] == a[1..] + b;
      WeighOpenConcat(a[1..], b, weight);
    }
  }

  /** What a segment weighs in a rate: its bytes if received since then, and healthy when only such count. */
  ghost function SegmentWeight(since: Option<int>, onlyHealthy: bool): Segment -> nat {
    (s: Segment) => if (since.Some? && s.received < since.value) || (onlyHealthy && !s.healthy) then 0 else s.compressed + s.manifest
  }

  /** What an open partial weighs: its size, unless its bucket closed before then. */
  ghost function PartialWeight(since: Option<int>): ActivePartial -> nat {
    (p: ActivePartial) => if p.size < 0 || (since.Some? && p.bucket + 300000 < since.value) then 0 else p.size
  }

  lemma {:induction false} RetainedWeighs(segments: seq<Segment>, since: int, onlyHealthy: bool)
    ensures Retained(segments, since, onlyHealthy) == Weigh(segments, SegmentWeight(Some(since), onlyHealthy))
  {
    if segments != [] {
      var front, last := segments[..|segments| - 1], segments[|segments| - 1];
      assert segments == front + [last];
      RetainedWeighs(front, since, onlyHealthy);
      WeighConcat(front, [last], SegmentWeight(Some(since), onlyHealthy));
    }
  }

  lemma {:induction false} AllRetainedWeighs(segments: seq<Segment>)
    ensures AllRetained(segments) == Weigh(segments, SegmentWeight(None, false))
  {
    if segments != [] {
      var front, last := segments[..|segments| - 1], segments[|segments| - 1];
      assert segments == front + [last];
      AllRetainedWeighs(front);
      WeighConcat(front, [last], SegmentWeight(None, false));
    }
  }

  lemma {:induction false} PartialsWeigh(partials: seq<ActivePartial>, since: Option<int>)
    requires Sizes(partials)
    ensures PartialBytes(partials, since) == WeighOpen(partials, PartialWeight(since))
  {
    if partials != [] {
      var front, last := partials[..|partials| - 1], partials[|partials| - 1];
      assert partials == front + [last];
      PartialsWeigh(front, since);
      WeighOpenConcat(front, [last], PartialWeight(since));
    }
  }

  /** The rate is the hourly share of these bytes over that time. */
  ghost predicate Measures(rate: Option<real>, bytes: nat, elapsed: int) {
    rate.Some? && rate.value * elapsed as real == bytes as real * 3600000.0
  }

  /**
   What the three byte rates measure: all bytes since activation per hour, and the bytes of the last hour,
   or of the time since activation if shorter, per hour, with and without unhealthy segments.
   */
  lemma RatesMeasure(activation: int, captured: int, segments: seq<Segment>, partials: seq<ActivePartial>)
    requires captured > activation && Sizes(partials)
    ensures var r := ComputeTapeRates(activation, captured, segments, partials).value;
            var since := if activation > captured - 3600000 then activation else captured - 3600000;
            var open := WeighOpen(partials, PartialWeight(Some(since)));
            && Measures(r.whole, Weigh(segments, SegmentWeight(None, false)) + WeighOpen(partials, PartialWeight(None)), captured - activation)
            && Measures(r.recent, Weigh(segments, SegmentWeight(Some(since), false)) + open, captured - since)
            && Measures(r.healthy, Weigh(segments, SegmentWeight(Some(since), true)) + open, captured - since)
  {
    hide Retained, AllRetained, PartialBytes, Rate, Weigh, WeighOpen, NearestRankP95, WindowTotals, Greater, Measures;
    var since := if activation > captured - 3600000 then activation else captured - 3600000;
    AllRetainedWeighs(segments);
    RetainedWeighs(segments, since, false);
    RetainedWeighs(segments, since, true);
    PartialsWeigh(partials, None);
    PartialsWeigh(partials, Some(since));
    RateMeasures(AllRetained(segments) + PartialBytes(partials, None), captured - activation);
    RateMeasures(Retained(segments, since, false) + PartialBytes(partials, Some(since)), captured - since);
    RateMeasures(Retained(segments, since, true) + PartialBytes(partials, Some(since)), captured - since);
  }

  lemma RateMeasures(bytes: nat, elapsed: int)
    requires elapsed > 0
    ensures Measures(Rate(bytes, elapsed), bytes, elapsed)
  {
  }

  /**
   The p95 candidate is present exactly when the segments have at least three complete hours, and is the
   nearest rank over their byte totals, one total for each complete hour.
   */
  lemma TapeP95IsNearestRank(activation: int, captured: int, segments: seq<Segment>, partials: seq<ActivePartial>)
    requires captured > activation && Sizes(partials)
    ensures var p95 := ComputeTapeRates(activation, captured, segments, partials).value.p95;
            exists hours, totals :: AllCompleteHours(hours, segments) && TotalsOf(totals, hours, segments) && IsP95(p95, totals)
  {
    hide Retained, AllRetained, PartialBytes, Rate, Greater, IsNearestRank95, AllCompleteHours, TotalsOf, WindowTotals;
    var totals := WindowTotals(FirstOccurrences(Buckets(segments)), segments);
    WindowTotalsAreComplete(segments);
    if |totals| >= 3 {
      P95IsNearestRank(totals);
    }
    assert IsP95(ComputeTapeRates(activation, captured, segments, partials).value.p95, totals);
  }

  /** Present for three or more values, and then their nearest rank. */
  ghost predicate IsP95(p95: Option<real>, values: seq<int>) {
    && (p95.Some? <==> |values| >= 3)
    && (p95.Some? ==> exists v :: p95.value == v as real && IsNearestRank95(values, v))
  }

  /** The loops over buckets: a dictionary of totals, then one sum for each complete hour. */
  method HourlyTotals(segments: seq<Segment>) returns (windows: seq<int>)
    ensures exists hours :: AllCompleteHours(hours, segments) && TotalsOf(windows, hours, segments)
  {
    hide BytesBetween, KeySum, CompleteHour, AllCompleteHours, TotalsOf, FirstOccurrences, Buckets, SortBy;
    var keys, retained := BucketTotals(segments);
    var terminals := SortBy(keys, Identity);
    windows := [];
    for i := 0 to |terminals|
      invariant windows == Windows(terminals[..i], keys, segments)
    {
      assert terminals[..i + 1][..i] == terminals[..i];
      var terminal := terminals[i];
      if CompleteHour(keys, terminal) {
        var sum := SumBetween(keys, retained, segments, terminal - (HOUR_MS - BUCKET_MS), terminal);
        windows := windows + [sum];
      }
    }
    assert terminals[..|terminals|] == terminals;
    WindowTotalsAreComplete(segments);
  }

  /** The dictionary of retained bytes, with its keys in insertion order. */
  method BucketTotals(segments: seq<Segment>) returns (keys: seq<int>, retained: map<int, nat>)
    ensures keys == FirstOccurrences(Buckets(segments))
    ensures forall k :: k in keys ==> k in retained && retained[k] == BytesBetween(segments, k, k)
  {
    keys, retained := [], map[];
    NoBuckets(segments);
    hide BytesBetween, FirstOccurrences, Buckets;
    for i := 0 to |segments|
      invariant keys == FirstOccurrences(Buckets(segments[..i]))
      invariant forall k :: k in keys <==> k in retained
      invariant forall k :: k in retained ==> retained[k] == BytesBetween(segments[..i], k, k)
      invariant forall k :: k !in retained ==> BytesBetween(segments[..i], k, k) == 0
    {
      var item := segments[i];
      BucketStep(segments, i, keys);
      if item.bucket in retained {
        retained := retained[item.bucket := retained[item.bucket] + item.Retained()];
      } else {
        keys := keys + [item.bucket];
        retained := retained[item.bucket := item.Retained()];
      }
    }
    assert segments[..|segments|] == segments;
  }

  lemma NoBuckets(segments: seq<Segment>)
    ensures FirstOccurrences(Buckets(segments[..0])) == [] && forall k :: BytesBetween(segments[..0], k, k) == 0
  {
  }

  /** One more segment: a new bucket goes to the end, and only its bucket's total grows. */
  lemma BucketStep(segments: seq<Segment>, i: nat, keys: seq<int>)
    requires i < |segments| && keys == FirstOccurrences(Buckets(segments[..i]))
    ensures var item := segments[i];
            && FirstOccurrences(Buckets(segments[..i + 1])) == (if item.bucket in keys then keys else keys + [item.bucket])
            && forall k :: BytesBetween(segments[..i + 1], k, k)
                        == BytesBetween(segments[..i], k, k) + if k == item.bucket then item.Retained() else 0
  {
    var item, all := segments[i], Buckets(segments[..i + 1]);
    assert segments[..i + 1][..i] == segments[..i];
    assert all[..i] == Buckets(segments[..i]) && all[i] == item.bucket;
  }

  method SumBetween(keys: seq<int>, retained: map<int, nat>, ghost segments: seq<Segment>, lo: int, hi: int) returns (sum: nat)
    requires forall k :: k in keys ==> k in retained && retained[k] == BytesBetween(segments, k, k)
    ensures sum == KeySum(keys, segments, lo, hi)
  {
    sum := 0;
    for j := 0 to |keys|
      invariant sum == KeySum(keys[..j], segments, lo, hi)
    {
      assert keys[..j + 1][..j] == keys[..j];
      if lo <= keys[j] <= hi {
        sum := sum + retained[keys[j]];
      }
    }
    assert keys[..|keys|] == keys;
  }
}
