/** Post-settle reorg telemetry: fixed-bucket histograms, the percentile read
    from them, and the recorder called wherever a branch is applied. */
module EngineMetrics {
  import opened Orders
  import opened Messages

  const LATENESS_BOUNDS: seq<u64> := [
    1, 2, 5, 10, 20, 30, 50, 75, 100, 150, 200, 300, 500, 750, 1000, 1500, 2000, 3000, 5000, 7500,
    10000, 15000, 20000, 30000]
  const REWIND_BOUNDS: seq<u64> := [1, 2, 3, 4, 5, 6, 8, 10, 16, 32]

  // ----- histograms -----

  datatype Histogram = Histogram(counts: seq<nat>, overflow: nat)

  ghost predicate Ascending(bounds: seq<u64>) {
    forall i, j :: 0 <= i < j < |bounds| ==> bounds[i] < bounds[j]
  }

  ghost predicate IsBucket(bounds: seq<u64>, sample: u64, i: nat) {
    && i <= |bounds|
    && (forall k :: 0 <= k < i ==> bounds[k] < sample)
    && (i < |bounds| ==> sample <= bounds[i])
  }

  function Bucket(bounds: seq<u64>, sample: u64): (i: nat)
    ensures IsBucket(bounds, sample, i)
  {
    if bounds == [] || sample <= bounds[0] then 0 else
      var i := Bucket(bounds[1..], sample);
      assert forall k :: 0 < k < i + 1 ==> bounds[k] == bounds[1..][k - 1];
      i + 1
  }

  function Empty(bounds: seq<u64>): Histogram {
    Histogram(seq(|bounds|, _ => 0), 0)
  }

  function Recorded(bounds: seq<u64>, h: Histogram, sample: u64): (r: Histogram)
    requires |h.counts| == |bounds|
    ensures |r.counts| == |bounds|
  {
    var i := Bucket(bounds, sample);
    if i < |bounds| then h.(counts := h.counts[i := h.counts[i] + 1]) else h.(overflow := h.overflow + 1)
  }

  /** The histogram that has recorded these samples. */
  function Tally(bounds: seq<u64>, samples: seq<u64>): (h: Histogram)
    ensures |h.counts| == |bounds|
  {
    if samples == [] then Empty(bounds)
    else Recorded(bounds, Tally(bounds, samples[..|samples| - 1]), samples[|samples| - 1])
  }

  class BucketHistogram {
    const bounds: seq<u64>
    var counts: seq<nat>
    var overflow: nat

    ghost function View(): Histogram
      reads this
    {
      Histogram(counts, overflow)
    }

    constructor (bounds: seq<u64>)
      ensures this.bounds == bounds && View() == Empty(bounds)
    {
      this.bounds, counts, overflow := bounds, seq(|bounds|, _ => 0), 0;
    }

    method Record(sample: u64)
      requires |counts| == |bounds|
      modifies this
      ensures |counts| == |bounds| && View() == Recorded(bounds, old(View()), sample)
    {
      for i := 0 to |bounds|
        invariant forall k :: 0 <= k < i ==> bounds[k] < sample
        invariant View() == old(View())
      {
        if sample <= bounds[i] {
          BucketUnique(bounds, sample, i);
          counts := counts[i := counts[i] + 1];
          return;
        }
      }
      BucketUnique(bounds, sample, |bounds|);
      overflow := overflow + 1;
    }
  }

  lemma BucketUnique(bounds: seq<u64>, sample: u64, i: nat)
    requires IsBucket(bounds, sample, i)
    ensures Bucket(bounds, sample) == i
  {
  }

  function Total(counts: seq<nat>): nat {
    if counts == [] then 0 else Total(counts[..|counts| - 1]) + counts[|counts| - 1]
  }

  function SampleCount(h: Histogram): nat {
    Total(h.counts) + h.overflow
  }

  lemma {:induction false} TotalOfBump(counts: seq<nat>, i: nat, n: nat)
    requires i < |counts| && n <= |counts|
    ensures Total(counts[i := counts[i] + 1][..n]) == Total(counts[..n]) + if i < n then 1 else 0
  {
    var bumped := counts[i := counts[i] + 1];
    if n > 0 {
      TotalOfBump(counts, i, n - 1);
      assert bumped[..n][..n - 1] == bumped[..n - 1];
      assert counts[..n][..n - 1] == counts[..n - 1];
    }
  }

  lemma {:induction false} TotalOfZeros(n: nat, m: nat)
    requires n <= m
    ensures Total(seq(m, _ => 0)[..n]) == 0
  {
    if n > 0 {
      TotalOfZeros(n - 1, m);
      assert seq(m, _ => 0)[..n][..n - 1] == seq(m, _ => 0)[..n - 1];
    }
  }

  /** How many samples are at most `bound`. */
  function AtMost(samples: seq<u64>, bound: u64): nat {
    if samples == [] then 0
    else AtMost(samples[..|samples| - 1], bound) + if samples[|samples| - 1] <= bound then 1 else 0
  }

  lemma TotalAfter(bounds: seq<u64>, h: Histogram, sample: u64, n: nat)
    requires Ascending(bounds) && |h.counts| == |bounds| && 0 < n <= |bounds|
    ensures Total(Recorded(bounds, h, sample).counts[..n])
            == Total(h.counts[..n]) + if sample <= bounds[n - 1] then 1 else 0
  {
    var i := Bucket(bounds, sample);
    BucketWithin(bounds, sample, n);
    if i < |bounds| { TotalOfBump(h.counts, i, n); }
  }

  lemma BucketWithin(bounds: seq<u64>, sample: u64, n: nat)
    requires Ascending(bounds) && 0 < n <= |bounds|
    ensures Bucket(bounds, sample) < n <==> sample <= bounds[n - 1]
  {
    var i := Bucket(bounds, sample);
    assert IsBucket(bounds, sample, i);
  }

  /** Adding up the buckets through one bound counts the samples within it. */
  lemma {:induction false} TotalIsAtMost(bounds: seq<u64>, samples: seq<u64>, n: nat)
    requires Ascending(bounds) && 0 < n <= |bounds|
    ensures Total(Tally(bounds, samples).counts[..n]) == AtMost(samples, bounds[n - 1])
  {
    if samples == [] {
      TotalOfZeros(n, |bounds|);
    } else {
      var m := |samples| - 1;
      TotalIsAtMost(bounds, samples[..m], n);
      TotalAfter(bounds, Tally(bounds, samples[..m]), samples[m], n);
    }
  }

  lemma OneMoreCounted(bounds: seq<u64>, h: Histogram, sample: u64)
    requires |h.counts| == |bounds|
    ensures SampleCount(Recorded(bounds, h, sample)) == SampleCount(h) + 1
  {
    var i := Bucket(bounds, sample);
    if i < |bounds| {
      TotalOfBump(h.counts, i, |bounds|);
      assert h.counts[..|bounds|] == h.counts;
      var bumped := h.counts[i := h.counts[i] + 1];
      assert bumped[..|bounds|] == bumped;
    }
  }

  /** No sample is lost: buckets and overflow add up to the samples recorded. */
  lemma {:induction false} EverySampleCounted(bounds: seq<u64>, samples: seq<u64>)
    ensures SampleCount(Tally(bounds, samples)) == |samples|
  {
    if samples == [] {
      var zeros := Empty(bounds).counts;
      TotalOfZeros(|bounds|, |bounds|);
      assert zeros[..|bounds|] == zeros;
    } else {
      var m := |samples| - 1;
      EverySampleCounted(bounds, samples[..m]);
      OneMoreCounted(bounds, Tally(bounds, samples[..m]), samples[m]);
    }
  }

  // ----- percentiles -----

  function Ceiling(x: real): int {
    -(-x).Floor
  }

  function Clamp(p: real): real {
    if p < 0.0 then 0.0 else if p > 1.0 then 1.0 else p
  }

  function Share(p: real, total: nat): int {
    Ceiling(p * (total as real))
  }

  /** The number of samples a percentile has to cover: at least one. */
  function Target(percentile: real, total: nat): nat {
    var target := Share(Clamp(percentile), total);
    if target < 1 then 1 else target
  }

  /** How many samples buckets `0..=i` hold. */
  function Through(h: Histogram, i: nat): nat
    requires i < |h.counts|
  {
    Total(h.counts[..i + 1])
  }

  /** The answer is the bound of bucket `i`, the first to reach the target. */
  ghost predicate Reaches(h: Histogram, target: nat, i: nat) {
    && i < |h.counts| && Through(h, i) >= target
    && forall k :: 0 <= k < i ==> Through(h, k) < target
  }

  /** What a percentile reads off a histogram: nothing without samples or when
      no bucket reaches the target, otherwise the bound of the first that does. */
  ghost predicate Reads(bounds: seq<u64>, h: Histogram, percentile: real, r: Option<u64>)
    requires |h.counts| == |bounds|
  {
    var target := Target(percentile, SampleCount(h));
    if r.None? then SampleCount(h) == 0 || forall k :: 0 <= k < |bounds| ==> Through(h, k) < target
    else SampleCount(h) > 0 && exists i :: 0 <= i < |bounds| && r.value == bounds[i] && Reaches(h, target, i)
  }

  method ApproxPercentile(bounds: seq<u64>, h: Histogram, percentile: real) returns (r: Option<u64>)
    requires |h.counts| == |bounds|
    ensures Reads(bounds, h, percentile, r)
  {
    var total := SampleCount(h);
    if total == 0 { return None; }
    var target := Target(percentile, total);
    var cumulative := 0;
    for i := 0 to |bounds|
      invariant cumulative == Total(h.counts[..i])
      invariant forall k :: 0 <= k < i ==> Through(h, k) < target
    {
      assert h.counts[..i + 1][..i] == h.counts[..i];
      cumulative := cumulative + h.counts[i];
      if cumulative >= target {
        assert Reaches(h, target, i);
        return Some(bounds[i]);
      }
    }
    return None;
  }

  /** `b` is the least bound with at least `target` samples within it. */
  ghost predicate LeastCovering(bounds: seq<u64>, samples: seq<u64>, target: nat, b: u64) {
    && b in bounds && AtMost(samples, b) >= target
    && forall c :: c in bounds && c < b ==> AtMost(samples, c) < target
  }

  /** The bucket the percentile lands in, read in terms of the samples. */
  lemma ReachesIsLeastCovering(bounds: seq<u64>, samples: seq<u64>, target: nat, i: nat)
    requires Ascending(bounds) && i < |bounds|
    ensures Reaches(Tally(bounds, samples), target, i) <==> LeastCovering(bounds, samples, target, bounds[i])
  {
    var h := Tally(bounds, samples);
    forall k | 0 <= k < |bounds| ensures Through(h, k) == AtMost(samples, bounds[k]) {
      TotalIsAtMost(bounds, samples, k + 1);
    }
    FirstIsLeast(bounds, samples, h, target, i);
  }

  lemma FirstIsLeast(bounds: seq<u64>, samples: seq<u64>, h: Histogram, target: nat, i: nat)
    requires Ascending(bounds) && i < |bounds| == |h.counts|
    requires forall k :: 0 <= k < |bounds| ==> Through(h, k) == AtMost(samples, bounds[k])
    ensures Reaches(h, target, i) <==> LeastCovering(bounds, samples, target, bounds[i])
  {
    if LeastCovering(bounds, samples, target, bounds[i]) {
      forall k | 0 <= k < i ensures Through(h, k) < target {
        assert bounds[k] in bounds && bounds[k] < bounds[i];
      }
    }
    if Reaches(h, target, i) {
      forall c | c in bounds && c < bounds[i] ensures AtMost(samples, c) < target {
        var k :| 0 <= k < |bounds| && bounds[k] == c;
        assert k < i;
      }
    }
  }

  /** The reading in terms of the samples. */
  ghost predicate ReadsSamples(bounds: seq<u64>, samples: seq<u64>, percentile: real, r: Option<u64>) {
    var target := Target(percentile, |samples|);
    if r.None? then samples == [] || forall b :: b in bounds ==> AtMost(samples, b) < target
    else samples != [] && LeastCovering(bounds, samples, target, r.value)
  }

  /** A percentile reads the least bound within which the target number of the
      recorded samples lies, and nothing exactly when there is none. */
  lemma ReadsLeastCovering(bounds: seq<u64>, samples: seq<u64>, percentile: real, r: Option<u64>)
    requires Ascending(bounds)
    ensures Reads(bounds, Tally(bounds, samples), percentile, r) <==> ReadsSamples(bounds, samples, percentile, r)
  {
    EverySampleCounted(bounds, samples);
    var h, target := Tally(bounds, samples), Target(percentile, |samples|);
    forall k | 0 <= k < |bounds|
      ensures Through(h, k) == AtMost(samples, bounds[k])
      ensures Reaches(h, target, k) <==> LeastCovering(bounds, samples, target, bounds[k])
    {
      TotalIsAtMost(bounds, samples, k + 1);
      ReachesIsLeastCovering(bounds, samples, target, k);
    }
    if r.None? {
      if forall k :: 0 <= k < |bounds| ==> Through(h, k) < target {
        forall b | b in bounds ensures AtMost(samples, b) < target {
          var k :| 0 <= k < |bounds| && bounds[k] == b;
          assert Through(h, k) < target;
        }
      }
    } else if LeastCovering(bounds, samples, target, r.value) {
      var k :| 0 <= k < |bounds| && bounds[k] == r.value;
    }
  }

  /** A higher percentile never reads a lower bound, and reads nothing where a
      lower one already falls into the overflow. */
  lemma PercentileMonotone(bounds: seq<u64>, samples: seq<u64>, p: real, q: real, r: Option<u64>, t: Option<u64>)
    requires Ascending(bounds) && p <= q
    requires Reads(bounds, Tally(bounds, samples), p, r) && Reads(bounds, Tally(bounds, samples), q, t)
    ensures r.None? ==> t.None?
    ensures r.Some? && t.Some? ==> r.value <= t.value
  {
    ReadsLeastCovering(bounds, samples, p, r);
    ReadsLeastCovering(bounds, samples, q, t);
    TargetMonotone(p, q, |samples|);
    ReadingsMonotone(bounds, samples, Target(p, |samples|), Target(q, |samples|), r, t);
  }

  lemma ReadingsMonotone(bounds: seq<u64>, samples: seq<u64>, low: nat, high: nat, r: Option<u64>, t: Option<u64>)
    requires low <= high
    requires r.Some? ==> LeastCovering(bounds, samples, low, r.value)
    requires t.Some? ==> LeastCovering(bounds, samples, high, t.value)
    requires r.None? ==> samples == [] || forall b :: b in bounds ==> AtMost(samples, b) < low
    requires t.Some? ==> samples != []
    ensures r.None? ==> t.None?
    ensures r.Some? && t.Some? ==> r.value <= t.value
  {
  }

  lemma TargetMonotone(p: real, q: real, total: nat)
    requires p <= q
    ensures 1 <= Target(p, total) <= Target(q, total)
    ensures total > 0 ==> Target(q, total) <= total
  {
    var a, b := Clamp(p), Clamp(q);
    ShareMonotone(a, b, total);
    ShareMonotone(b, 1.0, total);
  }

  lemma ShareMonotone(a: real, b: real, total: nat)
    requires a <= b
    ensures Share(a, total) <= Share(b, total)
    ensures b == 1.0 ==> Share(b, total) == total
  {
    Scaled(a, b, total as real);
    CeilingMonotone(a * (total as real), b * (total as real));
  }

  lemma Scaled(a: real, b: real, t: real)
    requires a <= b && t >= 0.0
    ensures a * t <= b * t
  {
    assert (b - a) * t >= 0.0;
  }

  lemma CeilingMonotone(x: real, y: real)
    requires x <= y
    ensures Ceiling(x) <= Ceiling(y)
  {
    var m, n := (-x).Floor, (-y).Floor;
    assert n > m ==> n as real >= m as real + 1.0;
  }

  // ----- the recorder -----

  datatype Selection = Selection(
    group: Id,
    status: ConvergenceStatus,
    forkEpoch: u64,
    tip: u64,
    branchId: Id,
    nowMs: u64)

  /** The latest selection applied to a group. */
  function Latest(log: seq<Selection>, group: Id): Option<Selection> {
    if log == [] then None
    else if log[|log| - 1].group == group then Some(log[|log| - 1])
    else Latest(log[..|log| - 1], group)
  }

  /** The application was told of `prior`, and `s` replaces it from below its tip. */
  predicate Supersedes(s: Selection, prior: Option<Selection>) {
    && s.status.Settled? && prior.Some? && prior.value.status.Settled?
    && s.branchId != prior.value.branchId && s.forkEpoch < prior.value.tip
  }

  function Depth(s: Selection, prior: Selection): u64
    requires s.forkEpoch < prior.tip
  {
    prior.tip - s.forkEpoch
  }

  function Lateness(s: Selection, prior: Selection): u64 {
    SaturatingSub(s.nowMs, prior.nowMs)
  }

  ghost predicate AllReorgs(reorgs: seq<(Selection, Selection)>) {
    forall i :: 0 <= i < |reorgs| ==>
                  Supersedes(reorgs[i].0, Some(reorgs[i].1)) && reorgs[i].0.group == reorgs[i].1.group
  }

  /** The reorgs of a log, each with the selection it superseded, oldest first. */
  function Reorgs(log: seq<Selection>): (r: seq<(Selection, Selection)>)
    ensures AllReorgs(r)
  {
    if log == [] then [] else
      var s := log[|log| - 1];
      var prior := Latest(log[..|log| - 1], s.group);
      LatestFacts(log[..|log| - 1], s.group);
      Reorgs(log[..|log| - 1]) + if Supersedes(s, prior) then [(s, prior.value)] else []
  }

  function Depths(reorgs: seq<(Selection, Selection)>): (r: seq<u64>)
    requires AllReorgs(reorgs)
    ensures |r| == |reorgs| && forall i :: 0 <= i < |r| ==> r[i] >= 1
  {
    seq(|reorgs|, i requires 0 <= i < |reorgs| => Depth(reorgs[i].0, reorgs[i].1))
  }

  function Latenesses(reorgs: seq<(Selection, Selection)>): seq<u64> {
    seq(|reorgs|, i requires 0 <= i < |reorgs| => Lateness(reorgs[i].0, reorgs[i].1))
  }

  function Settles(log: seq<Selection>): nat {
    if log == [] then 0
    else Settles(log[..|log| - 1]) + if log[|log| - 1].status.Settled? then 1 else 0
  }

  lemma {:induction false} LatestFacts(log: seq<Selection>, group: Id)
    ensures var r := Latest(log, group);
            && (r.Some? ==> r.value.group == group && r.value in log)
            && (r.None? ==> forall s :: s in log ==> s.group != group)
  {
    if log != [] {
      assert log == log[..|log| - 1] + [log[|log| - 1]];
      LatestFacts(log[..|log| - 1], group);
    }
  }

  ghost predicate IsLatest(lastApplied: map<Id, Selection>, log: seq<Selection>) {
    && (forall g :: g in lastApplied <==> Latest(log, g).Some?)
    && (forall g :: g in lastApplied ==> Latest(log, g) == Some(lastApplied[g]))
  }

  lemma NextLatest(lastApplied: map<Id, Selection>, log: seq<Selection>, s: Selection)
    requires IsLatest(lastApplied, log)
    ensures IsLatest(lastApplied[s.group := s], log + [s])
    ensures Latest(log, s.group) == if s.group in lastApplied then Some(lastApplied[s.group]) else None
    ensures s.group in lastApplied ==> lastApplied[s.group].group == s.group
  {
    assert (log + [s])[..|log|] == log;
    LatestFacts(log, s.group);
  }

  class Recorder {
    var settles: nat
    var reorgs: nat
    const depths: BucketHistogram
    const lateness: BucketHistogram
    var lastApplied: map<Id, Selection>
    ghost var log: seq<Selection>

    /** Both histograms have one sample per reorg. */
    ghost predicate Tallied(pairs: seq<(Selection, Selection)>)
      reads this, depths, lateness
    {
      && depths != lateness && AllReorgs(pairs) && reorgs == |pairs|
      && depths.View() == Tally(depths.bounds, Depths(pairs))
      && lateness.View() == Tally(lateness.bounds, Latenesses(pairs))
    }

    ghost predicate Filed()
      reads this
    {
      settles == Settles(log) && IsLatest(lastApplied, log)
    }

    ghost predicate Valid()
      reads this, depths, lateness
    {
      Tallied(Reorgs(log)) && Filed()
    }

    constructor ()
      ensures Valid() && log == [] && fresh(depths) && fresh(lateness)
      ensures depths.bounds == REWIND_BOUNDS && lateness.bounds == LATENESS_BOUNDS
    {
      settles, reorgs, lastApplied, log := 0, 0, map[], [];
      depths := new BucketHistogram(REWIND_BOUNDS);
      lateness := new BucketHistogram(LATENESS_BOUNDS);
    }

    method CountReorg(s: Selection, prior: Selection, ghost pairs: seq<(Selection, Selection)>)
      requires Tallied(pairs) && Supersedes(s, Some(prior)) && s.group == prior.group
      modifies `reorgs, depths, lateness
      ensures Tallied(pairs + [(s, prior)])
    {
      OneMore(depths.bounds, lateness.bounds, pairs, s, prior);
      reorgs := reorgs + 1;
      depths.Record(prior.tip - s.forkEpoch);
      lateness.Record(SaturatingSub(s.nowMs, prior.nowMs));
    }

    /** Whatever was applied before, counters, histograms and the per-group
        record stay exactly what the log of selections says. */
    method NoteAppliedSelection(s: Selection)
      requires Valid()
      modifies this, depths, lateness
      ensures Valid() && log == old(log) + [s]
    {
      LongerLog(log, s);
      NextLatest(lastApplied, log, s);
      var settled := s.status == Settled;
      if settled { settles := settles + 1; }
      if settled && s.group in lastApplied {
        var prior := lastApplied[s.group];
        if prior.status == Settled && s.branchId != prior.branchId && s.forkEpoch < prior.tip {
          CountReorg(s, prior, Reorgs(log));
        }
      }
      lastApplied := lastApplied[s.group := s];
      log := log + [s];
    }
  }

  lemma LongerLog(log: seq<Selection>, s: Selection)
    ensures var prior := Latest(log, s.group);
            Reorgs(log + [s]) == if Supersedes(s, prior) then Reorgs(log) + [(s, prior.value)] else Reorgs(log)
    ensures Settles(log + [s]) == Settles(log) + if s.status.Settled? then 1 else 0
  {
    assert (log + [s])[..|log|] == log;
  }

  lemma OneMore(depthBounds: seq<u64>, lateBounds: seq<u64>, reorgs: seq<(Selection, Selection)>, s: Selection,
                prior: Selection)
    requires AllReorgs(reorgs) && Supersedes(s, Some(prior)) && s.group == prior.group
    ensures var more := reorgs + [(s, prior)];
            && AllReorgs(more)
            && Tally(depthBounds, Depths(more))
                == Recorded(depthBounds, Tally(depthBounds, Depths(reorgs)), Depth(s, prior))
            && Tally(lateBounds, Latenesses(more))
               == Recorded(lateBounds, Tally(lateBounds, Latenesses(reorgs)), Lateness(s, prior))
  {
    var more := reorgs + [(s, prior)];
    assert Depths(more)[..|reorgs|] == Depths(reorgs);
    assert Latenesses(more)[..|reorgs|] == Latenesses(reorgs);
  }

  // ----- what the counters mean -----

  ghost function SettledGroups(log: seq<Selection>): set<Id> {
    set s | s in log && s.status.Settled? :: s.group
  }

  lemma SettledGroupsStep(log: seq<Selection>, s: Selection)
    ensures SettledGroups(log + [s]) == SettledGroups(log) + if s.status.Settled? then {s.group} else {}
    ensures Supersedes(s, Latest(log, s.group)) ==> s.group in SettledGroups(log)
  {
    LatestFacts(log, s.group);
    assert forall x :: x in log + [s] <==> x in log || x == s;
  }

  /** Each group's first settle supersedes nothing, so reorgs never catch up
      with settles: the observed reorg rate stays below one. */
  lemma {:induction false} ReorgsLagSettles(log: seq<Selection>)
    ensures |Reorgs(log)| + |SettledGroups(log)| <= Settles(log)
  {
    if log == [] {
      assert SettledGroups(log) == {};
    } else {
      var m := |log| - 1;
      ReorgsLagSettles(log[..m]);
      assert log == log[..m] + [log[m]];
      LongerLog(log[..m], log[m]);
      SettledGroupsStep(log[..m], log[m]);
      GroupsGrow(SettledGroups(log[..m]), log[m].group);
    }
  }

  lemma GroupsGrow(groups: set<Id>, g: Id)
    ensures |groups + {g}| == |groups| + if g in groups then 0 else 1
  {
    if g in groups { assert groups + {g} == groups; }
  }

  /** Both histograms hold one sample per reorg, each rewind at least one commit deep. */
  lemma BothHistogramsCountReorgs(log: seq<Selection>)
    ensures SampleCount(Tally(REWIND_BOUNDS, Depths(Reorgs(log)))) == |Reorgs(log)|
    ensures SampleCount(Tally(LATENESS_BOUNDS, Latenesses(Reorgs(log)))) == |Reorgs(log)|
    ensures AtMost(Depths(Reorgs(log)), 0) == 0
  {
    EverySampleCounted(REWIND_BOUNDS, Depths(Reorgs(log)));
    EverySampleCounted(LATENESS_BOUNDS, Latenesses(Reorgs(log)));
    NoneAtZero(Depths(Reorgs(log)));
  }

  lemma {:induction false} NoneAtZero(samples: seq<u64>)
    requires forall i :: 0 <= i < |samples| ==> samples[i] >= 1
    ensures AtMost(samples, 0) == 0
  {
    if samples != [] { NoneAtZero(samples[..|samples| - 1]); }
  }

  lemma {:induction false} NeighboursAscend(bounds: seq<u64>, i: nat, j: nat)
    requires forall k :: 0 <= k < |bounds| - 1 ==> bounds[k] < bounds[k + 1]
    requires i < j < |bounds|
    ensures bounds[i] < bounds[j]
    decreases j
  {
    assert bounds[j - 1] < bounds[j - 1 + 1];
    if i < j - 1 { NeighboursAscend(bounds, i, j - 1); }
  }

  lemma EdgesAscend()
    ensures Ascending(LATENESS_BOUNDS) && Ascending(REWIND_BOUNDS)
  {
    forall i, j | 0 <= i < j < |LATENESS_BOUNDS| ensures LATENESS_BOUNDS[i] < LATENESS_BOUNDS[j] {
      NeighboursAscend(LATENESS_BOUNDS, i, j);
    }
    forall i, j | 0 <= i < j < |REWIND_BOUNDS| ensures REWIND_BOUNDS[i] < REWIND_BOUNDS[j] {
      NeighboursAscend(REWIND_BOUNDS, i, j);
    }
  }

  /** After any log, the percentiles of both of the engine's histograms read the
      least bucket edge that covers the target number of reorgs. */
  lemma PercentilesOfReorgs(log: seq<Selection>, percentile: real, r: Option<u64>)
    ensures var late := Latenesses(Reorgs(log));
            Reads(LATENESS_BOUNDS, Tally(LATENESS_BOUNDS, late), percentile, r) <==>
            ReadsSamples(LATENESS_BOUNDS, late, percentile, r)
    ensures var deep := Depths(Reorgs(log));
            Reads(REWIND_BOUNDS, Tally(REWIND_BOUNDS, deep), percentile, r) <==>
            ReadsSamples(REWIND_BOUNDS, deep, percentile, r)
  {
    EdgesAscend();
    ReadsLeastCovering(LATENESS_BOUNDS, Latenesses(Reorgs(log)), percentile, r);
    ReadsLeastCovering(REWIND_BOUNDS, Depths(Reorgs(log)), percentile, r);
  }
}
