/** The branch-selection policy: witness quorums, the seven-key score, the
    eligible maximum, and the bounds the policy puts on witnesses. */
module Convergence {
  import opened Orders

  datatype ConvergencePolicy = ConvergencePolicy(
    maxRewindCommits: u64,
    quorumSendersPerEpoch: nat,
    quorumEpochs: nat,
    maxWitnessOverrideDepth: u64)
  {
    predicate Validates() {
      maxWitnessOverrideDepth <= maxRewindCommits
    }
  }

  datatype CommitOrderingPriority = Privileged | Ordinary

  datatype AppWitness = AppWitness(epoch: u64, sender: Bytes)

  datatype BranchCandidate = BranchCandidate(
    id: Id,
    forkEpoch: u64,
    tipEpoch: u64,
    tipPriority: CommitOrderingPriority,
    tipCommitter: Bytes,
    tipDigest: Bytes,
    appWitnesses: seq<AppWitness>)

  datatype BranchScore = BranchScore(
    validCommitDepth: u64,
    effectiveCommitDepth: u64,
    witnessQuorumMet: bool,
    appWitnessScore: nat,
    tipPriority: CommitOrderingPriority,
    tipCommitter: Bytes,
    tipDigest: Bytes)

  // ----- witnesses -----

  function Epochs(ws: seq<AppWitness>): set<u64> {
    set w | w in ws :: w.epoch
  }

  function SendersAt(ws: seq<AppWitness>, epoch: u64): set<Bytes> {
    set w | w in ws && w.epoch == epoch :: w.sender
  }

  function WitnessesByEpoch(ws: seq<AppWitness>): map<u64, set<Bytes>> {
    map e | e in Epochs(ws) :: SendersAt(ws, e)
  }

  /** The loop that fills the per-epoch sender sets. */
  method GatherWitnessesByEpoch(ws: seq<AppWitness>) returns (byEpoch: map<u64, set<Bytes>>)
    ensures byEpoch == WitnessesByEpoch(ws)
  {
    byEpoch := map[];
    for i := 0 to |ws|
      invariant byEpoch.Keys == Epochs(ws[..i])
      invariant forall e :: e in byEpoch ==> byEpoch[e] == SendersAt(ws[..i], e)
    {
      var w := ws[i];
      assert ws[..i + 1] == ws[..i] + [w];
      assert Epochs(ws[..i + 1]) == Epochs(ws[..i]) + {w.epoch};
      assert forall e :: e != w.epoch ==> SendersAt(ws[..i + 1], e) == SendersAt(ws[..i], e);
      assert SendersAt(ws[..i + 1], w.epoch) == SendersAt(ws[..i], w.epoch) + {w.sender};
      assert w.epoch !in byEpoch ==> SendersAt(ws[..i], w.epoch) == {};
      byEpoch := byEpoch[w.epoch := (if w.epoch in byEpoch then byEpoch[w.epoch] else {}) + {w.sender}];
    }
    assert ws[..|ws|] == ws;
  }

  function QuorumEpochs(byEpoch: map<u64, set<Bytes>>, senders: nat): set<u64> {
    set e | e in byEpoch && |byEpoch[e]| >= senders
  }

  predicate WitnessQuorumMet(ws: seq<AppWitness>, policy: ConvergencePolicy) {
    && policy.quorumSendersPerEpoch != 0
    && policy.quorumEpochs != 0
    && |QuorumEpochs(WitnessesByEpoch(ws), policy.quorumSendersPerEpoch)| >= policy.quorumEpochs
  }

  predicate LeastEpoch(e: u64, s: set<u64>) {
    e in s && forall f :: f in s ==> e <= f
  }

  lemma {:induction false} LeastEpochExists(s: set<u64>)
    requires s != {}
    ensures exists e :: LeastEpoch(e, s)
  {
    var e :| e in s;
    if s == {e} {
      assert LeastEpoch(e, s);
    } else {
      LeastEpochExists(s - {e});
      var m :| LeastEpoch(m, s - {e});
      var l := if m <= e then m else e;
      assert forall f :: f in s ==> f == e || f in s - {e};
      assert LeastEpoch(l, s);
    }
  }

  /** The senders of every epoch, each epoch counting at most `cap`. */
  function CappedSum(byEpoch: map<u64, set<Bytes>>, cap: nat): nat
    decreases |byEpoch|
  {
    if byEpoch.Keys == {} then 0 else
      LeastEpochExists(byEpoch.Keys);
      var e :| e in byEpoch.Keys && LeastEpoch(e, byEpoch.Keys);
      Min(|byEpoch[e]|, cap) + CappedSum(byEpoch - {e}, cap)
  }

  function AppWitnessScore(ws: seq<AppWitness>, policy: ConvergencePolicy): nat {
    CappedSum(WitnessesByEpoch(ws), policy.quorumSendersPerEpoch)
  }

  lemma {:induction false} CappedSumRemove(byEpoch: map<u64, set<Bytes>>, cap: nat, e: u64)
    requires e in byEpoch
    ensures CappedSum(byEpoch, cap) == Min(|byEpoch[e]|, cap) + CappedSum(byEpoch - {e}, cap)
    decreases |byEpoch|
  {
    LeastEpochExists(byEpoch.Keys);
    var l :| l in byEpoch.Keys && LeastEpoch(l, byEpoch.Keys);
    assert CappedSum(byEpoch, cap) == Min(|byEpoch[l]|, cap) + CappedSum(byEpoch - {l}, cap);
    if l != e {
      var a, b := byEpoch - {l}, byEpoch - {e};
      CappedSumRemove(a, cap, e);
      CappedSumRemove(b, cap, l);
      assert a - {e} == b - {l};
    }
  }

  lemma {:induction false} CappedSumMonotone(a: map<u64, set<Bytes>>, b: map<u64, set<Bytes>>, cap: nat)
    requires forall e :: e in a ==> e in b && a[e] <= b[e]
    ensures CappedSum(a, cap) <= CappedSum(b, cap)
    decreases |a|
  {
    if e :| e in a {
      CappedSumMonotone(a - {e}, b - {e}, cap);
      CappedSumRemove(a, cap, e);
      CappedSumRemove(b, cap, e);
      SubsetSize(a[e], b[e]);
    }
  }

  /** Only which witnesses occur matters: not their order, not their number. */
  lemma WitnessSetDecides(a: seq<AppWitness>, b: seq<AppWitness>, policy: ConvergencePolicy)
    requires forall w :: w in a <==> w in b
    ensures WitnessesByEpoch(a) == WitnessesByEpoch(b)
    ensures WitnessQuorumMet(a, policy) == WitnessQuorumMet(b, policy)
    ensures AppWitnessScore(a, policy) == AppWitnessScore(b, policy)
  {
    assert Epochs(a) == Epochs(b);
    assert forall e :: SendersAt(a, e) == SendersAt(b, e);
  }

  lemma MoreWitnesses(a: seq<AppWitness>, b: seq<AppWitness>, policy: ConvergencePolicy)
    requires forall w :: w in a ==> w in b
    ensures WitnessQuorumMet(a, policy) ==> WitnessQuorumMet(b, policy)
    ensures AppWitnessScore(a, policy) <= AppWitnessScore(b, policy)
  {
    var ma, mb := WitnessesByEpoch(a), WitnessesByEpoch(b);
    assert forall e :: SendersAt(a, e) <= SendersAt(b, e);
    CappedSumMonotone(ma, mb, policy.quorumSendersPerEpoch);
    var q := policy.quorumSendersPerEpoch;
    forall e | e in QuorumEpochs(ma, q) ensures e in QuorumEpochs(mb, q) {
      SubsetSize(ma[e], mb[e]);
    }
    SubsetSize(QuorumEpochs(ma, q), QuorumEpochs(mb, q));
  }

  // ----- scores -----

  function WitnessDepthBoost(c: BranchCandidate, policy: ConvergencePolicy): u64 {
    if WitnessQuorumMet(c.appWitnesses, policy) then policy.maxWitnessOverrideDepth else 0
  }

  function Score(c: BranchCandidate, policy: ConvergencePolicy): BranchScore {
    BranchScore(
      SaturatingSub(c.tipEpoch, c.forkEpoch),
      SaturatingAdd(SaturatingSub(c.tipEpoch, c.forkEpoch), WitnessDepthBoost(c, policy)),
      WitnessQuorumMet(c.appWitnesses, policy),
      AppWitnessScore(c.appWitnesses, policy),
      c.tipPriority,
      c.tipCommitter,
      c.tipDigest)
  }

  datatype Ordering = Less | Equal | Greater {
    function Then(next: Ordering): Ordering {
      if this == Equal then next else this
    }
    function Flip(): Ordering {
      match this case Less => Greater case Equal => Equal case Greater => Less
    }
  }

  function CompareInt(a: int, b: int): Ordering {
    if a < b then Less else if a == b then Equal else Greater
  }

  function CompareBool(a: bool, b: bool): Ordering {
    CompareInt(if a then 1 else 0, if b then 1 else 0)
  }

  /** The derived order: a privileged commit ranks below an ordinary one. */
  function ComparePriority(a: CommitOrderingPriority, b: CommitOrderingPriority): Ordering {
    CompareInt(if a.Privileged? then 0 else 1, if b.Privileged? then 0 else 1)
  }

  function CompareBytes(a: Bytes, b: Bytes): Ordering {
    if a == b then Equal else if BytesLe(a, b) then Less else Greater
  }

  function CompareScores(a: BranchScore, b: BranchScore): Ordering {
    CompareInt(a.effectiveCommitDepth, b.effectiveCommitDepth)
    .Then(CompareBool(a.witnessQuorumMet, b.witnessQuorumMet))
    .Then(CompareInt(a.validCommitDepth, b.validCommitDepth))
    .Then(CompareInt(a.appWitnessScore, b.appWitnessScore))
    .Then(ComparePriority(b.tipPriority, a.tipPriority))
    .Then(CompareBytes(b.tipCommitter, a.tipCommitter))
    .Then(CompareBytes(b.tipDigest, a.tipDigest))
  }

  predicate ScoreLe(a: BranchScore, b: BranchScore) {
    CompareScores(a, b) != Greater
  }

  lemma CompareBytesFlip(a: Bytes, b: Bytes)
    ensures CompareBytes(b, a) == CompareBytes(a, b).Flip()
  {
    BytesLeTotal(a, b);
    if BytesLe(a, b) && BytesLe(b, a) { BytesLeAntisymmetric(a, b); }
  }

  lemma CompareBytesTransitive(a: Bytes, b: Bytes, c: Bytes)
    requires CompareBytes(a, b) != Greater && CompareBytes(b, c) != Greater
    ensures CompareBytes(a, c) == CompareBytes(a, b).Then(CompareBytes(b, c))
  {
    if a != b && b != c {
      BytesLeTransitive(a, b, c);
      if a == c { BytesLeAntisymmetric(a, b); }
    }
  }

  /** Comparing equal means agreeing on all seven keys, and swapping the sides
      swaps the answer. */
  lemma CompareScoresFlip(a: BranchScore, b: BranchScore)
    ensures CompareScores(b, a) == CompareScores(a, b).Flip()
    ensures CompareScores(a, b) == Equal <==> a == b
  {
    CompareBytesFlip(a.tipCommitter, b.tipCommitter);
    CompareBytesFlip(a.tipDigest, b.tipDigest);
  }

  lemma ScoreLeTransitive(a: BranchScore, b: BranchScore, c: BranchScore)
    requires ScoreLe(a, b) && ScoreLe(b, c)
    ensures ScoreLe(a, c)
  {
    if c.tipCommitter == b.tipCommitter || b.tipCommitter == a.tipCommitter {
    } else if CompareBytes(c.tipCommitter, b.tipCommitter) != Greater
      && CompareBytes(b.tipCommitter, a.tipCommitter) != Greater {
      CompareBytesTransitive(c.tipCommitter, b.tipCommitter, a.tipCommitter);
    }
    if CompareBytes(c.tipDigest, b.tipDigest) != Greater && CompareBytes(b.tipDigest, a.tipDigest) != Greater {
      CompareBytesTransitive(c.tipDigest, b.tipDigest, a.tipDigest);
    }
    CompareBytesFlip(c.tipCommitter, b.tipCommitter);
    CompareBytesFlip(b.tipCommitter, a.tipCommitter);
    CompareBytesFlip(c.tipDigest, b.tipDigest);
    CompareBytesFlip(b.tipDigest, a.tipDigest);
  }

  lemma ScoreOrder()
    ensures TotalOrder(ScoreLe)
  {
    forall a, b ensures ScoreLe(a, b) || ScoreLe(b, a) { CompareScoresFlip(a, b); }
    forall a, b | ScoreLe(a, b) && ScoreLe(b, a) ensures a == b { CompareScoresFlip(a, b); }
    forall a, b, c | ScoreLe(a, b) && ScoreLe(b, c) ensures ScoreLe(a, c) { ScoreLeTransitive(a, b, c); }
  }

  // ----- selection -----

  predicate Eligible(tip: u64, c: BranchCandidate, policy: ConvergencePolicy) {
    SaturatingSub(tip, c.forkEpoch) <= policy.maxRewindCommits
  }

  /** `i` is the last of the best eligible candidates. */
  ghost predicate LastMaximum(tip: u64, cs: seq<BranchCandidate>, policy: ConvergencePolicy, i: nat) {
    && i < |cs|
    && Eligible(tip, cs[i], policy)
    && (forall j :: 0 <= j < |cs| && Eligible(tip, cs[j], policy) ==>
                      ScoreLe(Score(cs[j], policy), Score(cs[i], policy)))
    && (forall j :: i < j < |cs| && Eligible(tip, cs[j], policy) ==>
                      Score(cs[j], policy) != Score(cs[i], policy))
  }

  ghost predicate NoneEligible(tip: u64, cs: seq<BranchCandidate>, policy: ConvergencePolicy) {
    forall j :: 0 <= j < |cs| ==> !Eligible(tip, cs[j], policy)
  }

  /** `filter(is_eligible).max_by(compare_scores)`, as a position: a later
      candidate replaces an earlier one it does not compare below. */
  function SelectIndex(tip: u64, cs: seq<BranchCandidate>, policy: ConvergencePolicy): (r: Option<nat>)
    ensures r.Some? ==> LastMaximum(tip, cs, policy, r.value)
    ensures r.None? ==> NoneEligible(tip, cs, policy)
  {
    if cs == [] then None else
      var n := |cs| - 1;
      var best := SelectIndex(tip, cs[..n], policy);
      var r :=
        if !Eligible(tip, cs[n], policy) then best
        else if best.None? || CompareScores(Score(cs[best.value], policy), Score(cs[n], policy)) != Greater then Some(n)
        else best;
      SelectStep(tip, cs, policy, best, r);
      r
  }

  lemma SelectStep(tip: u64, cs: seq<BranchCandidate>, policy: ConvergencePolicy, best: Option<nat>, r: Option<nat>)
    requires cs != []
    requires best.Some? ==> LastMaximum(tip, cs[..|cs| - 1], policy, best.value)
    requires best.None? ==> NoneEligible(tip, cs[..|cs| - 1], policy)
    requires r == (if !Eligible(tip, cs[|cs| - 1], policy) then best
                   else if best.None? || ScoreLe(Score(cs[best.value], policy), Score(cs[|cs| - 1], policy)) then
                     Some(|cs| - 1)
                   else best)
    ensures r.Some? ==> LastMaximum(tip, cs, policy, r.value)
    ensures r.None? ==> NoneEligible(tip, cs, policy)
  {
    var n := |cs| - 1;
    assert forall j :: 0 <= j < n ==> cs[..n][j] == cs[j];
    if r.Some? {
      forall j | 0 <= j < |cs| && Eligible(tip, cs[j], policy)
        ensures ScoreLe(Score(cs[j], policy), Score(cs[r.value], policy))
      {
        CompareScoresFlip(Score(cs[j], policy), Score(cs[r.value], policy));
        if j < n && r.value == n && best.Some? {
          ScoreLeTransitive(Score(cs[j], policy), Score(cs[best.value], policy), Score(cs[n], policy));
        }
      }
      if r.value != n {
        CompareScoresFlip(Score(cs[r.value], policy), Score(cs[n], policy));
      }
    }
  }

  lemma LastMaximumUnique(tip: u64, cs: seq<BranchCandidate>, policy: ConvergencePolicy, i: nat)
    requires LastMaximum(tip, cs, policy, i)
    ensures SelectIndex(tip, cs, policy) == Some(i)
  {
    var r := SelectIndex(tip, cs, policy);
    if r.Some? {
      CompareScoresFlip(Score(cs[i], policy), Score(cs[r.value], policy));
    }
  }

  function Select(tip: u64, cs: seq<BranchCandidate>, policy: ConvergencePolicy): Option<BranchCandidate> {
    match SelectIndex(tip, cs, policy) case None => None case Some(i) => Some(cs[i])
  }

  /** The score a slice elects does not depend on the slice's order. */
  lemma SelectedScorePermutation(tip: u64, cs: seq<BranchCandidate>, ds: seq<BranchCandidate>,
                                 policy: ConvergencePolicy)
    requires multiset(cs) == multiset(ds)
    ensures Select(tip, cs, policy).None? <==> Select(tip, ds, policy).None?
    ensures Select(tip, cs, policy).Some? ==>
              Score(Select(tip, cs, policy).value, policy) == Score(Select(tip, ds, policy).value, policy)
  {
    var i, j := SelectIndex(tip, cs, policy), SelectIndex(tip, ds, policy);
    if i.Some? {
      assert cs[i.value] in multiset(ds);
      var k :| 0 <= k < |ds| && ds[k] == cs[i.value];
    }
    if j.Some? {
      assert ds[j.value] in multiset(cs);
      var k :| 0 <= k < |cs| && cs[k] == ds[j.value];
    }
    if i.Some? && j.Some? {
      CompareScoresFlip(Score(cs[i.value], policy), Score(ds[j.value], policy));
    }
  }

  /** At most one eligible candidate carries the best score. */
  ghost predicate BestScoreUnshared(tip: u64, cs: seq<BranchCandidate>, policy: ConvergencePolicy) {
    forall i, j :: 0 <= i < |cs| && 0 <= j < |cs|
      && Eligible(tip, cs[i], policy) && Eligible(tip, cs[j], policy)
      && Score(cs[i], policy) == Score(cs[j], policy)
      && (forall k :: 0 <= k < |cs| && Eligible(tip, cs[k], policy) ==>
            ScoreLe(Score(cs[k], policy), Score(cs[i], policy)))
      ==> cs[i] == cs[j]
  }

  /** The candidate a raw slice elects is order-independent exactly when no two
      different eligible candidates share the best score. */
  lemma SelectOrderFreeIffUnshared(tip: u64, cs: seq<BranchCandidate>, policy: ConvergencePolicy)
    ensures BestScoreUnshared(tip, cs, policy) <==>
            forall ds :: multiset(ds) == multiset(cs) ==> Select(tip, ds, policy) == Select(tip, cs, policy)
  {
    if BestScoreUnshared(tip, cs, policy) {
      forall ds | multiset(ds) == multiset(cs) ensures Select(tip, ds, policy) == Select(tip, cs, policy) {
        SelectedScorePermutation(tip, cs, ds, policy);
        var i, j := SelectIndex(tip, cs, policy), SelectIndex(tip, ds, policy);
        if i.Some? {
          assert ds[j.value] in multiset(cs);
          var k :| 0 <= k < |cs| && cs[k] == ds[j.value];
        }
      }
    } else {
      var i, j :| 0 <= i < |cs| && 0 <= j < |cs|
        && Eligible(tip, cs[i], policy) && Eligible(tip, cs[j], policy)
        && Score(cs[i], policy) == Score(cs[j], policy)
        && (forall k :: 0 <= k < |cs| && Eligible(tip, cs[k], policy) ==>
              ScoreLe(Score(cs[k], policy), Score(cs[i], policy)))
        && cs[i] != cs[j];
      var di, dj := MoveLast(cs, i), MoveLast(cs, j);
      MovedLastWins(tip, cs, policy, i);
      MovedLastWins(tip, cs, policy, j);
      assert Select(tip, di, policy) != Select(tip, dj, policy);
    }
  }

  function MoveLast<T>(s: seq<T>, i: nat): (r: seq<T>)
    requires i < |s|
    ensures multiset(r) == multiset(s)
  {
    assert s == s[..i] + [s[i]] + s[i + 1..];
    s[..i] + s[i + 1..] + [s[i]]
  }

  lemma MovedLastWins(tip: u64, cs: seq<BranchCandidate>, policy: ConvergencePolicy, i: nat)
    requires i < |cs| && Eligible(tip, cs[i], policy)
    requires forall k :: 0 <= k < |cs| && Eligible(tip, cs[k], policy) ==>
               ScoreLe(Score(cs[k], policy), Score(cs[i], policy))
    ensures Select(tip, MoveLast(cs, i), policy) == Some(cs[i])
  {
    var ds := MoveLast(cs, i);
    forall k | 0 <= k < |ds| && Eligible(tip, ds[k], policy)
      ensures ScoreLe(Score(ds[k], policy), Score(cs[i], policy))
    {
      assert ds[k] in multiset(cs);
      var l :| 0 <= l < |cs| && cs[l] == ds[k];
    }
    assert LastMaximum(tip, ds, policy, |ds| - 1);
    LastMaximumUnique(tip, ds, policy, |ds| - 1);
  }

  /** An instance: of two eligible candidates that differ only in their ids the
      later one wins, in either order. */
  lemma TieGoesToTheLast(tip: u64, c: BranchCandidate, id: Id, policy: ConvergencePolicy)
    requires Eligible(tip, c, policy) && id != c.id
    ensures var d := c.(id := id);
            && Select(tip, [c, d], policy) == Some(d) && Select(tip, [d, c], policy) == Some(c)
            && !BestScoreUnshared(tip, [c, d], policy)
  {
    var d := c.(id := id);
    assert Score(c, policy) == Score(d, policy);
    CompareScoresFlip(Score(c, policy), Score(d, policy));
    LastMaximumUnique(tip, [c, d], policy, 1);
    LastMaximumUnique(tip, [d, c], policy, 1);
    var cs := [c, d];
    assert cs[0] != cs[1];
  }

  // ----- what witnesses can and cannot do -----

  /** A quorum lets a branch win over a deeper one only by the configured
      override depth, hence under a validated policy only by the rewind horizon. */
  lemma BoundedWitnessOverride(tip: u64, cs: seq<BranchCandidate>, policy: ConvergencePolicy, j: nat)
    requires SelectIndex(tip, cs, policy).Some? && j < |cs| && Eligible(tip, cs[j], policy)
    ensures var winner := Score(cs[SelectIndex(tip, cs, policy).value], policy);
            var other := Score(cs[j], policy);
            && other.validCommitDepth <= winner.validCommitDepth + policy.maxWitnessOverrideDepth
            && (policy.Validates() ==> other.validCommitDepth <= winner.validCommitDepth + policy.maxRewindCommits)
            && (!winner.witnessQuorumMet ==> other.validCommitDepth <= winner.validCommitDepth)
  {
    var w := Score(cs[SelectIndex(tip, cs, policy).value], policy);
    var o := Score(cs[j], policy);
    assert ScoreLe(o, w);
    assert o.effectiveCommitDepth <= w.effectiveCommitDepth;
    assert o.validCommitDepth <= o.effectiveCommitDepth;
  }

  function AddWitness(c: BranchCandidate, w: AppWitness): BranchCandidate {
    c.(appWitnesses := c.appWitnesses + [w])
  }

  lemma MoreWitnessesNeverLower(c: BranchCandidate, ws: seq<AppWitness>, policy: ConvergencePolicy)
    requires forall w :: w in c.appWitnesses ==> w in ws
    ensures ScoreLe(Score(c, policy), Score(c.(appWitnesses := ws), policy))
  {
    MoreWitnesses(c.appWitnesses, ws, policy);
  }

  lemma AddWitnessNeverLowers(c: BranchCandidate, w: AppWitness, policy: ConvergencePolicy)
    ensures ScoreLe(Score(c, policy), Score(AddWitness(c, w), policy))
    ensures w in c.appWitnesses ==> Score(AddWitness(c, w), policy) == Score(c, policy)
  {
    MoreWitnessesNeverLower(c, AddWitness(c, w).appWitnesses, policy);
    if w in c.appWitnesses {
      WitnessSetDecides(c.appWitnesses, AddWitness(c, w).appWitnesses, policy);
    }
  }

  /** One more witness for the winner keeps it the winner. */
  lemma WinnerKeepsWinning(tip: u64, cs: seq<BranchCandidate>, policy: ConvergencePolicy, w: AppWitness)
    requires SelectIndex(tip, cs, policy).Some?
    ensures var i := SelectIndex(tip, cs, policy).value;
            SelectIndex(tip, cs[i := AddWitness(cs[i], w)], policy) == Some(i)
  {
    var i := SelectIndex(tip, cs, policy).value;
    var ds := cs[i := AddWitness(cs[i], w)];
    var before, after := Score(cs[i], policy), Score(ds[i], policy);
    AddWitnessNeverLowers(cs[i], w, policy);
    forall j | 0 <= j < |ds| && Eligible(tip, ds[j], policy)
      ensures ScoreLe(Score(ds[j], policy), after)
      ensures j > i ==> Score(ds[j], policy) != after
    {
      CompareScoresFlip(after, after);
      if j != i {
        ScoreLeTransitive(Score(cs[j], policy), before, after);
        if j > i && Score(ds[j], policy) == after {
          CompareScoresFlip(before, after);
        }
      }
    }
    assert LastMaximum(tip, ds, policy, i);
    LastMaximumUnique(tip, ds, policy, i);
  }
}
