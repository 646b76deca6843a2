/** The audit trace of a selection, and the simulator's name for the rule that
    decided it. */
module SelectionTrace {
  import opened Orders
  import opened Convergence

  datatype Rule =
    | EffectiveCommitDepth
    | WitnessQuorum
    | ValidCommitDepth
    | WitnessScore
    | TipPriority
    | TipCommitter
    | TipDigest

  /** The two compared values; the source renders them as text. */
  datatype RuleValue = Number(n: nat) | Flag(b: bool) | PriorityClass(p: CommitOrderingPriority) | Raw(bytes: Bytes)

  datatype RuleEntry = RuleEntry(rule: Rule, ordering: Ordering, winnerValue: RuleValue, otherValue: RuleValue)

  datatype RuleEvaluation = RuleEvaluation(
    rule: Rule,
    winnerId: Id,
    otherId: Id,
    winnerValue: RuleValue,
    otherValue: RuleValue,
    decisive: bool)

  function RuleEntries(w: BranchScore, o: BranchScore): seq<RuleEntry> {
    [ RuleEntry(EffectiveCommitDepth, CompareInt(w.effectiveCommitDepth, o.effectiveCommitDepth),
                Number(w.effectiveCommitDepth), Number(o.effectiveCommitDepth)),
      RuleEntry(WitnessQuorum, CompareBool(w.witnessQuorumMet, o.witnessQuorumMet),
                Flag(w.witnessQuorumMet), Flag(o.witnessQuorumMet)),
      RuleEntry(ValidCommitDepth, CompareInt(w.validCommitDepth, o.validCommitDepth),
                Number(w.validCommitDepth), Number(o.validCommitDepth)),
      RuleEntry(WitnessScore, CompareInt(w.appWitnessScore, o.appWitnessScore),
                Number(w.appWitnessScore), Number(o.appWitnessScore)),
      RuleEntry(TipPriority, ComparePriority(o.tipPriority, w.tipPriority),
                PriorityClass(w.tipPriority), PriorityClass(o.tipPriority)),
      RuleEntry(TipCommitter, CompareBytes(o.tipCommitter, w.tipCommitter),
                Raw(w.tipCommitter), Raw(o.tipCommitter)),
      RuleEntry(TipDigest, CompareBytes(o.tipDigest, w.tipDigest),
                Raw(w.tipDigest), Raw(o.tipDigest)) ]
  }

  /** Entry `i` is the first whose two values differ. */
  predicate FirstDifference(entries: seq<RuleEntry>, i: nat)
    requires i < |entries|
  {
    && entries[i].winnerValue != entries[i].otherValue
    && forall j :: 0 <= j < i ==> entries[j].winnerValue == entries[j].otherValue
  }

  function RuleTrace(w: BranchScore, o: BranchScore, winnerId: Id, otherId: Id): seq<RuleEvaluation> {
    var entries := RuleEntries(w, o);
    seq(|entries|, i requires 0 <= i < |entries| =>
      RuleEvaluation(entries[i].rule, winnerId, otherId, entries[i].winnerValue, entries[i].otherValue,
                     FirstDifference(entries, i)))
  }

  /** The walk over the seven rules with its `decided` flag. */
  method BuildRuleTrace(w: BranchScore, o: BranchScore, winnerId: Id, otherId: Id)
    returns (trace: seq<RuleEvaluation>)
    ensures trace == RuleTrace(w, o, winnerId, otherId)
  {
    var entries := RuleEntries(w, o);
    var decided := false;
    trace := [];
    EntryOrderings(w, o);
    for i := 0 to |entries|
      invariant |trace| == i
      invariant forall j :: 0 <= j < i ==> trace[j] == RuleTrace(w, o, winnerId, otherId)[j]
      invariant decided <==> exists j :: 0 <= j < i && entries[j].winnerValue != entries[j].otherValue
    {
      var decisive := !decided && entries[i].ordering != Equal;
      if decisive { decided := true; }
      trace := trace + [RuleEvaluation(entries[i].rule, winnerId, otherId, entries[i].winnerValue,
            entries[i].otherValue, decisive)];
    }
  }

  lemma EntryOrderings(w: BranchScore, o: BranchScore)
    ensures forall i :: 0 <= i < 7 ==>
              (RuleEntries(w, o)[i].ordering == Equal <==>
                  RuleEntries(w, o)[i].winnerValue == RuleEntries(w, o)[i].otherValue)
  {
    var e := RuleEntries(w, o);
    forall i | 0 <= i < 7 ensures e[i].ordering == Equal <==> e[i].winnerValue == e[i].otherValue {
      assert i == 0 || i == 1 || i == 2 || i == 3 || i == 4 || i == 5 || i == 6;
    }
  }

  /** The first differing rule answers the whole comparison. */
  lemma FirstDifferenceDecides(w: BranchScore, o: BranchScore, i: nat)
    requires i < 7 && FirstDifference(RuleEntries(w, o), i)
    ensures CompareScores(w, o) == RuleEntries(w, o)[i].ordering != Equal
  {
    var e := RuleEntries(w, o);
    EntryOrderings(w, o);
    assert forall j :: 0 <= j < i ==> e[j].ordering == Equal;
    assert i == 0 || i == 1 || i == 2 || i == 3 || i == 4 || i == 5 || i == 6;
    assert i > 0 ==> e[0].ordering == Equal;
    assert i > 1 ==> e[1].ordering == Equal;
    assert i > 2 ==> e[2].ordering == Equal;
    assert i > 3 ==> e[3].ordering == Equal;
    assert i > 4 ==> e[4].ordering == Equal;
    assert i > 5 ==> e[5].ordering == Equal;
  }

  lemma AllValuesAgree(w: BranchScore, o: BranchScore)
    requires forall j :: 0 <= j < 7 ==> RuleEntries(w, o)[j].winnerValue == RuleEntries(w, o)[j].otherValue
    ensures w == o
  {
    var e := RuleEntries(w, o);
    assert e[0].winnerValue == e[0].otherValue && e[1].winnerValue == e[1].otherValue;
    assert e[2].winnerValue == e[2].otherValue && e[3].winnerValue == e[3].otherValue;
    assert e[4].winnerValue == e[4].otherValue && e[5].winnerValue == e[5].otherValue;
    assert e[6].winnerValue == e[6].otherValue;
  }

  lemma FirstDifferenceExists(w: BranchScore, o: BranchScore)
    ensures w != o <==> exists i :: 0 <= i < 7 && FirstDifference(RuleEntries(w, o), i)
  {
    var e := RuleEntries(w, o);
    if w != o {
      if forall j :: 0 <= j < 7 ==> e[j].winnerValue == e[j].otherValue { AllValuesAgree(w, o); }
      var i := 0;
      while e[i].winnerValue == e[i].otherValue
        invariant 0 <= i < 7
        invariant forall j :: 0 <= j < i ==> e[j].winnerValue == e[j].otherValue
        decreases 7 - i
      {
        i := i + 1;
      }
      assert FirstDifference(e, i);
    }
  }

  /** Against any score it does not lose to, a score's trace marks exactly one
      rule decisive, the first differing one, and that rule favours it; the
      trace marks none only when the scores are equal. */
  lemma TraceDecision(w: BranchScore, o: BranchScore, winnerId: Id, otherId: Id)
    requires ScoreLe(o, w)
    ensures var t := RuleTrace(w, o, winnerId, otherId);
            && |t| == 7
            && (w == o <==> forall i :: 0 <= i < 7 ==> !t[i].decisive)
            && (w != o ==> exists i :: 0 <= i < 7 && t[i].decisive && RuleEntries(w, o)[i].ordering == Greater
                                       && forall j :: 0 <= j < 7 && t[j].decisive ==> j == i)
  {
    var t := RuleTrace(w, o, winnerId, otherId);
    FirstDifferenceExists(w, o);
    CompareScoresFlip(o, w);
    if i :| 0 <= i < 7 && FirstDifference(RuleEntries(w, o), i) {
      FirstDifferenceDecides(w, o, i);
      assert t[i].decisive;
      forall j | 0 <= j < 7 && t[j].decisive ensures j == i {}
    }
  }

  // ----- the simulator's reasons -----

  datatype Reason =
    | EffectiveDepth
    | QuorumTie
    | RawDepthTie
    | WitnessScoreTie
    | PriorityTie
    | CommitterTie
    | DigestTie
    | NotWinner

  function ReasonAgainst(expected: BranchScore, other: BranchScore): Reason {
    if expected.effectiveCommitDepth > other.effectiveCommitDepth then EffectiveDepth
    else if expected.effectiveCommitDepth == other.effectiveCommitDepth
      && expected.witnessQuorumMet && !other.witnessQuorumMet then QuorumTie
    else if expected.effectiveCommitDepth == other.effectiveCommitDepth
      && expected.witnessQuorumMet == other.witnessQuorumMet
      && expected.validCommitDepth > other.validCommitDepth then RawDepthTie
    else if expected.effectiveCommitDepth == other.effectiveCommitDepth
      && expected.witnessQuorumMet == other.witnessQuorumMet
      && expected.validCommitDepth == other.validCommitDepth
      && expected.appWitnessScore > other.appWitnessScore then WitnessScoreTie
    else if expected.effectiveCommitDepth == other.effectiveCommitDepth
      && expected.witnessQuorumMet == other.witnessQuorumMet
      && expected.validCommitDepth == other.validCommitDepth
      && expected.appWitnessScore == other.appWitnessScore
      && expected.tipPriority.Privileged? && other.tipPriority.Ordinary? then PriorityTie
    else if expected.effectiveCommitDepth == other.effectiveCommitDepth
      && expected.witnessQuorumMet == other.witnessQuorumMet
      && expected.validCommitDepth == other.validCommitDepth
      && expected.appWitnessScore == other.appWitnessScore
      && expected.tipPriority == other.tipPriority
      && BytesLt(expected.tipCommitter, other.tipCommitter) then CommitterTie
    else if expected.effectiveCommitDepth == other.effectiveCommitDepth
      && expected.witnessQuorumMet == other.witnessQuorumMet
      && expected.validCommitDepth == other.validCommitDepth
      && expected.appWitnessScore == other.appWitnessScore
      && expected.tipPriority == other.tipPriority
      && expected.tipCommitter == other.tipCommitter
      && BytesLt(expected.tipDigest, other.tipDigest) then DigestTie
    else NotWinner
  }

  function ReasonOfRule(rule: Rule): Reason {
    match rule
    case EffectiveCommitDepth => EffectiveDepth
    case WitnessQuorum => QuorumTie
    case ValidCommitDepth => RawDepthTie
    case WitnessScore => WitnessScoreTie
    case TipPriority => PriorityTie
    case TipCommitter => CommitterTie
    case TipDigest => DigestTie
  }

  /** The simulator's reason is the engine's decisive rule, and "not winner"
      is exactly a comparison that does not come out greater. */
  lemma ReasonIsDecisiveRule(w: BranchScore, o: BranchScore, winnerId: Id, otherId: Id)
    ensures ReasonAgainst(w, o) == NotWinner <==> CompareScores(w, o) != Greater
    ensures CompareScores(w, o) == Greater ==>
              forall i :: 0 <= i < 7 && RuleTrace(w, o, winnerId, otherId)[i].decisive ==>
                            ReasonAgainst(w, o) == ReasonOfRule(RuleTrace(w, o, winnerId, otherId)[i].rule)
  {
    CompareBytesFlip(w.tipCommitter, o.tipCommitter);
    CompareBytesFlip(w.tipDigest, o.tipDigest);
    var t := RuleTrace(w, o, winnerId, otherId);
    if CompareScores(w, o) == Greater {
      forall i | 0 <= i < 7 && t[i].decisive ensures ReasonAgainst(w, o) == ReasonOfRule(t[i].rule) {
        var e := RuleEntries(w, o);
        FirstDifferenceDecides(w, o, i);
        assert i == 0 || i == 1 || i == 2 || i == 3 || i == 4 || i == 5 || i == 6;
        assert i > 0 ==> e[0].winnerValue == e[0].otherValue;
        assert i > 1 ==> e[1].winnerValue == e[1].otherValue;
        assert i > 2 ==> e[2].winnerValue == e[2].otherValue;
        assert i > 3 ==> e[3].winnerValue == e[3].otherValue;
        assert i > 4 ==> e[4].winnerValue == e[4].otherValue;
        assert i > 5 ==> e[5].winnerValue == e[5].otherValue;
      }
    }
  }

  // ----- the traced selection -----

  datatype RejectionReason = BeyondRewindHorizon

  datatype CandidateEvaluation = CandidateEvaluation(
    candidate: BranchCandidate,
    eligible: bool,
    rejectionReasons: seq<RejectionReason>,
    score: BranchScore)

  datatype BranchSelectionTrace = BranchSelectionTrace(
    selectedBranchId: Option<Id>,
    candidates: seq<CandidateEvaluation>,
    ruleTrace: seq<RuleEvaluation>,
    losingBranchIds: seq<Id>)

  predicate CandidateIdLe(a: BranchCandidate, b: BranchCandidate) {
    BytesLe(a.id, b.id)
  }

  predicate WitnessLe(a: AppWitness, b: AppWitness) {
    a.epoch < b.epoch || (a.epoch == b.epoch && BytesLe(a.sender, b.sender))
  }

  /** Everything about a candidate, its witnesses in (epoch, sender) order. */
  function Evaluate(tip: u64, c: BranchCandidate, policy: ConvergencePolicy): CandidateEvaluation {
    CandidateEvaluation(
      c.(appWitnesses := Sort(c.appWitnesses, WitnessLe)),
      Eligible(tip, c, policy),
      if Eligible(tip, c, policy) then [] else [BeyondRewindHorizon],
      Score(c, policy))
  }

  function Evaluations(tip: u64, cs: seq<BranchCandidate>, policy: ConvergencePolicy): seq<CandidateEvaluation> {
    if cs == [] then [] else Evaluations(tip, cs[..|cs| - 1], policy) + [Evaluate(tip, cs[|cs| - 1], policy)]
  }

  function Without(cs: seq<BranchCandidate>, id: Id): seq<BranchCandidate> {
    if cs == [] then [] else
      var rest := Without(cs[..|cs| - 1], id);
      if cs[|cs| - 1].id == id then rest else rest + [cs[|cs| - 1]]
  }

  function IdsExcept(cs: seq<BranchCandidate>, selected: Option<Id>): seq<Id> {
    if cs == [] then [] else
      var rest := IdsExcept(cs[..|cs| - 1], selected);
      if selected == Some(cs[|cs| - 1].id) then rest else rest + [cs[|cs| - 1].id]
  }

  function SelectTraced(tip: u64, cs: seq<BranchCandidate>, policy: ConvergencePolicy): BranchSelectionTrace {
    var ordered := Sort(cs, CandidateIdLe);
    var selected := Select(tip, cs, policy);
    var selectedId := if selected.Some? then Some(selected.value.id) else None;
    var runnerUp := if selected.Some? then Select(tip, Without(ordered, selected.value.id), policy) else None;
    BranchSelectionTrace(
      selectedId,
      Evaluations(tip, ordered, policy),
      if runnerUp.Some? then
        RuleTrace(Score(selected.value, policy), Score(runnerUp.value, policy), selected.value.id, runnerUp.value.id)
      else [],
      IdsExcept(ordered, selectedId))
  }

  lemma {:induction false} WithoutElements(cs: seq<BranchCandidate>, id: Id)
    ensures forall c :: c in Without(cs, id) <==> c in cs && c.id != id
  {
    if cs != [] {
      var n := |cs| - 1;
      WithoutElements(cs[..n], id);
      assert cs == cs[..n] + [cs[n]];
    }
  }

  lemma CandidateIdPreorder()
    ensures TotalPreorder(CandidateIdLe)
  {
    forall a, b ensures CandidateIdLe(a, b) || CandidateIdLe(b, a) { BytesLeTotal(a.id, b.id); }
    forall a, b, c | CandidateIdLe(a, b) && CandidateIdLe(b, c) ensures CandidateIdLe(a, c) {
      BytesLeTransitive(a.id, b.id, c.id);
    }
  }

  lemma WitnessOrder()
    ensures TotalOrder(WitnessLe)
  {
    forall a, b ensures WitnessLe(a, b) || WitnessLe(b, a) { BytesLeTotal(a.sender, b.sender); }
    forall a, b | WitnessLe(a, b) && WitnessLe(b, a) ensures a == b { BytesLeAntisymmetric(a.sender, b.sender); }
    forall a, b, c | WitnessLe(a, b) && WitnessLe(b, c) ensures WitnessLe(a, c) {
      if a.epoch == b.epoch == c.epoch { BytesLeTransitive(a.sender, b.sender, c.sender); }
    }
  }

  /** The trace names the branch the plain selection takes, and its rule trace
      compares that winner with an eligible branch it does not lose to: no
      eligible branch other than the winner beats the one it is compared with. */
  lemma TraceMatchesSelection(tip: u64, cs: seq<BranchCandidate>, policy: ConvergencePolicy)
    ensures var t := SelectTraced(tip, cs, policy);
            var s := Select(tip, cs, policy);
            && t.selectedBranchId == (if s.Some? then Some(s.value.id) else None)
            && (t.ruleTrace == [] <==>
                !exists a, b :: a in cs && b in cs && a.id != b.id && s == Some(a) && Eligible(tip, b, policy))
            && (t.ruleTrace != [] ==>
                exists r :: && r in cs && r.id != s.value.id && Eligible(tip, r, policy)
                            && ScoreLe(Score(r, policy), Score(s.value, policy))
                            && (forall c :: c in cs && c.id != s.value.id && Eligible(tip, c, policy) ==>
                                              ScoreLe(Score(c, policy), Score(r, policy)))
                            && t.ruleTrace == RuleTrace(Score(s.value, policy), Score(r, policy), s.value.id, r.id))
  {
    var t := SelectTraced(tip, cs, policy);
    var s := Select(tip, cs, policy);
    CandidateIdPreorder();
    SortElements(cs, CandidateIdLe);
    if s.Some? {
      var others := Without(Sort(cs, CandidateIdLe), s.value.id);
      WithoutElements(Sort(cs, CandidateIdLe), s.value.id);
      assert s.value in cs;
      var r := Select(tip, others, policy);
      if r.Some? {
        assert r.value in others;
        assert t.ruleTrace == RuleTrace(Score(s.value, policy), Score(r.value, policy), s.value.id, r.value.id);
        assert |t.ruleTrace| == 7;
        forall c | c in cs && c.id != s.value.id && Eligible(tip, c, policy)
          ensures ScoreLe(Score(c, policy), Score(r.value, policy))
        {
          assert c in others;
        }
      } else {
        forall b | b in cs && b.id != s.value.id ensures !Eligible(tip, b, policy) {
          assert b in others;
        }
      }
    }
  }

  // ----- candidates that differ only in the order of their witnesses -----

  ghost predicate Similar(c: BranchCandidate, d: BranchCandidate) {
    && c.(appWitnesses := []) == d.(appWitnesses := [])
    && multiset(c.appWitnesses) == multiset(d.appWitnesses)
  }

  ghost predicate SimilarSeq(cs: seq<BranchCandidate>, ds: seq<BranchCandidate>) {
    |cs| == |ds| && forall i :: 0 <= i < |cs| ==> Similar(cs[i], ds[i])
  }

  lemma SimilarEvaluate(tip: u64, c: BranchCandidate, d: BranchCandidate, policy: ConvergencePolicy)
    requires Similar(c, d)
    ensures Evaluate(tip, c, policy) == Evaluate(tip, d, policy)
    ensures Score(c, policy) == Score(d, policy)
  {
    forall w ensures w in c.appWitnesses <==> w in d.appWitnesses {
      assert w in c.appWitnesses <==> w in multiset(c.appWitnesses);
    }
    WitnessSetDecides(c.appWitnesses, d.appWitnesses, policy);
    WitnessOrder();
    SortPermutation(c.appWitnesses, d.appWitnesses, WitnessLe);
  }

  lemma SimilarSelect(tip: u64, cs: seq<BranchCandidate>, ds: seq<BranchCandidate>, policy: ConvergencePolicy)
    requires SimilarSeq(cs, ds)
    ensures SelectIndex(tip, cs, policy) == SelectIndex(tip, ds, policy)
  {
    forall i | 0 <= i < |cs| ensures Score(cs[i], policy) == Score(ds[i], policy) {
      SimilarEvaluate(tip, cs[i], ds[i], policy);
    }
    var r := SelectIndex(tip, cs, policy);
    if r.Some? {
      assert LastMaximum(tip, ds, policy, r.value);
      LastMaximumUnique(tip, ds, policy, r.value);
    }
  }

  lemma {:induction false} SimilarParts(tip: u64, cs: seq<BranchCandidate>, ds: seq<BranchCandidate>,
                                        policy: ConvergencePolicy, selected: Option<Id>, id: Id)
    requires SimilarSeq(cs, ds)
    ensures Evaluations(tip, cs, policy) == Evaluations(tip, ds, policy)
    ensures SimilarSeq(Without(cs, id), Without(ds, id))
    ensures IdsExcept(cs, selected) == IdsExcept(ds, selected)
  {
    if cs != [] {
      var n := |cs| - 1;
      SimilarParts(tip, cs[..n], ds[..n], policy, selected, id);
      SimilarEvaluate(tip, cs[n], ds[n], policy);
    }
  }

  lemma {:induction false} SimilarInsert(c: BranchCandidate, d: BranchCandidate, cs: seq<BranchCandidate>,
                                         ds: seq<BranchCandidate>)
    requires Similar(c, d) && SimilarSeq(cs, ds)
    ensures SimilarSeq(Insert(c, cs, CandidateIdLe), Insert(d, ds, CandidateIdLe))
  {
    if cs != [] {
      assert Similar(cs[0], ds[0]);
      SameId(c, d);
      SameId(cs[0], ds[0]);
      if !CandidateIdLe(c, cs[0]) { SimilarInsert(c, d, cs[1..], ds[1..]); }
    }
  }

  lemma SameId(c: BranchCandidate, d: BranchCandidate)
    requires Similar(c, d)
    ensures c.id == d.id
  {
    assert c.(appWitnesses := []).id == d.(appWitnesses := []).id;
  }

  lemma {:induction false} SimilarSort(cs: seq<BranchCandidate>, ds: seq<BranchCandidate>)
    requires SimilarSeq(cs, ds)
    ensures SimilarSeq(Sort(cs, CandidateIdLe), Sort(ds, CandidateIdLe))
  {
    if cs != [] {
      SimilarSort(cs[1..], ds[1..]);
      SimilarInsert(cs[0], ds[0], Sort(cs[1..], CandidateIdLe), Sort(ds[1..], CandidateIdLe));
    }
  }

  /** The trace reads witnesses only as a multiset. */
  lemma SimilarTrace(tip: u64, cs: seq<BranchCandidate>, ds: seq<BranchCandidate>, policy: ConvergencePolicy)
    requires SimilarSeq(cs, ds)
    ensures SelectTraced(tip, cs, policy) == SelectTraced(tip, ds, policy)
  {
    var oc, od := Sort(cs, CandidateIdLe), Sort(ds, CandidateIdLe);
    SimilarSort(cs, ds);
    SimilarSelect(tip, cs, ds, policy);
    var s, s' := Select(tip, cs, policy), Select(tip, ds, policy);
    if s.Some? {
      var i := SelectIndex(tip, cs, policy).value;
      SimilarEvaluate(tip, cs[i], ds[i], policy);
      SimilarParts(tip, oc, od, policy, Some(s.value.id), s.value.id);
      var wc, wd := Without(oc, s.value.id), Without(od, s.value.id);
      SimilarSelect(tip, wc, wd, policy);
      var r := SelectIndex(tip, wc, policy);
      if r.Some? {
        SimilarEvaluate(tip, wc[r.value], wd[r.value], policy);
      }
    } else {
      SimilarParts(tip, oc, od, policy, None, []);
    }
  }

  ghost predicate IdsDecide(cs: seq<BranchCandidate>) {
    forall a, b :: a in cs && b in cs && a.id == b.id ==> a == b
  }

  lemma TracePermutation(tip: u64, cs: seq<BranchCandidate>, ds: seq<BranchCandidate>, policy: ConvergencePolicy)
    requires multiset(cs) == multiset(ds) && IdsDecide(cs) && BestScoreUnshared(tip, cs, policy)
    ensures SelectTraced(tip, cs, policy) == SelectTraced(tip, ds, policy)
  {
    CandidateIdPreorder();
    forall a, b | a in cs && b in cs && CandidateIdLe(a, b) && CandidateIdLe(b, a) ensures a == b {
      BytesLeAntisymmetric(a.id, b.id);
    }
    SortPermutation(cs, ds, CandidateIdLe);
    SelectOrderFreeIffUnshared(tip, cs, policy);
  }

  lemma SameTraceSameSelection(tip: u64, cs: seq<BranchCandidate>, ds: seq<BranchCandidate>, policy: ConvergencePolicy)
    requires multiset(cs) == multiset(ds) && IdsDecide(cs)
    requires SelectTraced(tip, cs, policy).selectedBranchId == SelectTraced(tip, ds, policy).selectedBranchId
    ensures Select(tip, cs, policy) == Select(tip, ds, policy)
  {
    TraceMatchesSelection(tip, cs, policy);
    TraceMatchesSelection(tip, ds, policy);
    var s, t := Select(tip, cs, policy), Select(tip, ds, policy);
    if t.Some? {
      assert s.value in cs;
      assert t.value in multiset(ds);
      assert t.value in cs;
    }
  }

  /** Where ids tell candidates apart, the whole trace is a function of the
      candidate set exactly when the best score is not shared. */
  lemma TraceOrderFreeIff(tip: u64, cs: seq<BranchCandidate>, policy: ConvergencePolicy)
    requires IdsDecide(cs)
    ensures BestScoreUnshared(tip, cs, policy) <==>
            forall ds :: multiset(ds) == multiset(cs) ==> SelectTraced(tip, ds, policy) == SelectTraced(tip, cs, policy)
  {
    if BestScoreUnshared(tip, cs, policy) {
      forall ds | multiset(ds) == multiset(cs) ensures SelectTraced(tip, ds, policy) == SelectTraced(tip, cs, policy) {
        TracePermutation(tip, cs, ds, policy);
      }
    } else {
      SelectOrderFreeIffUnshared(tip, cs, policy);
      var ds :| multiset(ds) == multiset(cs) && Select(tip, ds, policy) != Select(tip, cs, policy);
      if SelectTraced(tip, ds, policy) == SelectTraced(tip, cs, policy) { SameTraceSameSelection(tip, cs, ds, policy); }
    }
  }
}
