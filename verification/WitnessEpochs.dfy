/** Which app messages count as witnesses. The protocol text
    (spec/protocol-core/convergence.md) admits a message only at one of the
    branch's own epochs, above its fork epoch and up to its tip; the code admits
    any unexpired message that names the branch. */
module WitnessEpochs {
  import opened Orders
  import opened Convergence
  import opened Messages
  import opened Materialization
  import opened Canonicalization

  predicate InBranchEpochs(c: BranchCandidate, epoch: u64) {
    c.forkEpoch < epoch <= c.tipEpoch
  }

  /** The message names the branch and is inside its retention window. */
  predicate Speaks(policy: CanonicalizationPolicy, c: BranchCandidate, m: PeeledMessage) {
    m.kind.AppMessage? && c.id in m.kind.decryptsOnBranches && !AppMessageExpired(c.tipEpoch, policy, m.kind.epoch)
  }

  function Gained(policy: CanonicalizationPolicy, c: BranchCandidate, unique: seq<PeeledMessage>): seq<AppWitness> {
    FlatMap(unique, WitnessCollector(policy, c.id, c.tipEpoch))
  }

  lemma {:induction false} CopiesForIff(branches: seq<Id>, id: Id, w: AppWitness, x: AppWitness)
    ensures x in CopiesFor(branches, id, w) <==> id in branches && x == w
  {
    if branches != [] {
      var n := |branches| - 1;
      assert branches == branches[..n] + [branches[n]];
      CopiesForIff(branches[..n], id, w, x);
    }
  }

  /** A branch's witnesses are exactly those of the messages that speak for it. */
  lemma GainedIff(policy: CanonicalizationPolicy, c: BranchCandidate, unique: seq<PeeledMessage>, x: AppWitness)
    ensures x in Gained(policy, c, unique) <==>
            exists m :: m in unique && Speaks(policy, c, m) && x == AppWitness(m.kind.epoch, m.sender)
  {
    var f := WitnessCollector(policy, c.id, c.tipEpoch);
    FlatMapElement(unique, f, x);
    forall m | m in unique ensures x in f(m) <==> Speaks(policy, c, m) && x == AppWitness(m.kind.epoch, m.sender) {
      if m.kind.AppMessage? {
        CopiesForIff(m.kind.decryptsOnBranches, c.id, AppWitness(m.kind.epoch, m.sender), x);
      }
    }
  }

  ghost predicate AllInside(c: BranchCandidate, ws: seq<AppWitness>) {
    forall w :: w in ws ==> InBranchEpochs(c, w.epoch)
  }

  ghost predicate AllSpeakInside(policy: CanonicalizationPolicy, c: BranchCandidate, unique: seq<PeeledMessage>) {
    forall m :: m in unique && Speaks(policy, c, m) ==> InBranchEpochs(c, m.kind.epoch)
  }

  lemma GainedInsideIff(policy: CanonicalizationPolicy, c: BranchCandidate, unique: seq<PeeledMessage>)
    ensures AllInside(c, Gained(policy, c, unique)) <==> AllSpeakInside(policy, c, unique)
  {
    if AllInside(c, Gained(policy, c, unique)) {
      forall m | m in unique && Speaks(policy, c, m) ensures InBranchEpochs(c, m.kind.epoch) {
        GainedIff(policy, c, unique, AppWitness(m.kind.epoch, m.sender));
      }
    }
    if AllSpeakInside(policy, c, unique) {
      forall w | w in Gained(policy, c, unique) ensures InBranchEpochs(c, w.epoch) {
        GainedIff(policy, c, unique, w);
      }
    }
  }

  /** A candidate gains a witness at or below its fork epoch, or above its tip,
      exactly when a kept message that names it and is unexpired against its
      tip lies there. */
  lemma GainedOutsideIff(policy: CanonicalizationPolicy, c: BranchCandidate, unique: seq<PeeledMessage>)
    ensures (exists w :: w in Gained(policy, c, unique) && w.epoch <= c.forkEpoch) <==>
            (exists m :: m in unique && Speaks(policy, c, m) && m.kind.epoch <= c.forkEpoch)
    ensures (exists w :: w in Gained(policy, c, unique) && w.epoch > c.tipEpoch) <==>
            (exists m :: m in unique && Speaks(policy, c, m) && m.kind.epoch > c.tipEpoch)
  {
    if w :| w in Gained(policy, c, unique) && (w.epoch <= c.forkEpoch || w.epoch > c.tipEpoch) {
      forall x | x in Gained(policy, c, unique)
        ensures exists m :: m in unique && Speaks(policy, c, m) && x == AppWitness(m.kind.epoch, m.sender)
      {
        GainedIff(policy, c, unique, x);
      }
    }
    forall m | m in unique && Speaks(policy, c, m)
      ensures AppWitness(m.kind.epoch, m.sender) in Gained(policy, c, unique)
    {
      GainedIff(policy, c, unique, AppWitness(m.kind.epoch, m.sender));
    }
  }

  // ----- the pass against the protocol text -----

  function OnlyInside(c: BranchCandidate, ws: seq<AppWitness>): (r: seq<AppWitness>)
    ensures |r| <= |ws| && (|r| == |ws| ==> r == ws)
    ensures forall w :: w in r <==> w in ws && InBranchEpochs(c, w.epoch)
  {
    if ws == [] then [] else
      var n := |ws| - 1;
      assert ws == ws[..n] + [ws[n]];
      OnlyInside(c, ws[..n]) + (if InBranchEpochs(c, ws[n].epoch) then [ws[n]] else [])
  }

  /** The candidate with the witnesses the protocol text admits. */
  function AsWritten(c: BranchCandidate): BranchCandidate {
    c.(appWitnesses := OnlyInside(c, c.appWitnesses))
  }

  function AllAsWritten(cs: seq<BranchCandidate>): seq<BranchCandidate> {
    seq(|cs|, i requires 0 <= i < |cs| => AsWritten(cs[i]))
  }

  lemma {:induction false} OnlyInsideIdle(c: BranchCandidate, ws: seq<AppWitness>)
    ensures OnlyInside(c, ws) == ws <==> AllInside(c, ws)
  {
    if ws != [] {
      var n := |ws| - 1;
      assert ws == ws[..n] + [ws[n]];
      OnlyInsideIdle(c, ws[..n]);
      if AllInside(c, ws) { assert AllInside(c, ws[..n]) && ws[n] in ws; }
    }
  }

  lemma AsWrittenIff(policy: CanonicalizationPolicy, c: BranchCandidate, unique: seq<PeeledMessage>)
    ensures AsWritten(WithWitnesses(policy, c, unique)) == WithWitnesses(policy, c, unique) <==>
            AllInside(c, c.appWitnesses) && AllSpeakInside(policy, c, unique)
  {
    var full := WithWitnesses(policy, c, unique);
    OnlyInsideIdle(full, full.appWitnesses);
    GainedInsideIff(policy, c, unique);
    assert full.appWitnesses == c.appWitnesses + Gained(policy, c, unique);
    assert AllInside(full, full.appWitnesses) <==>
           AllInside(c, c.appWitnesses) && AllInside(c, Gained(policy, c, unique));
  }

  /** A pass reads the witnesses the protocol text admits exactly when, for
      every branch of its graph, the witnesses it came with and the kept
      messages that speak for it all lie at the branch's epochs. */
  lemma PassAsWrittenIff(input: CanonicalizationInput, replayed: seq<MaterializedCandidate>)
    ensures AllAsWritten(PassCandidates(input, replayed)) == PassCandidates(input, replayed) <==>
            forall c :: c in GraphCandidates(PassGraph(input, replayed)) ==>
                          && AllInside(c, c.appWitnesses)
                          && AllSpeakInside(input.policy, c, Unique(input.pendingMessages, input.state.seenMessageIds))
  {
    WitnessedAsWrittenIff(input.policy, GraphCandidates(PassGraph(input, replayed)),
                          Unique(input.pendingMessages, input.state.seenMessageIds));
  }

  lemma WitnessedAsWrittenIff(policy: CanonicalizationPolicy, base: seq<BranchCandidate>, unique: seq<PeeledMessage>)
    ensures AllAsWritten(Witnessed(policy, base, unique)) == Witnessed(policy, base, unique) <==>
            forall c :: c in base ==> AllInside(c, c.appWitnesses) && AllSpeakInside(policy, c, unique)
  {
    var cs := Witnessed(policy, base, unique);
    forall i | 0 <= i < |base|
      ensures AllAsWritten(cs)[i] == cs[i] <==>
              AllInside(base[i], base[i].appWitnesses) && AllSpeakInside(policy, base[i], unique)
    {
      AsWrittenIff(policy, base[i], unique);
    }
    if AllAsWritten(cs) == cs {
      forall c | c in base ensures AllInside(c, c.appWitnesses) && AllSpeakInside(policy, c, unique) {
        var i :| 0 <= i < |base| && base[i] == c;
        assert AllAsWritten(cs)[i] == cs[i];
      }
    }
  }

  // ----- a message outside the branch epochs that decides the selection -----

  const POLICY := CanonicalizationPolicy(ConvergencePolicy(5, 1, 1, 2), 5, 1000)

  function Seed(id: Id, tip: u64): BranchCandidate {
    BranchCandidate(id, 0, tip, Ordinary, [], seq(32, _ => 0), [])
  }

  /** Branch `a` is one commit deep, branch `b` two. */
  function TwoBranches(a: Id, b: Id, m: PeeledMessage): CanonicalizationInput {
    CanonicalizationInput(CanonicalizationState(0, 0, 0, {}), [m], [], [Seed(a, 1), Seed(b, 2)], POLICY, 1000)
  }

  lemma TwoBranchesGraph(a: Id, b: Id, m: PeeledMessage)
    requires a != b && m.kind.AppMessage?
    ensures PassGraph(TwoBranches(a, b, m), []) == map[a := SeedBranch(Seed(a, 1)), b := SeedBranch(Seed(b, 2))]
    ensures Unique([m], {}) == [m]
  {
    var seeds := [Seed(a, 1), Seed(b, 2)];
    assert [m][..0] == [] && Unique([m][..0], {}) == [] && IdsIn([m][..0]) == {};
    assert CommitsOf([m][..0]) == [] && CommitsOf([m]) == [];
    assert seeds[..1] == [Seed(a, 1)] && seeds[..1][..0] == [];
    assert SeedGraph([Seed(a, 1)]) == map[a := SeedBranch(Seed(a, 1))];
    assert SeedGraph(seeds) == map[a := SeedBranch(Seed(a, 1)), b := SeedBranch(Seed(b, 2))];
  }

  /** Of two candidates, the one that compares greater is selected. */
  lemma GreaterSelected(tip: u64, cs: seq<BranchCandidate>, policy: ConvergencePolicy, x: BranchCandidate,
                        y: BranchCandidate)
    requires x in cs && Eligible(tip, x, policy) && CompareScores(Score(x, policy), Score(y, policy)) == Greater
    requires forall c :: c in cs ==> c == x || c == y
    ensures Select(tip, cs, policy) == Some(x)
  {
    var k :| 0 <= k < |cs| && cs[k] == x;
    var i := SelectIndex(tip, cs, policy);
    assert i.Some?;
    assert ScoreLe(Score(cs[k], policy), Score(cs[i.value], policy));
    assert cs[i.value] in cs;
  }

  lemma QuorumOfOne(w: AppWitness)
    ensures WitnessQuorumMet([w], POLICY.convergence) && !WitnessQuorumMet([], POLICY.convergence)
  {
    var ws := [w];
    assert w in ws;
    assert SendersAt(ws, w.epoch) == {w.sender};
    assert QuorumEpochs(WitnessesByEpoch(ws), 1) == {w.epoch};
    assert WitnessesByEpoch([]) == map[];
    assert QuorumEpochs(map[], 1) == {};
  }

  lemma GraphOfTwo(g: Graph, a: Id, b: Id)
    requires g.Keys == {a, b}
    ensures g[a].candidate in GraphCandidates(g) && g[b].candidate in GraphCandidates(g)
    ensures forall c :: c in GraphCandidates(g) ==> c == g[a].candidate || c == g[b].candidate
  {
    var keys, cs := SortedKeys(g.Keys), GraphCandidates(g);
    assert a in keys && b in keys;
    var i :| 0 <= i < |keys| && keys[i] == a;
    var j :| 0 <= j < |keys| && keys[j] == b;
    assert cs[i] == g[a].candidate && cs[j] == g[b].candidate;
    forall c | c in cs ensures c == g[a].candidate || c == g[b].candidate {
      var k :| 0 <= k < |cs| && cs[k] == c;
      assert keys[k] in keys;
    }
  }

  lemma WitnessedOfTwo(policy: CanonicalizationPolicy, base: seq<BranchCandidate>, unique: seq<PeeledMessage>,
                       x: BranchCandidate, y: BranchCandidate)
    requires x in base && y in base && forall c :: c in base ==> c == x || c == y
    ensures var cs, x', y' := Witnessed(policy, base, unique), WithWitnesses(policy, x, unique),
              WithWitnesses(policy, y, unique);
            x' in cs && y' in cs && forall c :: c in cs ==> c == x' || c == y'
  {
    var cs := Witnessed(policy, base, unique);
    var i :| 0 <= i < |base| && base[i] == x;
    var j :| 0 <= j < |base| && base[j] == y;
    assert cs[i] == WithWitnesses(policy, x, unique) && cs[j] == WithWitnesses(policy, y, unique);
    forall c | c in cs ensures c == cs[i] || c == cs[j] {
      var k :| 0 <= k < |cs| && cs[k] == c;
      assert base[k] in base;
    }
  }

  lemma TwoBases(a: Id, b: Id, m: PeeledMessage)
    requires a != b && m.kind.AppMessage?
    ensures var base := GraphCandidates(PassGraph(TwoBranches(a, b, m), []));
            Seed(a, 1) in base && Seed(b, 2) in base && forall c :: c in base ==> c == Seed(a, 1) || c == Seed(b, 2)
  {
    TwoBranchesGraph(a, b, m);
    GraphOfTwo(PassGraph(TwoBranches(a, b, m), []), a, b);
  }

  lemma TwoCandidates(a: Id, b: Id, m: PeeledMessage)
    requires a != b && m.kind.AppMessage? && m.kind.decryptsOnBranches == [a]
    ensures var cs := PassCandidates(TwoBranches(a, b, m), []);
            var x := Seed(a, 1).(appWitnesses := [AppWitness(m.kind.epoch, m.sender)]);
            x in cs && Seed(b, 2) in cs && forall c :: c in cs ==> c == x || c == Seed(b, 2)
  {
    TwoBases(a, b, m);
    var base := GraphCandidates(PassGraph(TwoBranches(a, b, m), []));
    WitnessedOfTwo(POLICY, base, [m], Seed(a, 1), Seed(b, 2));
    TwoBranchesGraph(a, b, m);
    WitnessOfOne(POLICY, Seed(a, 1), m);
    WitnessOfOne(POLICY, Seed(b, 2), m);
  }

  lemma WitnessOfOne(policy: CanonicalizationPolicy, c: BranchCandidate, m: PeeledMessage)
    requires m.kind.AppMessage? && |m.kind.decryptsOnBranches| == 1 && c.appWitnesses == []
    requires !AppMessageExpired(c.tipEpoch, policy, m.kind.epoch)
    ensures WithWitnesses(policy, c, [m])
            == if m.kind.decryptsOnBranches[0] != c.id then c
               else c.(appWitnesses := [AppWitness(m.kind.epoch, m.sender)])
  {
    FlatMapSingle(m, WitnessCollector(policy, c.id, c.tipEpoch));
    assert m.kind.decryptsOnBranches[..0] == [];
    assert CopiesFor(m.kind.decryptsOnBranches[..0], c.id, AppWitness(m.kind.epoch, m.sender)) == [];
  }

  lemma BoostDecides(a: Id, b: Id, w: AppWitness)
    ensures var x, y := Seed(a, 1).(appWitnesses := [w]), Seed(b, 2);
            && CompareScores(Score(x, POLICY.convergence), Score(y, POLICY.convergence)) == Greater
            && CompareScores(Score(y, POLICY.convergence), Score(Seed(a, 1), POLICY.convergence)) == Greater
  {
    QuorumOfOne(w);
  }

  lemma SelectedId(input: CanonicalizationInput, x: BranchCandidate)
    requires Select(input.state.currentTipEpoch, PassCandidates(input, []), input.policy.convergence) == Some(x)
    ensures Canonicalize(input).selectedBranchId == Some(x.id)
  {
  }

  /** One message outside the epochs of the shorter branch, at the fork epoch or
      above the tip: the pass selects the shorter branch, while with the
      witnesses the protocol text admits the longer one wins. */
  lemma OutsideWitnessDecides(a: Id, b: Id, m: PeeledMessage)
    requires a != b && m.kind.AppMessage? && m.kind.decryptsOnBranches == [a]
    requires !InBranchEpochs(Seed(a, 1), m.kind.epoch)
    ensures var input := TwoBranches(a, b, m);
            && Canonicalize(input).selectedBranchId == Some(a)
            && Select(0, AllAsWritten(PassCandidates(input, [])), POLICY.convergence) == Some(Seed(b, 2))
  {
    var input := TwoBranches(a, b, m);
    var cs, w := PassCandidates(input, []), AppWitness(m.kind.epoch, m.sender);
    var x, y := Seed(a, 1).(appWitnesses := [w]), Seed(b, 2);
    TwoCandidates(a, b, m);
    BoostDecides(a, b, w);
    GreaterSelected(0, cs, POLICY.convergence, x, y);
    SelectedId(input, x);
    TwoAsWritten(a, b, w);
    AsWrittenOfTwo(cs, x, y);
    GreaterSelected(0, AllAsWritten(cs), POLICY.convergence, y, Seed(a, 1));
  }

  lemma TwoAsWritten(a: Id, b: Id, w: AppWitness)
    requires !InBranchEpochs(Seed(a, 1), w.epoch)
    ensures AsWritten(Seed(a, 1).(appWitnesses := [w])) == Seed(a, 1) && AsWritten(Seed(b, 2)) == Seed(b, 2)
  {
    assert [w][..0] == [];
  }

  lemma AsWrittenOfTwo(cs: seq<BranchCandidate>, x: BranchCandidate, y: BranchCandidate)
    requires y in cs && forall c :: c in cs ==> c == x || c == y
    ensures AsWritten(y) in AllAsWritten(cs) && forall c :: c in AllAsWritten(cs) ==>
              c == AsWritten(x) || c == AsWritten(y)
  {
    var k :| 0 <= k < |cs| && cs[k] == y;
    assert AllAsWritten(cs)[k] == AsWritten(y);
    forall c | c in AllAsWritten(cs) ensures c == AsWritten(x) || c == AsWritten(y) {
      var i :| 0 <= i < |cs| && AllAsWritten(cs)[i] == c;
      assert cs[i] in cs;
    }
  }
}
