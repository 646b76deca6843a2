/** What further messages do to a pass: as long as they take no entrant's place
    they add branches and witnesses, change none, and never lower the winning
    score. With distinct branch ids they never take one's place. */
module LargerBatches {
  import opened Orders
  import opened Convergence
  import opened Messages
  import opened Materialization
  import opened Canonicalization
  import opened OrderInvariance
  import opened Dispositions

  ghost predicate Within(ms: seq<PeeledMessage>, ns: seq<PeeledMessage>) {
    forall m :: m in ms ==> m in ns
  }

  /** Commits in sweep order. */
  ghost predicate Swept(ms: seq<PeeledMessage>) {
    DistinctIds(ms) && EpochSorted(ms)
  }

  lemma FewerStayDistinct(roots: Graph, ms: seq<PeeledMessage>, ns: seq<PeeledMessage>)
    requires DistinctIds(ms) && Within(ms, ns) && DistinctNewBranches(roots, ns)
    ensures DistinctNewBranches(roots, ms)
  {
    forall i | 0 <= i < |ms| && ms[i].kind.Commit? ensures ms[i].kind.branchId !in roots {
      assert ms[i] in ns;
    }
    forall i, j | 0 <= i < j < |ms| && ms[i].kind.Commit? && ms[j].kind.Commit?
      ensures ms[i].kind.branchId != ms[j].kind.branchId
    {
      assert ms[i] in ns && ms[j] in ns;
      var k :| 0 <= k < |ns| && ns[k] == ms[i];
      var l :| 0 <= l < |ns| && ns[l] == ms[j];
      assert k != l;
    }
  }

  /** Whatever entered still enters. */
  lemma EntrantsGrow(w: RollbackWindow, roots: Graph, ms: seq<PeeledMessage>, ns: seq<PeeledMessage>)
    requires Swept(ms) && Swept(ns) && Within(ms, ns) && DistinctNewBranches(roots, ns)
    ensures Entrants(w, roots, ms) <= Entrants(w, roots, ns)
  {
    FewerStayDistinct(roots, ms, ns);
    EntrantsAreLeastClosed(w, roots, ns, {});
    assert Closed(w, roots, ms, Entrants(w, roots, ns));
    EntrantsAreLeastClosed(w, roots, ms, Entrants(w, roots, ns));
  }

  ghost predicate SameBranch(g: Graph, h: Graph, b: Id) {
    b in g && b in h && g[b] == h[b]
  }

  /** A commit whose parent has the same branch in both graphs grows the same branch. */
  lemma GrowsSame(w: RollbackWindow, roots: Graph, ms: seq<PeeledMessage>, ns: seq<PeeledMessage>, k: nat, l: nat)
    requires k < |ms| && l < |ns| && ms[k] == ns[l] && Enters(w, roots, ms, k) && Enters(w, roots, ns, l)
    requires var p := ms[k].kind.parentBranchId;
             p.Some? ==> SameBranch(Pass(w, roots, ms), Pass(w, roots, ns), p.value)
    ensures SameBranch(Pass(w, roots, ms), Pass(w, roots, ns), ms[k].kind.branchId)
  {
    EntryValue(w, roots, ms, k);
    EntryValue(w, roots, ns, l);
    PassExtends(w, roots, ms, k);
    PassExtends(w, roots, ns, l);
  }

  lemma {:induction false} EntrySame(w: RollbackWindow, roots: Graph, ms: seq<PeeledMessage>, ns: seq<PeeledMessage>,
                                     k: nat)
    requires Entrants(w, roots, ms) <= Entrants(w, roots, ns) && k < |ms| && Enters(w, roots, ms, k)
    ensures SameBranch(Pass(w, roots, ms), Pass(w, roots, ns), ms[k].kind.branchId)
    decreases k
  {
    assert ms[k] in Entrants(w, roots, ms);
    var l :| 0 <= l < |ns| && Enters(w, roots, ns, l) && ns[l] == ms[k];
    var p := ms[k].kind.parentBranchId;
    if p.Some? {
      PassEntry(w, roots, ms[..k], p.value);
      EnteredEarlier(w, roots, ms, k, p.value);
      if p.value in roots {
        PassEntry(w, roots, ms, p.value);
        PassEntry(w, roots, ns, p.value);
      } else {
        var j :| 0 <= j < k && Enters(w, roots, ms, j) && ms[j].kind.branchId == p.value;
        EntrySame(w, roots, ms, ns, j);
      }
    }
    GrowsSame(w, roots, ms, ns, k, l);
  }

  /** A grown branch names the commit it was grown by. */
  lemma GrownBy(w: RollbackWindow, roots: Graph, ms: seq<PeeledMessage>, k: nat)
    requires k < |ms| && Enters(w, roots, ms, k)
    ensures var b := ms[k].kind.branchId;
            && b in Pass(w, roots, ms) && Pass(w, roots, ms)[b].commitPath != []
            && var path := Pass(w, roots, ms)[b].commitPath;
               path[|path| - 1] == ms[k].messageId
  {
    EntryValue(w, roots, ms, k);
  }

  lemma StillEnters(w: RollbackWindow, roots: Graph, ms: seq<PeeledMessage>, ns: seq<PeeledMessage>, k: nat)
    requires DistinctIds(ns) && Within(ms, ns) && Extends(Pass(w, roots, ms), Pass(w, roots, ns))
    requires k < |ms| && Enters(w, roots, ms, k)
    ensures ms[k] in Entrants(w, roots, ns)
  {
    var b := ms[k].kind.branchId;
    GrownBy(w, roots, ms, k);
    PassEntry(w, roots, ms[..k], b);
    PassEntry(w, roots, ns, b);
    var l :| 0 <= l < |ns| && Enters(w, roots, ns, l) && ns[l].kind.branchId == b;
    GrownBy(w, roots, ns, l);
    assert ms[k] in ns;
    var i :| 0 <= i < |ns| && ns[i] == ms[k];
    assert i == l;
  }

  /** Every branch of the smaller graph is in the larger one, unchanged, exactly
      when every commit that entered still does. */
  lemma GraphGrowsIff(w: RollbackWindow, roots: Graph, ms: seq<PeeledMessage>, ns: seq<PeeledMessage>)
    requires DistinctIds(ns) && Within(ms, ns)
    ensures Extends(Pass(w, roots, ms), Pass(w, roots, ns)) <==>
            Entrants(w, roots, ms) <= Entrants(w, roots, ns)
  {
    if Extends(Pass(w, roots, ms), Pass(w, roots, ns)) {
      forall m | m in Entrants(w, roots, ms) ensures m in Entrants(w, roots, ns) {
        var k :| 0 <= k < |ms| && Enters(w, roots, ms, k) && ms[k] == m;
        StillEnters(w, roots, ms, ns, k);
      }
    }
    if Entrants(w, roots, ms) <= Entrants(w, roots, ns) { GraphGrows(w, roots, ms, ns); }
  }

  lemma GraphGrows(w: RollbackWindow, roots: Graph, ms: seq<PeeledMessage>, ns: seq<PeeledMessage>)
    requires Entrants(w, roots, ms) <= Entrants(w, roots, ns)
    ensures Extends(Pass(w, roots, ms), Pass(w, roots, ns))
  {
    forall b | b in Pass(w, roots, ms) ensures SameBranch(Pass(w, roots, ms), Pass(w, roots, ns), b) {
      PassEntry(w, roots, ms, b);
      PassEntry(w, roots, ns, b);
      if b !in roots {
        var k :| 0 <= k < |ms| && Enters(w, roots, ms, k) && ms[k].kind.branchId == b;
        EntrySame(w, roots, ms, ns, k);
      }
    }
  }

  // ----- the pass -----

  /** The batch `q` keeps at least what the input's own batch keeps, and
      leaves every branch of the pass's graph as it was. */
  ghost predicate Enlarges(input: CanonicalizationInput, q: seq<PeeledMessage>,
                           replayed: seq<MaterializedCandidate>) {
    var larger := input.(pendingMessages := q);
    Within(Kept(input), Kept(larger)) && Extends(PassGraph(input, replayed), PassGraph(larger, replayed))
  }

  lemma CandidateAt(input: CanonicalizationInput, replayed: seq<MaterializedCandidate>, b: Id) returns (i: nat)
    requires b in PassGraph(input, replayed)
    ensures i < |PassCandidates(input, replayed)|
    ensures PassCandidates(input, replayed)[i]
            == WithWitnesses(input.policy, PassGraph(input, replayed)[b].candidate, Kept(input))
  {
    var keys := SortedKeys(PassGraph(input, replayed).Keys);
    assert b in keys;
    i :| 0 <= i < |keys| && keys[i] == b;
  }

  lemma BranchOf(input: CanonicalizationInput, replayed: seq<MaterializedCandidate>, i: nat) returns (b: Id)
    requires i < |PassCandidates(input, replayed)|
    ensures b in PassGraph(input, replayed)
    ensures PassCandidates(input, replayed)[i]
            == WithWitnesses(input.policy, PassGraph(input, replayed)[b].candidate, Kept(input))
  {
    var keys := SortedKeys(PassGraph(input, replayed).Keys);
    b := keys[i];
    assert b in keys;
  }

  lemma MoreWitnessed(policy: CanonicalizationPolicy, c: BranchCandidate, u: seq<PeeledMessage>,
                      v: seq<PeeledMessage>)
    requires Within(u, v)
    ensures ScoreLe(Score(WithWitnesses(policy, c, u), policy.convergence),
                    Score(WithWitnesses(policy, c, v), policy.convergence))
  {
    var x, y := WithWitnesses(policy, c, u), WithWitnesses(policy, c, v);
    var f := WitnessCollector(policy, c.id, c.tipEpoch);
    forall w | w in x.appWitnesses ensures w in y.appWitnesses {
      FlatMapElement(u, f, w);
      FlatMapElement(v, f, w);
    }
    MoreWitnessesNeverLower(x, y.appWitnesses, policy.convergence);
    assert y == x.(appWitnesses := y.appWitnesses);
  }

  /** Each candidate has its counterpart in the larger pass, scoring no lower. */
  lemma Counterpart(input: CanonicalizationInput, q: seq<PeeledMessage>, replayed: seq<MaterializedCandidate>, i: nat)
    returns (j: nat)
    requires Enlarges(input, q, replayed) && i < |PassCandidates(input, replayed)|
    ensures var c, ds := PassCandidates(input, replayed)[i], PassCandidates(input.(pendingMessages := q), replayed);
            && j < |ds| && ds[j].id == c.id && ds[j].forkEpoch == c.forkEpoch
            && ScoreLe(Score(c, input.policy.convergence), Score(ds[j], input.policy.convergence))
  {
    var larger := input.(pendingMessages := q);
    var b := BranchOf(input, replayed, i);
    j := CandidateAt(larger, replayed, b);
    MoreWitnessed(input.policy, PassGraph(input, replayed)[b].candidate, Kept(input), Kept(larger));
  }

  ghost predicate NoLower(tip: u64, cs: seq<BranchCandidate>, ds: seq<BranchCandidate>, policy: ConvergencePolicy) {
    var s, t := Select(tip, cs, policy), Select(tip, ds, policy);
    s.Some? ==> t.Some? && ScoreLe(Score(s.value, policy), Score(t.value, policy))
  }

  lemma CounterpartsDecide(tip: u64, cs: seq<BranchCandidate>, ds: seq<BranchCandidate>, policy: ConvergencePolicy,
                           j: nat)
    requires SelectIndex(tip, cs, policy).Some? && j < |ds|
    requires var c := cs[SelectIndex(tip, cs, policy).value];
             c.forkEpoch == ds[j].forkEpoch && ScoreLe(Score(c, policy), Score(ds[j], policy))
    ensures NoLower(tip, cs, ds, policy)
  {
    assert Eligible(tip, ds[j], policy);
    var t := SelectIndex(tip, ds, policy).value;
    ScoreLeTransitive(Score(cs[SelectIndex(tip, cs, policy).value], policy), Score(ds[j], policy),
                      Score(ds[t], policy));
  }

  /** A batch that keeps more and changes no branch still selects, and never a
      branch that scores lower. */
  lemma LargerBatchSelectsNoLower(input: CanonicalizationInput, q: seq<PeeledMessage>,
                                  replayed: seq<MaterializedCandidate>)
    requires Enlarges(input, q, replayed)
    ensures NoLower(input.state.currentTipEpoch, PassCandidates(input, replayed),
                    PassCandidates(input.(pendingMessages := q), replayed), input.policy.convergence)
  {
    var cs, ds := PassCandidates(input, replayed), PassCandidates(input.(pendingMessages := q), replayed);
    var i := SelectIndex(input.state.currentTipEpoch, cs, input.policy.convergence);
    if i.Some? {
      var j := Counterpart(input, q, replayed, i.value);
      CounterpartsDecide(input.state.currentTipEpoch, cs, ds, input.policy.convergence, j);
    }
  }

  /** The commits of a pass in sweep order, and those that enter its graph. */
  function Sweep(input: CanonicalizationInput): seq<PeeledMessage> {
    OrderedCommits(Kept(input))
  }

  ghost function Entering(input: CanonicalizationInput, replayed: seq<MaterializedCandidate>): set<PeeledMessage> {
    Entrants(input.Window(), Roots(input.candidateBranches, replayed), Sweep(input))
  }

  lemma SweepFacts(input: CanonicalizationInput)
    ensures Swept(Sweep(input)) && forall m :: m in Sweep(input) <==> m in Kept(input) && m.kind.Commit?
  {
    UniqueDistinct(input.pendingMessages, input.state.seenMessageIds);
    OrderedCommitsFacts(Kept(input));
  }

  lemma MoreIsKept(input: CanonicalizationInput, more: seq<PeeledMessage>)
    ensures var larger := input.(pendingMessages := input.pendingMessages + more);
            Within(Kept(input), Kept(larger)) && Within(Sweep(input), Sweep(larger))
  {
    UniqueConcat(input.pendingMessages, more, input.state.seenMessageIds);
    SweepFacts(input);
    SweepFacts(input.(pendingMessages := input.pendingMessages + more));
  }

  /** Messages that arrive later, whatever they repeat, enlarge a batch exactly
      when every commit that entered still does. */
  lemma LaterMessagesEnlargeIff(input: CanonicalizationInput, more: seq<PeeledMessage>,
                                replayed: seq<MaterializedCandidate>)
    ensures var q := input.pendingMessages + more;
            Enlarges(input, q, replayed) <==>
            Entering(input, replayed) <= Entering(input.(pendingMessages := q), replayed)
  {
    var larger := input.(pendingMessages := input.pendingMessages + more);
    MoreIsKept(input, more);
    SweepFacts(larger);
    GraphGrowsIff(input.Window(), Roots(input.candidateBranches, replayed), Sweep(input), Sweep(larger));
  }

  /** With new and distinct branch ids they all do. */
  lemma DistinctBranchesEnlarge(input: CanonicalizationInput, more: seq<PeeledMessage>,
                                replayed: seq<MaterializedCandidate>)
    requires DistinctNewBranches(Roots(input.candidateBranches, replayed),
                                 Sweep(input.(pendingMessages := input.pendingMessages + more)))
    ensures Enlarges(input, input.pendingMessages + more, replayed)
  {
    var larger := input.(pendingMessages := input.pendingMessages + more);
    MoreIsKept(input, more);
    SweepFacts(input);
    SweepFacts(larger);
    EntrantsGrow(input.Window(), Roots(input.candidateBranches, replayed), Sweep(input), Sweep(larger));
    LaterMessagesEnlargeIff(input, more, replayed);
  }
}
