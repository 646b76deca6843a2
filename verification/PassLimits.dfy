/** Inputs on which a pass does not do what one might expect of it. The exact
    conditions are in OrderInvariance, LateCommits, Dispositions, DuplicateCopies
    and LargerBatches. */
module PassLimits {
  import opened Orders
  import opened Convergence
  import opened Messages
  import opened Materialization
  import opened Canonicalization
  import opened Dispositions
  import opened LateCommits
  import opened DuplicateCopies
  import opened LargerBatches

  const POLICY := CanonicalizationPolicy(ConvergencePolicy(5, 2, 1, 1), 5, 1000)
  const QUIET := CanonicalizationState(0, 0, 0, {})

  function QuietInput(pending: seq<PeeledMessage>): CanonicalizationInput {
    CanonicalizationInput(QUIET, pending, [], [], POLICY, 1000)
  }

  /** Two messages of different kinds under one unseen id: the copy kept is the
      first, and swapping them changes the result. */
  lemma SharedIdDependsOnOrder(a: PeeledMessage, b: PeeledMessage)
    requires a.messageId == b.messageId && KindName(a) != KindName(b)
    ensures Canonicalize(QuietInput([a, b])) != Canonicalize(QuietInput([b, a]))
  {
    SecondReported(a, b);
    SecondReported(b, a);
  }

  lemma SecondReported(a: PeeledMessage, b: PeeledMessage)
    requires a.messageId == b.messageId
    ensures Canonicalize(QuietInput([a, b])).alreadySeen == [AlreadySeen(b.messageId, KindName(b))]
  {
    var p := [a, b];
    assert p[..1] == [a] && [a][..0] == [];
    assert a in p[..1];
    assert Repeats([a][..0], {}) == [] && IdsIn([a][..0]) == {};
    assert Repeats([a], {}) == [];
    assert Repeats(p, {}) == [AlreadySeen(b.messageId, KindName(b))];
    var r := [AlreadySeen(b.messageId, KindName(b))];
    SortOfSorted(r, SeenLe);
  }

  lemma {:induction false} OrphansNeverGrow(w: RollbackWindow, ms: seq<PeeledMessage>)
    requires forall m :: m in ms && m.kind.Commit? ==> m.kind.parentBranchId.Some?
    ensures Pass(w, map[], ms) == map[]
  {
    if ms != [] { OrphansNeverGrow(w, ms[..|ms| - 1]); }
  }

  predicate Orphan(m: PeeledMessage) {
    m.kind.Commit? && m.kind.parentBranchId.Some? && m.kind.forkEpoch == 0
  }

  lemma OrphanLeftOpen(m: PeeledMessage)
    requires Orphan(m)
    ensures LeftOpen(QuietInput([m]), [], m)
  {
    var input := QuietInput([m]);
    UniqueDistinct([m], {});
    OrderedCommitsFacts(Kept(input));
    OrphansNeverGrow(input.Window(), OrderedCommits(Kept(input)));
    assert PassGraph(input, []) == map[];
    SelectedInGraph(input, []);
    NothingReplayed(input);
  }

  /** A commit whose parent is not in sight holds a quiet pass in Resolving;
      a second copy of the same commit lets it settle. */
  lemma SecondCopySettles(m: PeeledMessage)
    requires Orphan(m)
    ensures Canonicalize(QuietInput([m])).convergenceStatus == Resolving
    ensures Canonicalize(QuietInput([m, m])).convergenceStatus == Settled
  {
    OrphanLeftOpen(m);
    OneResolves(QuietInput([m]), m);
    TwoSettle(m);
  }

  lemma TwoSettle(m: PeeledMessage)
    ensures Canonicalize(QuietInput([m, m])).convergenceStatus == Settled
  {
    var input := QuietInput([m]);
    assert Quiesced(input);
    assert input.(pendingMessages := [m] + [m]) == QuietInput([m, m]);
    DoubledSettles(input, []);
  }

  lemma OneResolves(input: CanonicalizationInput, m: PeeledMessage)
    requires input.pendingMessages == [m] && Quiesced(input) && m.messageId !in input.state.seenMessageIds
    requires LeftOpen(input, [], m)
    ensures Canonicalize(input).convergenceStatus == Resolving
  {
    StatusExact(input, []);
    assert m in input.pendingMessages;
    assert !Twice([m], m.messageId);
  }

  // ----- two late commits -----

  function Grown(id: Id): BranchCandidate {
    BranchCandidate(id, 0, 1, Ordinary, [], seq(32, _ => 0), [])
  }

  function SeededInput(id: Id, pending: seq<PeeledMessage>): CanonicalizationInput {
    QuietInput(pending).(candidateBranches := [Grown(id)])
  }

  lemma {:induction false} KnownBranchesNeverGrow(w: RollbackWindow, g: Graph, ms: seq<PeeledMessage>)
    requires forall m :: m in ms && m.kind.Commit? ==> m.kind.branchId in g
    ensures Pass(w, g, ms) == g
  {
    if ms != [] { KnownBranchesNeverGrow(w, g, ms[..|ms| - 1]); }
  }

  lemma KeptBoth(a: PeeledMessage, b: PeeledMessage)
    requires a.messageId != b.messageId
    ensures Unique([a, b], {}) == [a, b]
  {
    UniqueOne(a, {});
    UniqueMore([a], b, {});
    assert [a] + [b] == [a, b];
  }

  lemma SeededRoots(c: BranchCandidate)
    ensures Roots([c], []) == map[c.id := SeedBranch(c)]
  {
    var cs := [c];
    assert cs[..0] == [] && SeedGraph(cs[..0]) == map[];
    assert SeedGraph(cs) == map[c.id := SeedBranch(c)];
  }

  /** Two different commits for the same branch. */
  predicate Rivals(id: Id, a: PeeledMessage, b: PeeledMessage) {
    && a.messageId != b.messageId && a.kind.Commit? && b.kind.Commit?
    && a.kind.branchId == id == b.kind.branchId
  }

  lemma SeededGraph(id: Id, a: PeeledMessage, b: PeeledMessage)
    requires Rivals(id, a, b)
    ensures PassGraph(SeededInput(id, [a, b]), []) == map[id := SeedBranch(Grown(id))]
  {
    var input := SeededInput(id, [a, b]);
    KeptBoth(a, b);
    UniqueDistinct([a, b], {});
    OrderedCommitsFacts([a, b]);
    SeededRoots(Grown(id));
    KnownBranchesNeverGrow(input.Window(), Roots([Grown(id)], []), OrderedCommits([a, b]));
  }

  lemma SeedSelected(id: Id, a: PeeledMessage, b: PeeledMessage)
    requires Rivals(id, a, b)
    ensures var sel := PassSelection(SeededInput(id, [a, b]), []);
            sel.branchId == Some(id) && sel.commitPath == []
  {
    SeededGraph(id, a, b);
    SomeoneSelected(SeededInput(id, [a, b]), [], id);
    SelectedInGraph(SeededInput(id, [a, b]), []);
  }

  lemma ExtrasOfTwo(rules: Rules, sel: Selection, a: PeeledMessage, b: PeeledMessage)
    requires Dispose(rules, sel, a).AcceptCommit? && Dispose(rules, sel, b).AcceptCommit?
    ensures FlatMap([a, b], ExtraCommits(rules, sel)) == [a.messageId, b.messageId]
  {
    assert [a] + [b] == [a, b];
    FlatMapConcat([a], [b], ExtraCommits(rules, sel));
    FlatMapSingle(a, ExtraCommits(rules, sel));
    FlatMapSingle(b, ExtraCommits(rules, sel));
  }

  lemma BothLate(id: Id, a: PeeledMessage, b: PeeledMessage)
    requires Rivals(id, a, b)
    ensures Late(SeededInput(id, [a, b]), []) == [a.messageId, b.messageId]
  {
    var input := SeededInput(id, [a, b]);
    SeedSelected(id, a, b);
    KeptBoth(a, b);
    ExtrasOfTwo(input.Rules(), PassSelection(input, []), a, b);
  }

  /** Two commits that name a seed branch are accepted in the order they came. */
  lemma LateCommitsInArrivalOrder(id: Id, a: PeeledMessage, b: PeeledMessage)
    requires Rivals(id, a, b)
    ensures Canonicalize(SeededInput(id, [a, b])).acceptedCommits == [a.messageId, b.messageId]
    ensures Canonicalize(SeededInput(id, [b, a])).acceptedCommits == [b.messageId, a.messageId]
  {
    AcceptedInOrder(id, a, b);
    AcceptedInOrder(id, b, a);
  }

  lemma AcceptedInOrder(id: Id, a: PeeledMessage, b: PeeledMessage)
    requires Rivals(id, a, b)
    ensures Canonicalize(SeededInput(id, [a, b])).acceptedCommits == [a.messageId, b.messageId]
  {
    SeedSelected(id, a, b);
    BothLate(id, a, b);
    AcceptedIsPathThenLate(SeededInput(id, [a, b]), []);
  }

  // ----- a commit that two branches replayed -----

  function Replayed(id: Id, commit: Id): MaterializedCandidate {
    MaterializedCandidate(Grown(id), [commit], [])
  }

  lemma TwoReplayed(a: Id, b: Id, commit: Id)
    requires a != b
    ensures var replayed := [Replayed(a, commit), Replayed(b, commit)];
            && Roots([], replayed)
                == map[a := ReplayedBranch(Replayed(a, commit)), b := ReplayedBranch(Replayed(b, commit))]
            && CommitsByBranch(replayed) == map[a := {commit}, b := {commit}]
  {
    var x, y := Replayed(a, commit), Replayed(b, commit);
    var replayed := [x, y];
    assert replayed[..1] == [x] && [x][..0] == [];
    assert AddReplayed(map[], [x]) == map[a := ReplayedBranch(x)];
    assert AddReplayed(map[], replayed) == AddReplayed(map[], [x])[b := ReplayedBranch(y)];
    assert IdSet([commit]) == {commit};
    assert CommitsByBranch([x]) == map[a := {commit}];
    assert CommitsByBranch(replayed) == CommitsByBranch([x])[b := {commit}];
  }

  lemma NoMessagesKeepRoots(input: CanonicalizationInput, replayed: seq<MaterializedCandidate>)
    requires input.pendingMessages == []
    ensures PassGraph(input, replayed) == Roots(input.candidateBranches, replayed)
  {
    assert Unique([], input.state.seenMessageIds) == [];
    assert CommitsOf([]) == [] && OrderedCommits([]) == [];
  }

  lemma SomeoneSelected(input: CanonicalizationInput, replayed: seq<MaterializedCandidate>, b: Id)
    requires input.state.currentTipEpoch == 0 && b in PassGraph(input, replayed)
    ensures PassSelection(input, replayed).branchId.Some?
  {
    var g, cs := PassGraph(input, replayed), PassCandidates(input, replayed);
    var keys := SortedKeys(g.Keys);
    assert b in keys;
    var i :| 0 <= i < |keys| && keys[i] == b;
    assert Eligible(0, cs[i], input.policy.convergence);
  }

  lemma LosingNames(table: map<Id, set<Id>>, selected: Id, loser: Id, commit: Id)
    requires loser in table && loser != selected && commit in table[loser]
    ensures commit in LosingCommits(table, Some(selected))
  {
    var f := BranchCommits(table, selected);
    assert loser in SortedKeys(table.Keys) && commit in f(loser);
    FlatMapElement(SortedKeys(table.Keys), f, commit);
  }

  /** A commit that the winner and a loser both replayed is accepted and dropped. */
  lemma SharedCommitAcceptedAndDropped(a: Id, b: Id, commit: Id)
    requires a != b
    ensures var r := CanonicalizeInternal(QuietInput([]), [Replayed(a, commit), Replayed(b, commit)]);
            commit in AcceptedIds(r) && commit in DroppedIds(r.droppedMessages)
  {
    var input, replayed := QuietInput([]), [Replayed(a, commit), Replayed(b, commit)];
    TwoReplayed(a, b, commit);
    NoMessagesKeepRoots(input, replayed);
    SomeoneSelected(input, replayed, a);
    SelectedInGraph(input, replayed);
    var sel := PassSelection(input, replayed);
    assert sel.commitPath == [commit];
    LosingNames(CommitsByBranch(replayed), sel.branchId.value, if sel.branchId.value == a then b else a, commit);
    Census(input, replayed, commit);
  }

  // ----- a later commit that takes an entrant's place -----

  /** A commit that starts a branch where it forks. */
  predicate Founds(m: PeeledMessage) {
    && m.kind.Commit? && m.kind.parentBranchId.None?
    && m.kind.forkEpoch == m.sourceEpoch < m.kind.resultingEpoch
  }

  function Founded(m: PeeledMessage): Branch
    requires m.kind.Commit?
  {
    GrownBranch(ResolvedParent(m.kind.forkEpoch, [], {}, {}), m)
  }

  lemma OneFounds(w: RollbackWindow, m: PeeledMessage)
    requires Founds(m) && w.Holds(m.kind.forkEpoch)
    ensures Pass(w, map[], [m]) == map[m.kind.branchId := Founded(m)]
  {
    assert [m][..0] == [];
    assert Pass(w, map[], [m][..0]) == map[];
  }

  lemma FirstFounds(w: RollbackWindow, a: PeeledMessage, c: PeeledMessage)
    requires Founds(c) && w.Holds(c.kind.forkEpoch) && a.kind.Commit? && a.kind.branchId == c.kind.branchId
    ensures Pass(w, map[], [c, a]) == map[c.kind.branchId := Founded(c)]
  {
    assert [c, a][..1] == [c];
    OneFounds(w, c);
  }

  lemma EarlierFirst(a: PeeledMessage, c: PeeledMessage)
    requires a.kind.Commit? && c.kind.Commit? && c.sourceEpoch < a.sourceEpoch
    ensures OrderedCommits([a]) == [a] && OrderedCommits([a, c]) == [c, a]
  {
    assert [a][..0] == [] && [a, c][..1] == [a];
    assert CommitsOf([a]) == [a] && CommitsOf([a, c]) == [a, c];
    assert [a][1..] == [] && [a, c][1..] == [c] && [c][1..] == [];
    assert Sort([c], CommitLe) == [c] && Sort([a], CommitLe) == [a];
    assert Insert(a, [c], CommitLe) == [c] + Insert(a, [], CommitLe);
  }

  lemma {:induction false} CommitsWitnessNothing(policy: CanonicalizationPolicy, c: BranchCandidate,
                                                 ms: seq<PeeledMessage>)
    requires forall m :: m in ms ==> m.kind.Commit?
    ensures FlatMap(ms, WitnessCollector(policy, c.id, c.tipEpoch)) == []
  {
    if ms != [] {
      CommitsWitnessNothing(policy, c, ms[..|ms| - 1]);
      assert ms[|ms| - 1] in ms;
    }
  }

  /** The only branch of a pass over commits alone is selected as it stands. */
  lemma OnlyBranchSelected(input: CanonicalizationInput, b: Id, x: Branch)
    requires PassGraph(input, []) == map[b := x] && input.state.currentTipEpoch == 0
    requires x.candidate.appWitnesses == [] && forall m :: m in Kept(input) ==> m.kind.Commit?
    ensures Select(0, PassCandidates(input, []), input.policy.convergence) == Some(x.candidate)
  {
    var g, cs := PassGraph(input, []), PassCandidates(input, []);
    CommitsWitnessNothing(input.policy, x.candidate, Kept(input));
    assert WithWitnesses(input.policy, x.candidate, Kept(input)) == x.candidate;
    assert g.Keys == {b};
    var i := CandidateAt(input, [], b);
    assert |cs| == 1 && cs[0] == x.candidate;
    assert LastMaximum(0, cs, input.policy.convergence, 0) by { ScoreReflexive(x.candidate, input.policy.convergence); }
    LastMaximumUnique(0, cs, input.policy.convergence, 0);
  }

  lemma ScoreReflexive(c: BranchCandidate, policy: ConvergencePolicy)
    ensures ScoreLe(Score(c, policy), Score(c, policy))
  {
    CompareScoresFlip(Score(c, policy), Score(c, policy));
  }

  /** `c` starts the same branch as `a`, earlier and to a lesser depth. */
  predicate TakesPlace(a: PeeledMessage, c: PeeledMessage) {
    && Founds(a) && Founds(c) && Rivals(a.kind.branchId, a, c) && c.sourceEpoch < a.sourceEpoch
    && c.kind.resultingEpoch - c.sourceEpoch < a.kind.resultingEpoch - a.sourceEpoch
  }

  lemma OneThenTheOther(a: PeeledMessage, c: PeeledMessage)
    requires TakesPlace(a, c)
    ensures PassGraph(QuietInput([a]), []) == map[a.kind.branchId := Founded(a)] && Kept(QuietInput([a])) == [a]
    ensures PassGraph(QuietInput([a, c]), []) == map[c.kind.branchId := Founded(c)]
    ensures Kept(QuietInput([a, c])) == [a, c]
  {
    UniqueOne(a, {});
    KeptBoth(a, c);
    EarlierFirst(a, c);
    OneFounds(QuietInput([a]).Window(), a);
    FirstFounds(QuietInput([a, c]).Window(), a, c);
  }

  lemma ShallowerScoresLower(a: PeeledMessage, c: PeeledMessage)
    requires TakesPlace(a, c)
    ensures var x, y := Founded(a).candidate, Founded(c).candidate;
            !ScoreLe(Score(x, POLICY.convergence), Score(y, POLICY.convergence))
  {
    assert WitnessesByEpoch([]) == map[];
    assert QuorumEpochs(map[], 2) == {};
    assert !WitnessQuorumMet([], POLICY.convergence);
  }

  /** A commit that starts the same branch earlier, arriving later, takes the
      place of the one that had entered, and the winning score falls. */
  lemma EarlierRivalTakesOver(a: PeeledMessage, c: PeeledMessage)
    requires TakesPlace(a, c)
    ensures !NoLower(0, PassCandidates(QuietInput([a]), []), PassCandidates(QuietInput([a, c]), []), POLICY.convergence)
    ensures !Enlarges(QuietInput([a]), [a, c], [])
  {
    OneThenTheOther(a, c);
    OnlyBranchSelected(QuietInput([a]), a.kind.branchId, Founded(a));
    OnlyBranchSelected(QuietInput([a, c]), c.kind.branchId, Founded(c));
    ShallowerScoresLower(a, c);
    if Enlarges(QuietInput([a]), [a, c], []) { LargerBatchSelectsNoLower(QuietInput([a]), [a, c], []); }
  }
}
