/** Commits that arrive for a branch already selected: when they make the order
    of accepted commits depend on arrival, and when there are none. */
module LateCommits {
  import opened Orders
  import opened Messages
  import opened Materialization
  import opened Canonicalization
  import opened OrderInvariance
  import opened Dispositions

  /** The accepted commits that are not on the selected path. */
  function Late(input: CanonicalizationInput, replayed: seq<MaterializedCandidate>): seq<Id> {
    FlatMap(Kept(input), ExtraCommits(input.Rules(), PassSelection(input, replayed)))
  }

  /** The same messages in another order, of which the same are kept. */
  ghost predicate Rearranged(input: CanonicalizationInput, q: seq<PeeledMessage>) {
    multiset(q) == multiset(input.pendingMessages) && SameKept(input.pendingMessages, q, input.state.seenMessageIds)
  }

  lemma AcceptedIsPathThenLate(input: CanonicalizationInput, replayed: seq<MaterializedCandidate>)
    ensures CanonicalizeInternal(input, replayed).acceptedCommits
            == PassSelection(input, replayed).commitPath + Late(input, replayed)
  {
  }

  lemma {:induction false} ExtrasDistinct(u: seq<PeeledMessage>, rules: Rules, sel: Selection)
    requires DistinctIds(u)
    ensures NoRepeats(FlatMap(u, ExtraCommits(rules, sel)))
  {
    if u != [] {
      var n := |u| - 1;
      ExtrasDistinct(u[..n], rules, sel);
      ExtrasCensus(u[..n], rules, sel, u[n].messageId);
      forall m | m in u[..n] ensures m.messageId != u[n].messageId {}
    }
  }

  // ----- moving a kept message to the front -----

  lemma {:induction false} UniqueIgnores(a: seq<PeeledMessage>, seen: set<Id>, id: Id)
    requires id !in IdsIn(a)
    ensures Unique(a, seen + {id}) == Unique(a, seen)
  {
    if a != [] {
      var n := |a| - 1;
      assert a[n] in a && forall m :: m in a[..n] ==> m in a;
      UniqueIgnores(a[..n], seen, id);
      assert a[n].messageId in IdsIn(a);
    }
  }

  lemma UniqueOne(m: PeeledMessage, seen: set<Id>)
    ensures Unique([m], seen) == (if m.messageId in seen then [] else [m]) && IdsIn([m]) == {m.messageId}
  {
    assert [m][..0] == [] && Unique([m][..0], seen) == [] && IdsIn([m][..0]) == {};
  }

  lemma HeadMoves(a: seq<PeeledMessage>, m: PeeledMessage, seen: set<Id>)
    requires m.messageId !in seen + IdsIn(a)
    ensures Unique([m] + a, seen) == [m] + Unique(a, seen) && Unique(a + [m], seen) == Unique(a, seen) + [m]
    ensures IdsIn([m] + a) == IdsIn(a + [m])
  {
    UniqueOne(m, seen);
    UniqueOne(m, seen + IdsIn(a));
    UniqueConcat([m], a, seen);
    UniqueConcat(a, [m], seen);
    UniqueIgnores(a, seen, m.messageId);
  }

  lemma FirstCopyMoves(a: seq<PeeledMessage>, m: PeeledMessage, b: seq<PeeledMessage>, seen: set<Id>)
    requires m.messageId !in seen + IdsIn(a)
    ensures SameKept(a + [m] + b, [m] + a + b, seen)
  {
    HeadMoves(a, m, seen);
    UniqueConcat([m] + a, b, seen);
    UniqueConcat(a + [m], b, seen);
    SwapHead(Unique(a, seen), m, Unique(b, seen + IdsIn(a + [m])));
  }

  lemma SwapHead<T>(a: seq<T>, x: T, b: seq<T>)
    ensures multiset([x] + a + b) == multiset(a + [x] + b)
  {
  }

  /** The copy that is kept stands before every other message with its id. */
  lemma {:induction false} KeptAt(p: seq<PeeledMessage>, seen: set<Id>, m: PeeledMessage) returns (i: nat)
    requires m in Unique(p, seen)
    ensures i < |p| && p[i] == m && m.messageId !in seen + IdsIn(p[..i])
  {
    var n := |p| - 1;
    if m in Unique(p[..n], seen) {
      i := KeptAt(p[..n], seen, m);
      assert p[..n][..i] == p[..i];
    } else {
      i := n;
    }
  }

  lemma KeptMovesFirst(p: seq<PeeledMessage>, seen: set<Id>, m: PeeledMessage) returns (q: seq<PeeledMessage>)
    requires m in Unique(p, seen)
    ensures multiset(q) == multiset(p) && SameKept(p, q, seen) && q != [] && q[0] == m
  {
    var i := KeptAt(p, seen, m);
    var a, b := p[..i], p[i + 1..];
    q := [m] + a + b;
    assert p == a + [m] + b;
    FirstCopyMoves(a, m, b, seen);
    SwapHead(a, m, b);
  }

  // ----- late commits -----

  lemma FirstExtra(u: seq<PeeledMessage>, rules: Rules, sel: Selection)
    requires u != [] && Dispose(rules, sel, u[0]).AcceptCommit?
    ensures var xs := FlatMap(u, ExtraCommits(rules, sel)); xs != [] && xs[0] == u[0].messageId
  {
    assert u == [u[0]] + u[1..];
    FlatMapConcat([u[0]], u[1..], ExtraCommits(rules, sel));
    FlatMapSingle(u[0], ExtraCommits(rules, sel));
  }

  /** A rearrangement that puts another late commit first. */
  lemma SecondLateFirst(input: CanonicalizationInput, replayed: seq<MaterializedCandidate>)
    returns (q: seq<PeeledMessage>)
    requires |Late(input, replayed)| >= 2
    ensures Rearranged(input, q)
    ensures Late(input.(pendingMessages := q), replayed) != Late(input, replayed)
  {
    var p, seen := input.pendingMessages, input.state.seenMessageIds;
    var rules, sel := input.Rules(), PassSelection(input, replayed);
    UniqueDistinct(p, seen);
    ExtrasDistinct(Kept(input), rules, sel);
    var id := Late(input, replayed)[1];
    ExtrasCensus(Kept(input), rules, sel, id);
    var m :| m in Kept(input) && m.messageId == id && IsExtra(Dispose(rules, sel, m));
    q := KeptMovesFirst(p, seen, m);
    OpenedSame(input, q, replayed, []);
    FirstIsKept(q, seen);
    FirstExtra(Unique(q, seen), rules, sel);
    assert Late(input.(pendingMessages := q), replayed)[0] == id != Late(input, replayed)[0];
  }

  lemma LatePermuted(input: CanonicalizationInput, q: seq<PeeledMessage>, replayed: seq<MaterializedCandidate>)
    requires Rearranged(input, q)
    ensures multiset(Late(input.(pendingMessages := q), replayed)) == multiset(Late(input, replayed))
  {
    var p, seen := input.pendingMessages, input.state.seenMessageIds;
    OpenedSame(input, q, replayed, []);
    FlatMapPermutation(Unique(p, seen), Unique(q, seen), ExtraCommits(input.Rules(), PassSelection(input, replayed)));
  }

  lemma ShortSame<T>(a: seq<T>, b: seq<T>)
    requires |a| <= 1 && multiset(a) == multiset(b)
    ensures a == b
  {
    assert |multiset(a)| == |a| && |multiset(b)| == |b|;
    if |a| == 1 { assert b[0] in multiset(a); }
  }

  /** Over the rearrangements that keep the same messages, the order of accepted
      commits is independent of arrival exactly when at most one kept commit in
      the window names the selected branch without being on its path. */
  lemma AcceptedOrderFreeIff(input: CanonicalizationInput, replayed: seq<MaterializedCandidate>)
    ensures |Late(input, replayed)| <= 1 <==>
            forall q :: Rearranged(input, q) ==>
              CanonicalizeInternal(input.(pendingMessages := q), replayed) == CanonicalizeInternal(input, replayed)
  {
    AcceptedIsPathThenLate(input, replayed);
    if |Late(input, replayed)| <= 1 {
      forall q | Rearranged(input, q)
        ensures CanonicalizeInternal(input.(pendingMessages := q), replayed) == CanonicalizeInternal(input, replayed)
      {
        SameWhenFewLate(input, q, replayed);
      }
    } else {
      var q := SecondLateFirst(input, replayed);
      LateSeparates(input, q, replayed);
    }
  }

  lemma SameWhenFewLate(input: CanonicalizationInput, q: seq<PeeledMessage>, replayed: seq<MaterializedCandidate>)
    requires Rearranged(input, q)
    requires |Late(input, replayed)| <= 1
    ensures CanonicalizeInternal(input.(pendingMessages := q), replayed) == CanonicalizeInternal(input, replayed)
  {
    var r, s := CanonicalizeInternal(input, replayed), CanonicalizeInternal(input.(pendingMessages := q), replayed);
    OrderInvariant(input, q, replayed);
    assert r.acceptedCommits == s.acceptedCommits by {
      LatePermuted(input, q, replayed);
      ShortSame(Late(input, replayed), Late(input.(pendingMessages := q), replayed));
      AcceptedIsPathThenLate(input, replayed);
      AcceptedIsPathThenLate(input.(pendingMessages := q), replayed);
      OpenedSame(input, q, replayed, []);
    }
    assert r == r.(acceptedCommits := []).(acceptedCommits := r.acceptedCommits);
    assert s == s.(acceptedCommits := []).(acceptedCommits := s.acceptedCommits);
  }

  lemma LateSeparates(input: CanonicalizationInput, q: seq<PeeledMessage>, replayed: seq<MaterializedCandidate>)
    requires Rearranged(input, q)
    requires Late(input.(pendingMessages := q), replayed) != Late(input, replayed)
    ensures CanonicalizeInternal(input.(pendingMessages := q), replayed).acceptedCommits
            != CanonicalizeInternal(input, replayed).acceptedCommits
  {
    var input' := input.(pendingMessages := q);
    AcceptedIsPathThenLate(input, replayed);
    AcceptedIsPathThenLate(input', replayed);
    OpenedSame(input, q, replayed, []);
    var path := PassSelection(input, replayed).commitPath;
    assert (path + Late(input, replayed))[|path|..] == Late(input, replayed);
    assert (path + Late(input', replayed))[|path|..] == Late(input', replayed);
  }

  /** When the pending commits name distinct new branches, no commit is late
      and the whole result is a function of the set of pending messages. */
  lemma DistinctBranchesNoneLate(input: CanonicalizationInput, replayed: seq<MaterializedCandidate>)
    requires DistinctNewBranches(Roots(input.candidateBranches, replayed), OrderedCommits(Kept(input)))
    ensures Late(input, replayed) == []
  {
    forall m | m in Kept(input) ensures !Dispose(input.Rules(), PassSelection(input, replayed), m).AcceptCommit? {
      NotLate(input, replayed, m);
    }
    NoExtras(Kept(input), input.Rules(), PassSelection(input, replayed));
  }

  lemma NotLate(input: CanonicalizationInput, replayed: seq<MaterializedCandidate>, m: PeeledMessage)
    requires DistinctNewBranches(Roots(input.candidateBranches, replayed), OrderedCommits(Kept(input)))
    requires m in Kept(input)
    ensures !Dispose(input.Rules(), PassSelection(input, replayed), m).AcceptCommit?
  {
    var sel := PassSelection(input, replayed);
    AcceptCommitMeans(input.Rules(), sel, m);
    if m.kind.Commit? && sel.branchId == Some(m.kind.branchId) { SelectedTipOnPath(input, replayed, m); }
  }

  lemma AcceptCommitMeans(rules: Rules, sel: Selection, m: PeeledMessage)
    ensures Dispose(rules, sel, m).AcceptCommit? ==>
              m.kind.Commit? && sel.branchId == Some(m.kind.branchId) && m.messageId !in sel.commitPath
  {
  }

  lemma {:induction false} NoExtras(u: seq<PeeledMessage>, rules: Rules, sel: Selection)
    requires forall m :: m in u ==> !Dispose(rules, sel, m).AcceptCommit?
    ensures FlatMap(u, ExtraCommits(rules, sel)) == []
  {
    if u != [] { NoExtras(u[..|u| - 1], rules, sel); }
  }

  /** A branch's own commit is on its path. */
  lemma OwnCommitOnPath(w: RollbackWindow, roots: Graph, ms: seq<PeeledMessage>, m: PeeledMessage)
    requires DistinctNewBranches(roots, ms) && m in ms && m.kind.Commit? && m.kind.branchId in Pass(w, roots, ms)
    ensures m.messageId in Pass(w, roots, ms)[m.kind.branchId].commitPath
  {
    var i :| 0 <= i < |ms| && ms[i] == m;
    PassEntry(w, roots, ms, m.kind.branchId);
    var k :| 0 <= k < |ms| && Enters(w, roots, ms, k) && ms[k].kind.branchId == m.kind.branchId;
    assert ms[k].kind.Commit? && k == i;
    EntryValue(w, roots, ms, k);
  }

  lemma SelectedTipOnPath(input: CanonicalizationInput, replayed: seq<MaterializedCandidate>, m: PeeledMessage)
    requires DistinctNewBranches(Roots(input.candidateBranches, replayed), OrderedCommits(Kept(input)))
    requires m in Kept(input) && m.kind.Commit? && PassSelection(input, replayed).branchId == Some(m.kind.branchId)
    ensures m.messageId in PassSelection(input, replayed).commitPath
  {
    UniqueDistinct(input.pendingMessages, input.state.seenMessageIds);
    OrderedCommitsFacts(Kept(input));
    SelectedInGraph(input, replayed);
    OwnCommitOnPath(input.Window(), Roots(input.candidateBranches, replayed), OrderedCommits(Kept(input)), m);
  }

  lemma DistinctBranchesFullInvariance(input: CanonicalizationInput, q: seq<PeeledMessage>,
                                       replayed: seq<MaterializedCandidate>)
    requires Rearranged(input, q)
    requires DistinctNewBranches(Roots(input.candidateBranches, replayed), OrderedCommits(Kept(input)))
    ensures CanonicalizeInternal(input.(pendingMessages := q), replayed) == CanonicalizeInternal(input, replayed)
  {
    DistinctBranchesNoneLate(input, replayed);
    SameWhenFewLate(input, q, replayed);
  }
}
