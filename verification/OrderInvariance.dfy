/** What a pass decides depends on which messages are pending, not on their
    order or their number. */
module OrderInvariance {
  import opened Orders
  import opened Convergence
  import opened SelectionTrace
  import opened Messages
  import opened Materialization
  import opened Canonicalization

  /** Equal unseen ids mean equal messages. */
  ghost predicate Consistent(pending: seq<PeeledMessage>, seen: set<Id>) {
    forall a, b :: a in pending && b in pending && a.messageId == b.messageId && a.messageId !in seen ==> a == b
  }

  ghost predicate SameMessages(p: seq<PeeledMessage>, q: seq<PeeledMessage>) {
    forall m :: m in p <==> m in q
  }

  lemma UniqueElements(p: seq<PeeledMessage>, seen: set<Id>)
    requires Consistent(p, seen)
    ensures forall m :: m in Unique(p, seen) <==> m in p && m.messageId !in seen
    ensures NoRepeats(Unique(p, seen))
  {
    UniqueDistinct(p, seen);
    forall m | m in p && m.messageId !in seen ensures m in Unique(p, seen) {
      var u :| u in Unique(p, seen) && u.messageId == m.messageId;
      assert u == m;
    }
  }

  /** Two batches of which deduplication keeps the same messages. */
  ghost predicate SameKept(p: seq<PeeledMessage>, q: seq<PeeledMessage>, seen: set<Id>) {
    multiset(Unique(p, seen)) == multiset(Unique(q, seen))
  }

  lemma UniquePermutation(p: seq<PeeledMessage>, q: seq<PeeledMessage>, seen: set<Id>)
    requires Consistent(p, seen) && SameMessages(p, q)
    ensures SameKept(p, q, seen)
  {
    UniqueElements(p, seen);
    UniqueElements(q, seen);
    SameElementsSameMultiset(Unique(p, seen), Unique(q, seen));
  }

  function MoveFirst<T>(s: seq<T>, i: nat): (r: seq<T>)
    requires i < |s|
    ensures multiset(r) == multiset(s) && r != [] && r[0] == s[i]
  {
    assert s == s[..i] + [s[i]] + s[i + 1..];
    [s[i]] + s[..i] + s[i + 1..]
  }

  lemma {:induction false} UniqueConcat(a: seq<PeeledMessage>, b: seq<PeeledMessage>, seen: set<Id>)
    ensures Unique(a + b, seen) == Unique(a, seen) + Unique(b, seen + IdsIn(a))
  {
    if b == [] {
      assert a + b == a;
    } else {
      var n := |b| - 1;
      assert (a + b)[..|a + b| - 1] == a + b[..n];
      UniqueConcat(a, b[..n], seen);
      assert seen + IdsIn(a + b[..n]) == seen + IdsIn(a) + IdsIn(b[..n]) by {
        assert forall m :: m in a + b[..n] <==> m in a || m in b[..n];
      }
    }
  }

  lemma {:induction false} FirstIsKept(p: seq<PeeledMessage>, seen: set<Id>)
    requires p != [] && p[0].messageId !in seen
    ensures Unique(p, seen) != [] && Unique(p, seen)[0] == p[0]
  {
    if |p| == 1 {
      assert p[..0] == [];
      assert Unique(p[..0], seen) == [] && IdsIn(p[..0]) == {};
    } else {
      FirstIsKept(p[..|p| - 1], seen);
    }
  }

  /** Every rearrangement keeps the same messages exactly when equal unseen ids
      mean equal messages. */
  lemma KeptOrderFreeIff(p: seq<PeeledMessage>, seen: set<Id>)
    ensures Consistent(p, seen) <==> forall q :: multiset(q) == multiset(p) ==> SameKept(p, q, seen)
  {
    if Consistent(p, seen) {
      forall q | multiset(q) == multiset(p) ensures SameKept(p, q, seen) {
        SameElements(p, q);
        UniquePermutation(p, q, seen);
      }
    }
    if forall q :: multiset(q) == multiset(p) ==> SameKept(p, q, seen) {
      forall a, b | a in p && b in p && a.messageId == b.messageId && a.messageId !in seen ensures a == b {
        BothKept(p, seen, a, b);
      }
    }
  }

  lemma BothKept(p: seq<PeeledMessage>, seen: set<Id>, a: PeeledMessage, b: PeeledMessage)
    requires forall q :: multiset(q) == multiset(p) ==> SameKept(p, q, seen)
    requires a in p && b in p && a.messageId == b.messageId && a.messageId !in seen
    ensures a == b
  {
    UniqueDistinct(p, seen);
    AlwaysKept(p, seen, a);
    AlwaysKept(p, seen, b);
  }

  lemma AlwaysKept(p: seq<PeeledMessage>, seen: set<Id>, m: PeeledMessage)
    requires forall q :: multiset(q) == multiset(p) ==> SameKept(p, q, seen)
    requires m in p && m.messageId !in seen
    ensures m in Unique(p, seen)
  {
    var i :| 0 <= i < |p| && p[i] == m;
    var q := MoveFirst(p, i);
    FirstIsKept(q, seen);
    assert SameKept(p, q, seen);
    SameElements(Unique(p, seen), Unique(q, seen));
  }

  // ----- the graph, the candidates, the selection -----

  lemma OrderedCommitsPermutation(u: seq<PeeledMessage>, v: seq<PeeledMessage>)
    requires DistinctIds(u) && DistinctIds(v) && multiset(u) == multiset(v)
    ensures OrderedCommits(u) == OrderedCommits(v)
  {
    CommitsOfFacts(u);
    CommitsOfFacts(v);
    forall m ensures m in u <==> m in v { assert m in u <==> m in multiset(u); }
    SameElementsSameMultiset(CommitsOf(u), CommitsOf(v));
    CommitPreorder();
    forall x, y | x in CommitsOf(u) && y in CommitsOf(u) && CommitLe(x, y) && CommitLe(y, x) ensures x == y {
      BytesLeAntisymmetric(x.messageId, y.messageId);
      assert x in u && y in u;
    }
    SortPermutation(CommitsOf(u), CommitsOf(v), CommitLe);
  }

  lemma GraphSame(input: CanonicalizationInput, q: seq<PeeledMessage>, replayed: seq<MaterializedCandidate>)
    requires SameKept(input.pendingMessages, q, input.state.seenMessageIds)
    ensures PassGraph(input, replayed) == PassGraph(input.(pendingMessages := q), replayed)
  {
    var p, seen := input.pendingMessages, input.state.seenMessageIds;
    UniqueDistinct(p, seen);
    UniqueDistinct(q, seen);
    OrderedCommitsPermutation(Unique(p, seen), Unique(q, seen));
  }

  lemma WitnessedSimilar(policy: CanonicalizationPolicy, cs: seq<BranchCandidate>, u: seq<PeeledMessage>,
                         v: seq<PeeledMessage>)
    requires multiset(u) == multiset(v)
    ensures SimilarSeq(Witnessed(policy, cs, u), Witnessed(policy, cs, v))
  {
    forall i | 0 <= i < |cs| ensures Similar(Witnessed(policy, cs, u)[i], Witnessed(policy, cs, v)[i]) {
      FlatMapPermutation(u, v, WitnessCollector(policy, cs[i].id, cs[i].tipEpoch));
    }
  }

  lemma {:induction false} SimilarCount(tip: u64, cs: seq<BranchCandidate>, ds: seq<BranchCandidate>,
                                        policy: ConvergencePolicy)
    requires SimilarSeq(cs, ds)
    ensures CountEligible(tip, cs, policy) == CountEligible(tip, ds, policy)
  {
    if cs != [] { SimilarCount(tip, cs[..|cs| - 1], ds[..|ds| - 1], policy); }
  }

  lemma CandidatesSimilar(input: CanonicalizationInput, q: seq<PeeledMessage>, replayed: seq<MaterializedCandidate>)
    requires SameKept(input.pendingMessages, q, input.state.seenMessageIds)
    ensures SimilarSeq(PassCandidates(input, replayed), PassCandidates(input.(pendingMessages := q), replayed))
  {
    GraphSame(input, q, replayed);
    WitnessedSimilar(input.policy, GraphCandidates(PassGraph(input, replayed)),
                     Unique(input.pendingMessages, input.state.seenMessageIds), Unique(q, input.state.seenMessageIds));
  }

  /** What a pass reads of the candidate it selects. */
  lemma SelectedAlike(tip: u64, cs: seq<BranchCandidate>, ds: seq<BranchCandidate>, policy: ConvergencePolicy)
    requires SimilarSeq(cs, ds)
    ensures var s, t := Select(tip, cs, policy), Select(tip, ds, policy);
            && (s.Some? <==> t.Some?)
            && (s.Some? ==> s.value.id == t.value.id && s.value.tipEpoch == t.value.tipEpoch
                            && s.value.forkEpoch == t.value.forkEpoch)
  {
    SimilarSelect(tip, cs, ds, policy);
    var i := SelectIndex(tip, cs, policy);
    if i.Some? { assert Similar(cs[i.value], ds[i.value]); }
  }

  lemma OpenedAlike(input: CanonicalizationInput, q: seq<PeeledMessage>, cs: seq<BranchCandidate>,
                    ds: seq<BranchCandidate>, seen: seq<AlreadySeen>)
    requires SimilarSeq(cs, ds)
    ensures Opened(input, cs, seen) == Opened(input.(pendingMessages := q), ds, seen)
  {
    var tip, policy := input.state.currentTipEpoch, input.policy.convergence;
    SimilarCount(tip, cs, ds, policy);
    SelectedAlike(tip, cs, ds, policy);
    SimilarTrace(tip, cs, ds, policy);
  }

  /** Selection, counts, errors and the whole audit trace. */
  lemma OpenedSame(input: CanonicalizationInput, q: seq<PeeledMessage>, replayed: seq<MaterializedCandidate>,
                   seen: seq<AlreadySeen>)
    requires SameKept(input.pendingMessages, q, input.state.seenMessageIds)
    ensures var input' := input.(pendingMessages := q);
            && Opened(input, PassCandidates(input, replayed), seen)
                == Opened(input', PassCandidates(input', replayed), seen)
            && PassSelection(input, replayed) == PassSelection(input', replayed)
  {
    var input' := input.(pendingMessages := q);
    var cs, ds := PassCandidates(input, replayed), PassCandidates(input', replayed);
    CandidatesSimilar(input, q, replayed);
    OpenedAlike(input, q, cs, ds, seen);
    GraphSame(input, q, replayed);
    SelectedAlike(input.state.currentTipEpoch, cs, ds, input.policy.convergence);
  }

  // ----- the lists -----

  lemma {:induction false} DropMissingSuffix(a: seq<DroppedMessage>, b: seq<DroppedMessage>, ids: seq<Id>)
    requires multiset(a) == multiset(b)
    ensures multiset(DropMissing(a, ids)) == multiset(DropMissing(b, ids))
  {
    if ids != [] {
      var n := |ids| - 1;
      DropMissingSuffix(a, b, ids[..n]);
      var x, y := DropMissing(a, ids[..n]), DropMissing(b, ids[..n]);
      forall d ensures d in x <==> d in y { assert d in x <==> d in multiset(x); }
      assert HasDrop(x, ids[n]) <==> HasDrop(y, ids[n]);
    }
  }

  ghost predicate ListsPermuted(r: CanonicalizationResult, s: CanonicalizationResult) {
    && multiset(r.acceptedCommits) == multiset(s.acceptedCommits)
    && multiset(r.acceptedProposals) == multiset(s.acceptedProposals)
    && multiset(r.acceptedAppMessages) == multiset(s.acceptedAppMessages)
    && multiset(r.invalidatedAppMessages) == multiset(s.invalidatedAppMessages)
    && multiset(r.droppedMessages) == multiset(s.droppedMessages)
  }

  lemma DisposedPermuted(rules: Rules, sel: Selection, u: seq<PeeledMessage>, v: seq<PeeledMessage>,
                         r: CanonicalizationResult)
    requires multiset(u) == multiset(v)
    ensures ListsPermuted(Disposed(rules, sel, u, r), Disposed(rules, sel, v, r))
  {
    FlatMapPermutation(u, v, ExtraCommits(rules, sel));
    FlatMapPermutation(u, v, AcceptedProposals(rules, sel));
    FlatMapPermutation(u, v, AcceptedApps(rules, sel));
    FlatMapPermutation(u, v, Invalidations(rules, sel));
    FlatMapPermutation(u, v, Drops(rules, sel));
  }

  /** The fields that are not lists filled by dispositions. */
  function Header(r: CanonicalizationResult): CanonicalizationResult {
    r.(acceptedCommits := [], acceptedProposals := [], acceptedAppMessages := [], invalidatedAppMessages := [],
       droppedMessages := [], alreadySeen := [])
  }

  lemma UnsortedPermuted(input: CanonicalizationInput, q: seq<PeeledMessage>, replayed: seq<MaterializedCandidate>)
    requires SameKept(input.pendingMessages, q, input.state.seenMessageIds)
    ensures var r, s := Unsorted(input, replayed), Unsorted(input.(pendingMessages := q), replayed);
            ListsPermuted(r, s) && Header(r) == Header(s)
  {
    var input' := input.(pendingMessages := q);
    var p, seen := input.pendingMessages, input.state.seenMessageIds;
    OpenedSame(input, q, replayed, []);
    var sel := PassSelection(input, replayed);
    var start := Opened(input, PassCandidates(input, replayed), []);
    DisposedPermuted(input.Rules(), sel, Unique(p, seen), Unique(q, seen), start);
    var losing := LosingCommits(CommitsByBranch(replayed), sel.branchId);
    DropMissingSuffix(FlatMap(Unique(p, seen), Drops(input.Rules(), sel)),
                      FlatMap(Unique(q, seen), Drops(input.Rules(), sel)), losing);
  }

  /** Everything a pass decides: all but what was seen before, the status that
      reads it, and the sends the status gates. */
  function Decisions(r: CanonicalizationResult): CanonicalizationResult {
    r.(acceptedCommits := [], alreadySeen := [], convergenceStatus := Syncing, queuedOutboundIntents := [],
       publishableOutboundMessages := [])
  }

  lemma SortingPermuted(r: CanonicalizationResult, s: CanonicalizationResult)
    requires ListsPermuted(r, s)
    ensures Sorting(r).acceptedProposals == Sorting(s).acceptedProposals
    ensures Sorting(r).acceptedAppMessages == Sorting(s).acceptedAppMessages
    ensures Sorting(r).invalidatedAppMessages == Sorting(s).invalidatedAppMessages
    ensures Sorting(r).droppedMessages == Sorting(s).droppedMessages
  {
    BytesOrder();
    SortPermutation(r.acceptedProposals, s.acceptedProposals, BytesLe);
    SortPermutation(r.acceptedAppMessages, s.acceptedAppMessages, BytesLe);
    InvalidatedOrder();
    SortPermutation(r.invalidatedAppMessages, s.invalidatedAppMessages, InvalidatedLe);
    DroppedOrder();
    SortPermutation(r.droppedMessages, s.droppedMessages, DroppedLe);
  }

  lemma DecidedAlike(input: CanonicalizationInput, input': CanonicalizationInput, r: CanonicalizationResult,
                     s: CanonicalizationResult)
    requires ListsPermuted(r, s) && Header(r) == Header(s)
    ensures var x, y := Sorting(Gated(input, r)), Sorting(Gated(input', s));
            Decisions(x) == Decisions(y) && multiset(x.acceptedCommits) == multiset(y.acceptedCommits)
  {
    SortingPermuted(Gated(input, r), Gated(input', s));
  }

  /** Batches that keep the same messages lead to the same selection, accepts,
      drops, invalidations and trace, whatever else they hold. */
  lemma SameKeptSameDecisions(input: CanonicalizationInput, q: seq<PeeledMessage>, replayed: seq<MaterializedCandidate>)
    requires SameKept(input.pendingMessages, q, input.state.seenMessageIds)
    ensures var r, s := CanonicalizeInternal(input, replayed),
              CanonicalizeInternal(input.(pendingMessages := q), replayed);
            Decisions(r) == Decisions(s) && multiset(r.acceptedCommits) == multiset(s.acceptedCommits)
  {
    UnsortedPermuted(input, q, replayed);
    var input' := input.(pendingMessages := q);
    DecidedAlike(input, input', Unsorted(input, replayed), Unsorted(input', replayed));
  }

  // ----- rearranging the batch -----

  function SeenRecord(m: PeeledMessage): seq<AlreadySeen> {
    [AlreadySeen(m.messageId, KindName(m))]
  }

  /** Every pending message is either kept or reported as seen. */
  lemma SplitGrows<T>(all: seq<T>, u: seq<T>, r: seq<T>, x: seq<T>)
    requires multiset(all) == multiset(u) + multiset(r)
    ensures multiset(all + x) == multiset(u + x) + multiset(r) == multiset(u) + multiset(r + x)
  {
  }

  lemma {:induction false} KeptOrSeen(p: seq<PeeledMessage>, seen: set<Id>)
    ensures multiset(FlatMap(p, SeenRecord))
            == multiset(FlatMap(Unique(p, seen), SeenRecord)) + multiset(Repeats(p, seen))
  {
    if p != [] {
      var n := |p| - 1;
      KeptOrSeen(p[..n], seen);
      var u := Unique(p[..n], seen);
      SplitGrows(FlatMap(p[..n], SeenRecord), FlatMap(u, SeenRecord), Repeats(p[..n], seen), SeenRecord(p[n]));
      if p[n].messageId in seen + IdsIn(p[..n]) {
        assert Unique(p, seen) == u;
      } else {
        assert Unique(p, seen) == u + [p[n]] && Repeats(p, seen) == Repeats(p[..n], seen);
        FlatMapConcat(u, [p[n]], SeenRecord);
        FlatMapSingle(p[n], SeenRecord);
      }
    }
  }

  lemma RepeatsAreTheRest(p: seq<PeeledMessage>, seen: set<Id>)
    ensures multiset(Repeats(p, seen))
            == multiset(FlatMap(p, SeenRecord)) - multiset(FlatMap(Unique(p, seen), SeenRecord))
  {
    KeptOrSeen(p, seen);
  }

  lemma SameRepeats(p: seq<PeeledMessage>, q: seq<PeeledMessage>, seen: set<Id>)
    requires multiset(p) == multiset(q) && SameKept(p, q, seen)
    ensures multiset(Repeats(p, seen)) == multiset(Repeats(q, seen))
  {
    RepeatsAreTheRest(p, seen);
    RepeatsAreTheRest(q, seen);
    FlatMapPermutation(p, q, SeenRecord);
    FlatMapPermutation(Unique(p, seen), Unique(q, seen), SeenRecord);
  }

  lemma RepeatsPermutation(p: seq<PeeledMessage>, q: seq<PeeledMessage>, seen: set<Id>)
    requires multiset(p) == multiset(q) && SameKept(p, q, seen)
    ensures SameMessages(p, q)
    ensures multiset(Repeats(p, seen)) == multiset(Repeats(q, seen))
  {
    SameElements(p, q);
    SameRepeats(p, q, seen);
  }

  lemma SameElements<T>(s: seq<T>, t: seq<T>)
    requires multiset(s) == multiset(t)
    ensures forall x :: x in s <==> x in t
  {
    forall x ensures x in s <==> x in t { assert x in s <==> x in multiset(s); }
  }

  lemma ResolvedPermuted(r: CanonicalizationResult, s: CanonicalizationResult)
    requires ListsPermuted(r, s) && multiset(r.alreadySeen) == multiset(s.alreadySeen)
    ensures ResolvedIds(r) == ResolvedIds(s)
  {
    SameElements(r.acceptedCommits, s.acceptedCommits);
    SameElements(r.acceptedProposals, s.acceptedProposals);
    SameElements(r.acceptedAppMessages, s.acceptedAppMessages);
    SameElements(r.invalidatedAppMessages, s.invalidatedAppMessages);
    SameElements(r.droppedMessages, s.droppedMessages);
    SameElements(r.alreadySeen, s.alreadySeen);
  }

  lemma StatusSame(input: CanonicalizationInput, q: seq<PeeledMessage>, r: CanonicalizationResult,
                   s: CanonicalizationResult)
    requires SameMessages(input.pendingMessages, q)
    requires ListsPermuted(r, s) && multiset(r.alreadySeen) == multiset(s.alreadySeen) && r.errors == s.errors
    ensures StatusFor(input, r) == StatusFor(input.(pendingMessages := q), s)
  {
    ResolvedPermuted(r, s);
  }

  lemma GatedSame(input: CanonicalizationInput, q: seq<PeeledMessage>, r: CanonicalizationResult,
                  s: CanonicalizationResult)
    requires StatusFor(input, r) == StatusFor(input.(pendingMessages := q), s)
    requires Header(r) == Header(s) && ListsPermuted(r, s) && multiset(r.alreadySeen) == multiset(s.alreadySeen)
    ensures var x, y := Sorting(Gated(input, r)), Sorting(Gated(input.(pendingMessages := q), s));
            x.(acceptedCommits := []) == y.(acceptedCommits := [])
  {
    var x, y := Gated(input, r), Gated(input.(pendingMessages := q), s);
    assert Header(x) == Header(y);
    SortingPermuted(x, y);
    SeenOrder();
    SortPermutation(x.alreadySeen, y.alreadySeen, SeenLe);
    assert x.queuedOutboundIntents == Header(x).queuedOutboundIntents;
    assert y.queuedOutboundIntents == Header(y).queuedOutboundIntents;
    assert x.publishableOutboundMessages == Header(x).publishableOutboundMessages;
    assert y.publishableOutboundMessages == Header(y).publishableOutboundMessages;
    assert Header(Sorting(x)) == Header(Sorting(y));
  }

  ghost predicate SameButOrder(r: CanonicalizationResult, s: CanonicalizationResult) {
    Header(r) == Header(s) && ListsPermuted(r, s) && multiset(r.alreadySeen) == multiset(s.alreadySeen)
  }

  lemma UnsortedSameButOrder(input: CanonicalizationInput, q: seq<PeeledMessage>, replayed: seq<MaterializedCandidate>)
    requires multiset(input.pendingMessages) == multiset(q)
    requires SameKept(input.pendingMessages, q, input.state.seenMessageIds)
    ensures SameMessages(input.pendingMessages, q)
    ensures SameButOrder(Unsorted(input, replayed), Unsorted(input.(pendingMessages := q), replayed))
  {
    RepeatsPermutation(input.pendingMessages, q, input.state.seenMessageIds);
    UnsortedPermuted(input, q, replayed);
  }

  lemma FinishedSame(input: CanonicalizationInput, q: seq<PeeledMessage>, r: CanonicalizationResult,
                     s: CanonicalizationResult)
    requires SameMessages(input.pendingMessages, q) && SameButOrder(r, s)
    ensures var x, y := Sorting(Gated(input, r)), Sorting(Gated(input.(pendingMessages := q), s));
            && x.(acceptedCommits := []) == y.(acceptedCommits := [])
            && multiset(x.acceptedCommits) == multiset(y.acceptedCommits)
  {
    assert r.errors == Header(r).errors && s.errors == Header(s).errors;
    StatusSame(input, q, r, s);
    GatedSame(input, q, r, s);
  }

  /** Any rearrangement of the pending messages that keeps the same ones gives
      the same result, the accepted commits up to the order of commits that
      arrived late for the selected branch. */
  lemma OrderInvariant(input: CanonicalizationInput, q: seq<PeeledMessage>, replayed: seq<MaterializedCandidate>)
    requires multiset(input.pendingMessages) == multiset(q)
    requires SameKept(input.pendingMessages, q, input.state.seenMessageIds)
    ensures var r, s := CanonicalizeInternal(input, replayed),
              CanonicalizeInternal(input.(pendingMessages := q), replayed);
            && r.(acceptedCommits := []) == s.(acceptedCommits := [])
            && multiset(r.acceptedCommits) == multiset(s.acceptedCommits)
  {
    UnsortedSameButOrder(input, q, replayed);
    FinishedSame(input, q, Unsorted(input, replayed), Unsorted(input.(pendingMessages := q), replayed));
  }
}
