/** Which list each message lands in, and what the status says about the batch. */
module Dispositions {
  import opened Orders
  import opened Convergence
  import opened Messages
  import opened Materialization
  import opened BranchPaths
  import opened Canonicalization
  import opened OrderInvariance

  function Kept(input: CanonicalizationInput): seq<PeeledMessage> {
    Unique(input.pendingMessages, input.state.seenMessageIds)
  }

  function DispositionOf(input: CanonicalizationInput, replayed: seq<MaterializedCandidate>,
                         m: PeeledMessage): Disposition {
    Dispose(input.Rules(), PassSelection(input, replayed), m)
  }

  // ----- the selected path -----

  lemma {:induction false} SeedPathsEmpty(cs: seq<BranchCandidate>)
    ensures forall b :: b in SeedGraph(cs) ==> SeedGraph(cs)[b].commitPath == []
  {
    if cs != [] { SeedPathsEmpty(cs[..|cs| - 1]); }
  }

  /** The selected branch is one of the graph's. */
  lemma SelectedInGraph(input: CanonicalizationInput, replayed: seq<MaterializedCandidate>)
    ensures var sel, g := PassSelection(input, replayed), PassGraph(input, replayed);
            && sel.graphIds == g.Keys
            && (sel.branchId.Some? ==> sel.branchId.value in g && sel.commitPath == g[sel.branchId.value].commitPath)
            && (sel.branchId.None? ==> sel.commitPath == [])
  {
    var g := PassGraph(input, replayed);
    GraphCandidatesDistinct(input, replayed);
    var cs := PassCandidates(input, replayed);
    var i := SelectIndex(input.state.currentTipEpoch, cs, input.policy.convergence);
    if i.Some? {
      var keys := SortedKeys(g.Keys);
      assert keys[i.value] in keys;
      assert cs[i.value].id == keys[i.value];
    }
  }

  /** Without replayed branches, the selected path names kept commits that are
      in the window. */
  lemma PathIsKept(input: CanonicalizationInput, id: Id)
    requires id in PassSelection(input, []).commitPath
    ensures exists m :: m in Kept(input) && m.messageId == id && Plausible(input.Window(), m)
  {
    SelectedInGraph(input, []);
    var sel, g, w := PassSelection(input, []), PassGraph(input, []), input.Window();
    var roots := Roots(input.candidateBranches, []);
    var ms := OrderedCommits(Kept(input));
    UniqueDistinct(input.pendingMessages, input.state.seenMessageIds);
    OrderedCommitsFacts(Kept(input));
    SeedPathsEmpty(input.candidateBranches);
    PathNamesCommits(w, roots, ms, sel.branchId.value, id);
  }

  // ----- one disposition each -----

  lemma SameIdSame(input: CanonicalizationInput, a: PeeledMessage, b: PeeledMessage)
    requires a in Kept(input) && b in Kept(input) && a.messageId == b.messageId
    ensures a == b
  {
    UniqueDistinct(input.pendingMessages, input.state.seenMessageIds);
  }

  /** Some message of `u` with this id has a disposition that satisfies `p`. */
  ghost predicate Listed(u: seq<PeeledMessage>, rules: Rules, sel: Selection, id: Id, p: Disposition -> bool) {
    exists m :: m in u && m.messageId == id && p(Dispose(rules, sel, m))
  }

  function AcceptedIds(r: CanonicalizationResult): set<Id> {
    IdSet(r.acceptedCommits) + IdSet(r.acceptedProposals) + IdSet(r.acceptedAppMessages)
  }

  predicate IsAccepting(d: Disposition) {
    d.OnSelectedPath? || d.AcceptCommit? || d.AcceptProposal? || d.AcceptApp?
  }

  predicate IsDrop(d: Disposition) { d.Drop? }

  predicate IsInvalidate(d: Disposition) { d.Invalidate? }

  lemma DropsCensus(u: seq<PeeledMessage>, rules: Rules, sel: Selection, id: Id)
    ensures id in DroppedIds(FlatMap(u, Drops(rules, sel))) <==> Listed(u, rules, sel, id, IsDrop)
  {
    var f := Drops(rules, sel);
    if id in DroppedIds(FlatMap(u, f)) {
      var d: DroppedMessage :| d in FlatMap(u, f) && d.messageId == id;
      FlatMapElement(u, f, d);
      var m :| m in u && d in f(m);
      assert IsDrop(Dispose(rules, sel, m));
    }
    if m :| m in u && m.messageId == id && IsDrop(Dispose(rules, sel, m)) {
      FlatMapElement(u, f, f(m)[0]);
      assert f(m)[0] in f(m);
    }
  }

  lemma InvalidationsCensus(u: seq<PeeledMessage>, rules: Rules, sel: Selection, id: Id)
    ensures id in InvalidatedIds(FlatMap(u, Invalidations(rules, sel))) <==> Listed(u, rules, sel, id, IsInvalidate)
  {
    var f := Invalidations(rules, sel);
    if id in InvalidatedIds(FlatMap(u, f)) {
      var d: InvalidatedAppMessage :| d in FlatMap(u, f) && d.messageId == id;
      FlatMapElement(u, f, d);
      var m :| m in u && d in f(m);
      assert IsInvalidate(Dispose(rules, sel, m));
    }
    if m :| m in u && m.messageId == id && IsInvalidate(Dispose(rules, sel, m)) {
      FlatMapElement(u, f, f(m)[0]);
      assert f(m)[0] in f(m);
    }
  }

  predicate IsExtra(d: Disposition) { d.AcceptCommit? }

  predicate IsProposal(d: Disposition) { d.AcceptProposal? }

  predicate IsApp(d: Disposition) { d.AcceptApp? }

  lemma AcceptsCensus(u: seq<PeeledMessage>, rules: Rules, sel: Selection, id: Id)
    ensures id in FlatMap(u, ExtraCommits(rules, sel)) <==> Listed(u, rules, sel, id, IsExtra)
    ensures id in FlatMap(u, AcceptedProposals(rules, sel)) <==> Listed(u, rules, sel, id, IsProposal)
    ensures id in FlatMap(u, AcceptedApps(rules, sel)) <==> Listed(u, rules, sel, id, IsApp)
  {
    ExtrasCensus(u, rules, sel, id);
    ProposalsCensus(u, rules, sel, id);
    AppsCensus(u, rules, sel, id);
  }

  lemma ExtrasCensus(u: seq<PeeledMessage>, rules: Rules, sel: Selection, id: Id)
    ensures id in FlatMap(u, ExtraCommits(rules, sel)) <==> Listed(u, rules, sel, id, IsExtra)
  {
    var f := ExtraCommits(rules, sel);
    FlatMapElement(u, f, id);
    forall m | m in u ensures id in f(m) <==> m.messageId == id && IsExtra(Dispose(rules, sel, m)) {}
  }

  lemma ProposalsCensus(u: seq<PeeledMessage>, rules: Rules, sel: Selection, id: Id)
    ensures id in FlatMap(u, AcceptedProposals(rules, sel)) <==> Listed(u, rules, sel, id, IsProposal)
  {
    var f := AcceptedProposals(rules, sel);
    FlatMapElement(u, f, id);
    forall m | m in u ensures id in f(m) <==> m.messageId == id && IsProposal(Dispose(rules, sel, m)) {}
  }

  lemma AppsCensus(u: seq<PeeledMessage>, rules: Rules, sel: Selection, id: Id)
    ensures id in FlatMap(u, AcceptedApps(rules, sel)) <==> Listed(u, rules, sel, id, IsApp)
  {
    var f := AcceptedApps(rules, sel);
    FlatMapElement(u, f, id);
    forall m | m in u ensures id in f(m) <==> m.messageId == id && IsApp(Dispose(rules, sel, m)) {}
  }

  // ----- the lists of a pass -----

  /** The commits dropped because a replayed branch other than the selected one carries them. */
  function Losing(input: CanonicalizationInput, replayed: seq<MaterializedCandidate>): seq<Id> {
    LosingCommits(CommitsByBranch(replayed), PassSelection(input, replayed).branchId)
  }

  lemma NothingReplayed(input: CanonicalizationInput)
    ensures Losing(input, []) == []
  {
    assert SortedKeys({}) == [];
  }

  ghost predicate ListedIn(input: CanonicalizationInput, replayed: seq<MaterializedCandidate>, id: Id,
                           p: Disposition -> bool) {
    Listed(Kept(input), input.Rules(), PassSelection(input, replayed), id, p)
  }

  lemma UnsortedLists(input: CanonicalizationInput, replayed: seq<MaterializedCandidate>)
    ensures var r, u, rules, sel := Unsorted(input, replayed), Kept(input), input.Rules(),
              PassSelection(input, replayed);
            && r.acceptedCommits == sel.commitPath + FlatMap(u, ExtraCommits(rules, sel))
            && r.acceptedProposals == FlatMap(u, AcceptedProposals(rules, sel))
            && r.acceptedAppMessages == FlatMap(u, AcceptedApps(rules, sel))
            && r.invalidatedAppMessages == FlatMap(u, Invalidations(rules, sel))
            && r.droppedMessages == DropMissing(FlatMap(u, Drops(rules, sel)), Losing(input, replayed))
  {
  }

  lemma {:induction false} DropMissingIds(dropped: seq<DroppedMessage>, ids: seq<Id>)
    ensures DroppedIds(DropMissing(dropped, ids)) == DroppedIds(dropped) + IdSet(ids)
  {
    if ids != [] {
      var n := |ids| - 1;
      DropMissingIds(dropped, ids[..n]);
      assert ids == ids[..n] + [ids[n]];
      assert IdSet(ids) == IdSet(ids[..n]) + {ids[n]};
      var sofar := DropMissing(dropped, ids[..n]);
      assert HasDrop(sofar, ids[n]) <==> ids[n] in DroppedIds(sofar);
      var d := DroppedMessage(ids[n], CommitKind, InvalidAgainstCandidateState);
      assert forall x :: x in sofar + [d] <==> x in sofar || x == d;
      assert DroppedIds(sofar + [d]) == DroppedIds(sofar) + {ids[n]};
    }
  }

  lemma UnionMember(path: seq<Id>, xs: seq<Id>, ys: seq<Id>, zs: seq<Id>, id: Id)
    ensures id in IdSet(path + xs) + IdSet(ys) + IdSet(zs) <==> id in path || id in xs || id in ys || id in zs
  {
    assert id in path + xs <==> id in path || id in xs;
  }

  lemma AcceptedCensus(u: seq<PeeledMessage>, rules: Rules, sel: Selection, id: Id)
    ensures id in IdSet(sel.commitPath + FlatMap(u, ExtraCommits(rules, sel)))
                  + IdSet(FlatMap(u, AcceptedProposals(rules, sel))) + IdSet(FlatMap(u, AcceptedApps(rules, sel)))
            <==> id in sel.commitPath || Listed(u, rules, sel, id, IsAccepting)
  {
    AcceptsCensus(u, rules, sel, id);
    AcceptingCases(u, rules, sel, id);
    UnionMember(sel.commitPath, FlatMap(u, ExtraCommits(rules, sel)), FlatMap(u, AcceptedProposals(rules, sel)),
                FlatMap(u, AcceptedApps(rules, sel)), id);
  }

  lemma AcceptingCases(u: seq<PeeledMessage>, rules: Rules, sel: Selection, id: Id)
    ensures Listed(u, rules, sel, id, IsExtra) || Listed(u, rules, sel, id, IsProposal)
            || Listed(u, rules, sel, id, IsApp)
            ==> Listed(u, rules, sel, id, IsAccepting)
    ensures Listed(u, rules, sel, id, IsAccepting) ==>
              || id in sel.commitPath || Listed(u, rules, sel, id, IsExtra)
              || Listed(u, rules, sel, id, IsProposal) || Listed(u, rules, sel, id, IsApp)
  {
    forall m | m in u && m.messageId == id
      ensures IsAccepting(Dispose(rules, sel, m)) <==>
              || Dispose(rules, sel, m).OnSelectedPath?
              || IsExtra(Dispose(rules, sel, m)) || IsProposal(Dispose(rules, sel, m)) || IsApp(Dispose(rules, sel, m))
    {}
  }

  lemma UnsortedCensus(input: CanonicalizationInput, replayed: seq<MaterializedCandidate>, id: Id)
    ensures var r := Unsorted(input, replayed);
            && (id in AcceptedIds(r) <==>
                id in PassSelection(input, replayed).commitPath || ListedIn(input, replayed, id, IsAccepting))
            && (id in DroppedIds(r.droppedMessages) <==>
                id in Losing(input, replayed) || ListedIn(input, replayed, id, IsDrop))
            && (id in InvalidatedIds(r.invalidatedAppMessages) <==> ListedIn(input, replayed, id, IsInvalidate))
  {
    var u, rules, sel := Kept(input), input.Rules(), PassSelection(input, replayed);
    UnsortedLists(input, replayed);
    DropsCensus(u, rules, sel, id);
    DropMissingIds(FlatMap(u, Drops(rules, sel)), Losing(input, replayed));
    InvalidationsCensus(u, rules, sel, id);
    AcceptedCensus(u, rules, sel, id);
  }

  /** Sorting keeps every list's ids. */
  lemma SortedIds(input: CanonicalizationInput, replayed: seq<MaterializedCandidate>)
    ensures var r, u := CanonicalizeInternal(input, replayed), Unsorted(input, replayed);
            && AcceptedIds(r) == AcceptedIds(u)
            && DroppedIds(r.droppedMessages) == DroppedIds(u.droppedMessages)
            && InvalidatedIds(r.invalidatedAppMessages) == InvalidatedIds(u.invalidatedAppMessages)
  {
    SortingElements(Gated(input, Unsorted(input, replayed)));
  }

  lemma SortingElements(u: CanonicalizationResult)
    ensures var r := Sorting(u);
            && AcceptedIds(r) == AcceptedIds(u)
            && DroppedIds(r.droppedMessages) == DroppedIds(u.droppedMessages)
            && InvalidatedIds(r.invalidatedAppMessages) == InvalidatedIds(u.invalidatedAppMessages)
  {
    BytesOrder();
    SortElements(u.acceptedProposals, BytesLe);
    SortElements(u.acceptedAppMessages, BytesLe);
    DroppedOrder();
    SortElements(u.droppedMessages, DroppedLe);
    InvalidatedOrder();
    SortElements(u.invalidatedAppMessages, InvalidatedLe);
  }

  /** The result's lists: the kept messages of each disposition, and besides
      them the selected path and the commits of losing replayed branches. */
  lemma Census(input: CanonicalizationInput, replayed: seq<MaterializedCandidate>, id: Id)
    ensures var r := CanonicalizeInternal(input, replayed);
            && (id in AcceptedIds(r) <==>
                id in PassSelection(input, replayed).commitPath || ListedIn(input, replayed, id, IsAccepting))
            && (id in DroppedIds(r.droppedMessages) <==>
                id in Losing(input, replayed) || ListedIn(input, replayed, id, IsDrop))
            && (id in InvalidatedIds(r.invalidatedAppMessages) <==> ListedIn(input, replayed, id, IsInvalidate))
  {
    SortedIds(input, replayed);
    UnsortedCensus(input, replayed, id);
  }

  lemma OneDisposition(input: CanonicalizationInput, replayed: seq<MaterializedCandidate>, id: Id)
    ensures !(ListedIn(input, replayed, id, IsAccepting) && ListedIn(input, replayed, id, IsDrop))
    ensures !(ListedIn(input, replayed, id, IsAccepting) && ListedIn(input, replayed, id, IsInvalidate))
    ensures !(ListedIn(input, replayed, id, IsDrop) && ListedIn(input, replayed, id, IsInvalidate))
  {
    forall a, b | a in Kept(input) && b in Kept(input) && a.messageId == b.messageId ensures a == b {
      SameIdSame(input, a, b);
    }
  }

  // ----- no id in two lists -----

  ghost predicate Exclusive(r: CanonicalizationResult) {
    && AcceptedIds(r) !! DroppedIds(r.droppedMessages)
    && AcceptedIds(r) !! InvalidatedIds(r.invalidatedAppMessages)
    && DroppedIds(r.droppedMessages) !! InvalidatedIds(r.invalidatedAppMessages)
  }

  /** The ways to land in two lists: a losing replayed branch shares a commit
      with the selected path; a kept message whose id is on the path is dropped
      or invalidated; one that a losing branch carries is accepted or
      invalidated. */
  ghost predicate Clashes(input: CanonicalizationInput, replayed: seq<MaterializedCandidate>, id: Id) {
    var path, losing := PassSelection(input, replayed).commitPath, Losing(input, replayed);
    || (id in path && id in losing)
    || (id in path && (ListedIn(input, replayed, id, IsDrop) || ListedIn(input, replayed, id, IsInvalidate)))
    || (id in losing && (ListedIn(input, replayed, id, IsAccepting) || ListedIn(input, replayed, id, IsInvalidate)))
  }

  ghost predicate InTwoLists(r: CanonicalizationResult, id: Id) {
    || (id in AcceptedIds(r) && id in DroppedIds(r.droppedMessages))
    || (id in AcceptedIds(r) && id in InvalidatedIds(r.invalidatedAppMessages))
    || (id in DroppedIds(r.droppedMessages) && id in InvalidatedIds(r.invalidatedAppMessages))
  }

  lemma ExclusiveMeans(r: CanonicalizationResult)
    ensures Exclusive(r) <==> forall id :: !InTwoLists(r, id)
  {
    if !Exclusive(r) {
      if id :| id in AcceptedIds(r) && id in DroppedIds(r.droppedMessages) {
        assert InTwoLists(r, id);
      } else if id :| id in AcceptedIds(r) && id in InvalidatedIds(r.invalidatedAppMessages) {
        assert InTwoLists(r, id);
      } else {
        var id :| id in DroppedIds(r.droppedMessages) && id in InvalidatedIds(r.invalidatedAppMessages);
        assert InTwoLists(r, id);
      }
    }
    if id :| InTwoLists(r, id) { assert !Exclusive(r); }
  }

  lemma InTwoListsIff(input: CanonicalizationInput, replayed: seq<MaterializedCandidate>, id: Id)
    ensures InTwoLists(CanonicalizeInternal(input, replayed), id) <==> Clashes(input, replayed, id)
  {
    Census(input, replayed, id);
    OneDisposition(input, replayed, id);
  }

  /** With or without replayed candidates, no id is in two of the accepted,
      dropped and invalidated lists exactly when nothing clashes. */
  lemma ListsExclusiveIff(input: CanonicalizationInput, replayed: seq<MaterializedCandidate>)
    ensures Exclusive(CanonicalizeInternal(input, replayed)) <==> forall id :: !Clashes(input, replayed, id)
  {
    ExclusiveMeans(CanonicalizeInternal(input, replayed));
    forall id ensures InTwoLists(CanonicalizeInternal(input, replayed), id) <==> Clashes(input, replayed, id) {
      InTwoListsIff(input, replayed, id);
    }
  }

  /** On a path that names a kept commit in the window, that commit is accepted. */
  lemma KeptPathAccepts(input: CanonicalizationInput, replayed: seq<MaterializedCandidate>, id: Id)
    requires id in PassSelection(input, replayed).commitPath
    requires exists m :: m in Kept(input) && m.messageId == id && Plausible(input.Window(), m)
    ensures ListedIn(input, replayed, id, IsAccepting)
  {
    var m :| m in Kept(input) && m.messageId == id && Plausible(input.Window(), m);
    OnPathAccepted(input, PassSelection(input, replayed), m);
  }

  lemma OnPathAccepted(input: CanonicalizationInput, sel: Selection, m: PeeledMessage)
    requires Plausible(input.Window(), m) && m.messageId in sel.commitPath
    ensures IsAccepting(Dispose(input.Rules(), sel, m))
  {
  }

  /** In a plain pass no message id is in two lists. */
  lemma ListsExclusive(input: CanonicalizationInput)
    ensures Exclusive(Canonicalize(input))
  {
    NothingReplayed(input);
    forall id ensures !Clashes(input, [], id) {
      if id in PassSelection(input, []).commitPath {
        PathIsKept(input, id);
        KeptPathAccepts(input, [], id);
        OneDisposition(input, [], id);
      }
    }
    ListsExclusiveIff(input, []);
  }

  // ----- status -----

  /** The id was seen before the pass, or stands at two places of the batch. */
  ghost predicate SeenOrRepeated(input: CanonicalizationInput, id: Id) {
    id in input.state.seenMessageIds || Twice(input.pendingMessages, id)
  }

  ghost predicate Twice(p: seq<PeeledMessage>, id: Id) {
    exists i, j :: 0 <= i < j < |p| && p[i].messageId == id == p[j].messageId
  }

  lemma TwiceStep(p: seq<PeeledMessage>, id: Id)
    requires p != []
    ensures Twice(p, id) <==>
            Twice(p[..|p| - 1], id) || (p[|p| - 1].messageId == id && id in IdsIn(p[..|p| - 1]))
  {
    var n := |p| - 1;
    var pre := p[..n];
    if i, j :| 0 <= i < j < |p| && p[i].messageId == id == p[j].messageId {
      if j < n {
        assert pre[i].messageId == id == pre[j].messageId;
      } else {
        assert pre[i] in pre;
      }
    }
    if i, j :| 0 <= i < j < |pre| && pre[i].messageId == id == pre[j].messageId {
      assert p[i].messageId == id == p[j].messageId;
    }
    if p[n].messageId == id && id in IdsIn(pre) {
      var k :| k in pre && k.messageId == id;
      var i :| 0 <= i < n && pre[i] == k;
      assert p[i].messageId == id == p[n].messageId;
    }
  }

  lemma {:induction false} RepeatedIds(p: seq<PeeledMessage>, seen: set<Id>, id: Id)
    ensures id in SeenIds(Repeats(p, seen)) <==> (id in IdsIn(p) && id in seen) || Twice(p, id)
  {
    if p != [] {
      var n := |p| - 1;
      var pre, rs := p[..n], Repeats(p[..n], seen);
      RepeatedIds(pre, seen, id);
      TwiceStep(p, id);
      assert p == pre + [p[n]];
      assert IdsIn(p) == IdsIn(pre) + {p[n].messageId};
      if p[n].messageId in seen + IdsIn(pre) {
        assert Repeats(p, seen) == rs + [AlreadySeen(p[n].messageId, KindName(p[n]))];
        assert SeenIds(Repeats(p, seen)) == SeenIds(rs) + {p[n].messageId};
      } else {
        assert Repeats(p, seen) == rs;
      }
    }
  }

  /** A commit the pass leaves open: in the window, not on the selected path,
      not naming the selected branch, and either outside the graph or facing
      no selection. */
  predicate LeftOpenBy(w: RollbackWindow, sel: Selection, g: Graph, m: PeeledMessage) {
    && m.kind.Commit?
    && w.Holds(m.kind.forkEpoch)
    && m.messageId !in sel.commitPath
    && sel.branchId != Some(m.kind.branchId)
    && (m.kind.branchId !in g || sel.branchId.None?)
  }

  /** Left open, and not the commit of a losing replayed branch either. */
  predicate LeftOpen(input: CanonicalizationInput, replayed: seq<MaterializedCandidate>, m: PeeledMessage) {
    && LeftOpenBy(input.Window(), PassSelection(input, replayed), PassGraph(input, replayed), m)
    && m.messageId !in Losing(input, replayed)
  }

  lemma OpenIsPending(input: CanonicalizationInput, sel: Selection, g: Graph, m: PeeledMessage)
    requires sel.graphIds == g.Keys && !m.kind.Proposal?
    ensures Dispose(input.Rules(), sel, m) == Pending <==> LeftOpenBy(input.Window(), sel, g, m)
  {
    assert m.kind.Commit? || m.kind.AppMessage?;
  }

  function DisposedIds(r: CanonicalizationResult): set<Id> {
    AcceptedIds(r) + DroppedIds(r.droppedMessages) + InvalidatedIds(r.invalidatedAppMessages)
  }

  lemma ListedIffDisposed(input: CanonicalizationInput, replayed: seq<MaterializedCandidate>, m: PeeledMessage)
    requires m in Kept(input)
    ensures || ListedIn(input, replayed, m.messageId, IsAccepting) || ListedIn(input, replayed, m.messageId, IsDrop)
            || ListedIn(input, replayed, m.messageId, IsInvalidate)
            <==> DispositionOf(input, replayed, m) != Pending
  {
    var d := DispositionOf(input, replayed, m);
    forall v | v in Kept(input) && v.messageId == m.messageId ensures v == m { SameIdSame(input, v, m); }
    if d != Pending {
      assert IsAccepting(d) || IsDrop(d) || IsInvalidate(d);
    }
  }

  lemma KeptDisposed(input: CanonicalizationInput, replayed: seq<MaterializedCandidate>, m: PeeledMessage)
    requires m in Kept(input)
    ensures m.messageId in DisposedIds(Unsorted(input, replayed)) <==>
            || m.messageId in PassSelection(input, replayed).commitPath || m.messageId in Losing(input, replayed)
            || DispositionOf(input, replayed, m) != Pending
  {
    UnsortedCensus(input, replayed, m.messageId);
    ListedIffDisposed(input, replayed, m);
  }

  lemma SingleIsKept(input: CanonicalizationInput, m: PeeledMessage)
    requires m in input.pendingMessages && !SeenOrRepeated(input, m.messageId)
    ensures m in Kept(input)
  {
    UniqueDistinct(input.pendingMessages, input.state.seenMessageIds);
    var kept := Unique(input.pendingMessages, input.state.seenMessageIds);
    assert m.messageId in IdsIn(kept);
    var u :| u in kept && u.messageId == m.messageId;
    OnlyCopy(input.pendingMessages, u, m);
  }

  lemma SeenIffRepeated(input: CanonicalizationInput, replayed: seq<MaterializedCandidate>, m: PeeledMessage)
    requires m in input.pendingMessages
    ensures m.messageId in SeenIds(Unsorted(input, replayed).alreadySeen) <==> SeenOrRepeated(input, m.messageId)
  {
    RepeatedIds(input.pendingMessages, input.state.seenMessageIds, m.messageId);
  }

  lemma UnresolvedIff(input: CanonicalizationInput, replayed: seq<MaterializedCandidate>, m: PeeledMessage)
    requires m in input.pendingMessages && !m.kind.Proposal?
    ensures m.messageId !in ResolvedIds(Unsorted(input, replayed)) <==>
            LeftOpen(input, replayed, m) && !SeenOrRepeated(input, m.messageId)
  {
    SeenIffRepeated(input, replayed, m);
    ResolvedSplit(Unsorted(input, replayed));
    if !SeenOrRepeated(input, m.messageId) {
      SingleIsKept(input, m);
      KeptDisposed(input, replayed, m);
      SelectedInGraph(input, replayed);
      OpenIsPending(input, PassSelection(input, replayed), PassGraph(input, replayed), m);
    }
  }

  lemma ResolvedSplit(r: CanonicalizationResult)
    ensures ResolvedIds(r) == DisposedIds(r) + SeenIds(r.alreadySeen)
  {
  }

  lemma OnlyCopy(p: seq<PeeledMessage>, u: PeeledMessage, m: PeeledMessage)
    requires u in p && m in p && u.messageId == m.messageId
    requires !Twice(p, m.messageId)
    ensures u == m
  {
    var i :| 0 <= i < |p| && p[i] == u;
    var j :| 0 <= j < |p| && p[j] == m;
    if i < j { assert p[i].messageId == m.messageId == p[j].messageId; }
    if j < i { assert p[j].messageId == m.messageId == p[i].messageId; }
  }

  /** Some commit that is new to the pass and stands once in the batch is left open. */
  ghost predicate OpenOnce(input: CanonicalizationInput, replayed: seq<MaterializedCandidate>) {
    exists m :: m in input.pendingMessages && LeftOpen(input, replayed, m) && !SeenOrRepeated(input, m.messageId)
  }

  lemma UnresolvedIffOpenOnce(input: CanonicalizationInput, replayed: seq<MaterializedCandidate>)
    ensures var resolved := ResolvedIds(Unsorted(input, replayed));
            (exists m :: m in input.pendingMessages && Unresolved(m, resolved)) <==> OpenOnce(input, replayed)
  {
    var resolved := ResolvedIds(Unsorted(input, replayed));
    forall m | m in input.pendingMessages
      ensures Unresolved(m, resolved) <==> LeftOpen(input, replayed, m) && !SeenOrRepeated(input, m.messageId)
    {
      if !m.kind.Proposal? { UnresolvedIff(input, replayed, m); }
    }
  }

  /** The status, exactly, with or without replayed candidates: syncing until
      the window is quiet; then resolving when some commit that is new to the
      pass and stands once in the batch is left open; otherwise settled.
      Blocked is never produced. */
  lemma StatusExact(input: CanonicalizationInput, replayed: seq<MaterializedCandidate>)
    ensures CanonicalizeInternal(input, replayed).convergenceStatus
            == if !Quiesced(input) then Syncing else if OpenOnce(input, replayed) then Resolving else Settled
  {
    UnresolvedIffOpenOnce(input, replayed);
    NoAnchorError(input, replayed);
    StatusIsFor(input, Unsorted(input, replayed));
  }

  lemma StatusIsFor(input: CanonicalizationInput, r: CanonicalizationResult)
    ensures Sorting(Gated(input, r)).convergenceStatus == StatusFor(input, r)
  {
  }

  /** Sends are conserved: all published when settled, all queued otherwise. */
  lemma IntentsConserved(input: CanonicalizationInput, replayed: seq<MaterializedCandidate>)
    ensures var r := CanonicalizeInternal(input, replayed);
            && multiset(r.queuedOutboundIntents) + multiset(r.publishableOutboundMessages)
                == multiset(input.outboundIntents)
            && (r.convergenceStatus == Settled ==> r.queuedOutboundIntents == [])
            && (r.convergenceStatus != Settled ==> r.publishableOutboundMessages == [])
  {
    IntentOrder();
    SortSorts(input.outboundIntents, IntentLe);
  }

  // ----- replay -----

  lemma {:induction false} AllSeenKeepsNothing(p: seq<PeeledMessage>, seen: set<Id>)
    requires IdsIn(p) <= seen
    ensures Unique(p, seen) == []
    ensures Repeats(p, seen) == FlatMap(p, SeenRecord)
  {
    if p != [] {
      var n := |p| - 1;
      assert p == p[..n] + [p[n]];
      assert p[n].messageId in IdsIn(p);
      AllSeenKeepsNothing(p[..n], seen);
    }
  }

  lemma ReplayUnsorted(input: CanonicalizationInput, replayed: seq<MaterializedCandidate>)
    requires IdsIn(input.pendingMessages) <= input.state.seenMessageIds
    ensures Unsorted(input, replayed)
            == Unsorted(input.(pendingMessages := []), replayed)
               .(alreadySeen := FlatMap(input.pendingMessages, SeenRecord))
  {
    AllSeenKeepsNothing(input.pendingMessages, input.state.seenMessageIds);
    assert PassCandidates(input, replayed) == PassCandidates(input.(pendingMessages := []), replayed);
  }

  lemma AllReported(p: seq<PeeledMessage>, m: PeeledMessage)
    requires m in p
    ensures m.messageId in SeenIds(FlatMap(p, SeenRecord))
  {
    var record := AlreadySeen(m.messageId, KindName(m));
    FlatMapElement(p, SeenRecord, record);
    assert record in SeenRecord(m);
  }

  /** A batch of seen ids changes nothing: the pass decides what it decides
      with no messages at all, reports every one of them as seen, and settles
      once quiet. */
  lemma ReplaySettles(input: CanonicalizationInput, replayed: seq<MaterializedCandidate>)
    requires IdsIn(input.pendingMessages) <= input.state.seenMessageIds
    ensures var r, idle := CanonicalizeInternal(input, replayed),
              CanonicalizeInternal(input.(pendingMessages := []), replayed);
            && Decisions(r) == Decisions(idle) && r.acceptedCommits == idle.acceptedCommits
            && multiset(r.alreadySeen) == multiset(FlatMap(input.pendingMessages, SeenRecord))
            && r.convergenceStatus == (if Quiesced(input) then Settled else Syncing)
  {
    ReplayUnsorted(input, replayed);
    NoAnchorError(input, replayed);
    ReplayFinished(input, Unsorted(input, replayed), Unsorted(input.(pendingMessages := []), replayed));
  }

  lemma NoAnchorError(input: CanonicalizationInput, replayed: seq<MaterializedCandidate>)
    ensures MissingRetainedAnchor !in Unsorted(input, replayed).errors
  {
    var errors := Unsorted(input, replayed).errors;
    assert errors == [] || errors == [CandidateStateUnavailable];
  }

  lemma GatedDecisions(input: CanonicalizationInput, r: CanonicalizationResult)
    ensures Decisions(Sorting(Gated(input, r))) == Decisions(Sorting(r))
    ensures Sorting(Gated(input, r)).acceptedCommits == r.acceptedCommits
  {
  }

  lemma SeenNotDecided(r: CanonicalizationResult, s: CanonicalizationResult, seen: seq<AlreadySeen>)
    requires r == s.(alreadySeen := seen)
    ensures Decisions(Sorting(r)) == Decisions(Sorting(s))
  {
  }

  lemma ReplayStatus(input: CanonicalizationInput, r: CanonicalizationResult)
    requires r.alreadySeen == FlatMap(input.pendingMessages, SeenRecord) && MissingRetainedAnchor !in r.errors
    ensures StatusFor(input, r) == if Quiesced(input) then Settled else Syncing
  {
    forall m | m in input.pendingMessages ensures m.messageId in ResolvedIds(r) {
      AllReported(input.pendingMessages, m);
    }
  }

  lemma ReplayFinished(input: CanonicalizationInput, r: CanonicalizationResult, s: CanonicalizationResult)
    requires r == s.(alreadySeen := FlatMap(input.pendingMessages, SeenRecord)) && MissingRetainedAnchor !in r.errors
    ensures var x, y := Sorting(Gated(input, r)), Sorting(Gated(input.(pendingMessages := []), s));
            && Decisions(x) == Decisions(y) && x.acceptedCommits == y.acceptedCommits
            && multiset(x.alreadySeen) == multiset(FlatMap(input.pendingMessages, SeenRecord))
            && x.convergenceStatus == (if Quiesced(input) then Settled else Syncing)
  {
    GatedDecisions(input, r);
    GatedDecisions(input.(pendingMessages := []), s);
    SeenNotDecided(r, s, r.alreadySeen);
    ReplayStatus(input, r);
    StatusIsFor(input, r);
    SeenOrder();
    SortSorts(r.alreadySeen, SeenLe);
  }
}
