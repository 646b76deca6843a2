/** Branches an adapter replayed itself: the losers' commits are dropped even
    where the winner shares them. */
module ReplayedBranches {
  import opened Orders
  import opened Convergence
  import opened Messages
  import opened Materialization
  import opened BranchPaths
  import opened Canonicalization
  import opened Dispositions

  /** Every commit id of every replayed branch. */
  function ReplayedCommits(replayed: seq<MaterializedCandidate>): set<Id> {
    set m, id | m in replayed && id in m.commitMessageIds :: id
  }

  lemma ReplayedStep(replayed: seq<MaterializedCandidate>)
    requires replayed != []
    ensures var n := |replayed| - 1;
            ReplayedCommits(replayed) == ReplayedCommits(replayed[..n]) + IdSet(replayed[n].commitMessageIds)
  {
    var n := |replayed| - 1;
    assert replayed == replayed[..n] + [replayed[n]];
    forall id | id in ReplayedCommits(replayed[..n]) + IdSet(replayed[n].commitMessageIds)
      ensures id in ReplayedCommits(replayed)
    {
      if id in ReplayedCommits(replayed[..n]) {
        var m :| m in replayed[..n] && id in m.commitMessageIds;
        assert m in replayed;
      } else {
        assert replayed[n] in replayed && id in replayed[n].commitMessageIds;
      }
    }
    forall id | id in ReplayedCommits(replayed)
      ensures id in ReplayedCommits(replayed[..n]) + IdSet(replayed[n].commitMessageIds)
    {
      var m :| m in replayed && id in m.commitMessageIds;
      assert m in replayed[..n] || m == replayed[n];
    }
  }

  lemma {:induction false} RootPathsReplayed(cs: seq<BranchCandidate>, replayed: seq<MaterializedCandidate>)
    ensures forall b, id :: b in Roots(cs, replayed) && id in Roots(cs, replayed)[b].commitPath ==>
              id in ReplayedCommits(replayed)
  {
    if replayed == [] {
      SeedPathsEmpty(cs);
    } else {
      var n := |replayed| - 1;
      RootPathsReplayed(cs, replayed[..n]);
      ReplayedStep(replayed);
      assert Roots(cs, replayed) == Roots(cs, replayed[..n])[replayed[n].branch.id := ReplayedBranch(replayed[n])];
    }
  }

  lemma {:induction false} ByBranchReplayed(replayed: seq<MaterializedCandidate>)
    ensures forall b, id :: b in CommitsByBranch(replayed) && id in CommitsByBranch(replayed)[b] ==>
              id in ReplayedCommits(replayed)
  {
    if replayed != [] {
      var n := |replayed| - 1;
      ByBranchReplayed(replayed[..n]);
      ReplayedStep(replayed);
    }
  }

  lemma LosingIsReplayed(replayed: seq<MaterializedCandidate>, selected: Option<Id>, id: Id)
    requires id in LosingCommits(CommitsByBranch(replayed), selected)
    ensures id in ReplayedCommits(replayed)
  {
    ByBranchReplayed(replayed);
    LosingInTable(CommitsByBranch(replayed), selected.value, id);
  }

  lemma BranchCommitsHold(table: map<Id, set<Id>>, selected: Id, b: Id, id: Id)
    requires id in BranchCommits(table, selected)(b)
    ensures b in table && id in table[b]
  {
  }

  lemma LosingInTable(table: map<Id, set<Id>>, selected: Id, id: Id)
    requires id in LosingCommits(table, Some(selected))
    ensures exists b :: b in table && id in table[b]
  {
    var f := BranchCommits(table, selected);
    var b := Collected(SortedKeys(table.Keys), f, id);
    BranchCommitsHold(table, selected, b, id);
  }

  lemma Collected<T, U>(s: seq<T>, f: T -> seq<U>, y: U) returns (x: T)
    requires y in FlatMap(s, f)
    ensures x in s && y in f(x)
  {
    FlatMapElement(s, f, y);
    x :| x in s && y in f(x);
  }

  /** A selected path consists of replayed commits and of kept commits in the window. */
  lemma PathReplayedOrKept(input: CanonicalizationInput, replayed: seq<MaterializedCandidate>, id: Id)
    requires id in PassSelection(input, replayed).commitPath && id !in ReplayedCommits(replayed)
    ensures exists m :: m in Kept(input) && m.messageId == id && Plausible(input.Window(), m)
  {
    SelectedInGraph(input, replayed);
    var w, roots, ms := input.Window(), Roots(input.candidateBranches, replayed), OrderedCommits(Kept(input));
    var b := PassSelection(input, replayed).branchId.value;
    UniqueDistinct(input.pendingMessages, input.state.seenMessageIds);
    OrderedCommitsFacts(Kept(input));
    RootPathsReplayed(input.candidateBranches, replayed);
    PathNamesCommits(w, roots, ms, b, id);
  }

  lemma KeptIds(input: CanonicalizationInput, replayed: seq<MaterializedCandidate>, id: Id, p: Disposition -> bool)
    requires IdsIn(input.pendingMessages) !! ReplayedCommits(replayed) && ListedIn(input, replayed, id, p)
    ensures id !in ReplayedCommits(replayed)
  {
    UniqueDistinct(input.pendingMessages, input.state.seenMessageIds);
    var m :| m in Kept(input) && m.messageId == id && p(Dispose(input.Rules(), PassSelection(input, replayed), m));
    assert m in input.pendingMessages;
  }

  lemma KeptNotLosing(input: CanonicalizationInput, replayed: seq<MaterializedCandidate>, id: Id,
                      p: Disposition -> bool)
    requires IdsIn(input.pendingMessages) !! ReplayedCommits(replayed) && ListedIn(input, replayed, id, p)
    ensures id !in Losing(input, replayed)
  {
    KeptIds(input, replayed, id, p);
    if id in Losing(input, replayed) { LosingIsReplayed(replayed, PassSelection(input, replayed).branchId, id); }
  }

  lemma KeptOnPathAccepted(input: CanonicalizationInput, replayed: seq<MaterializedCandidate>, id: Id,
                           p: Disposition -> bool)
    requires IdsIn(input.pendingMessages) !! ReplayedCommits(replayed) && ListedIn(input, replayed, id, p)
    requires id in PassSelection(input, replayed).commitPath
    ensures ListedIn(input, replayed, id, IsAccepting)
  {
    KeptIds(input, replayed, id, p);
    PathReplayedOrKept(input, replayed, id);
    KeptPathAccepts(input, replayed, id);
  }

  lemma OnlySharedCommitsClash(input: CanonicalizationInput, replayed: seq<MaterializedCandidate>, id: Id)
    requires IdsIn(input.pendingMessages) !! ReplayedCommits(replayed)
    ensures Clashes(input, replayed, id) <==>
            id in PassSelection(input, replayed).commitPath && id in Losing(input, replayed)
  {
    OneDisposition(input, replayed, id);
    if ListedIn(input, replayed, id, IsAccepting) { KeptNotLosing(input, replayed, id, IsAccepting); }
    if ListedIn(input, replayed, id, IsInvalidate) { KeptNotLosing(input, replayed, id, IsInvalidate); }
    if id in PassSelection(input, replayed).commitPath {
      if ListedIn(input, replayed, id, IsDrop) { KeptOnPathAccepted(input, replayed, id, IsDrop); }
      if ListedIn(input, replayed, id, IsInvalidate) { KeptOnPathAccepted(input, replayed, id, IsInvalidate); }
    }
  }

  /** When no pending message is one of the replayed commits, no id is in two
      lists exactly when no losing replayed branch shares a commit with the
      selected path. */
  lemma ReplayedExclusiveIff(input: CanonicalizationInput, replayed: seq<MaterializedCandidate>)
    requires IdsIn(input.pendingMessages) !! ReplayedCommits(replayed)
    ensures Exclusive(CanonicalizeInternal(input, replayed)) <==>
            IdSet(Losing(input, replayed)) !! IdSet(PassSelection(input, replayed).commitPath)
  {
    ListsExclusiveIff(input, replayed);
    forall id ensures Clashes(input, replayed, id) <==>
                      id in IdSet(PassSelection(input, replayed).commitPath) && id in IdSet(Losing(input, replayed))
    {
      OnlySharedCommitsClash(input, replayed, id);
    }
    DisjointIff(input, replayed, IdSet(Losing(input, replayed)), IdSet(PassSelection(input, replayed).commitPath));
  }

  lemma DisjointIff(input: CanonicalizationInput, replayed: seq<MaterializedCandidate>, a: set<Id>, b: set<Id>)
    requires forall id :: Clashes(input, replayed, id) <==> id in b && id in a
    ensures a !! b <==> forall id :: !Clashes(input, replayed, id)
  {
    if id :| id in a && id in b { assert Clashes(input, replayed, id); }
  }
}
