/** Every branch grown from commits carries a well-formed path. */
module BranchPaths {
  import opened Orders
  import opened Messages
  import opened Materialization

  function IdsOf(line: seq<PeeledMessage>): seq<Id> {
    if line == [] then [] else IdsOf(line[..|line| - 1]) + [line[|line| - 1].messageId]
  }

  function BranchesOf(line: seq<PeeledMessage>): set<Id>
    requires forall i :: 0 <= i < |line| ==> line[i].kind.Commit?
  {
    if line == [] then {} else BranchesOf(line[..|line| - 1]) + {line[|line| - 1].kind.branchId}
  }

  function ConsumedBy(line: seq<PeeledMessage>): set<Id>
    requires forall i :: 0 <= i < |line| ==> line[i].kind.Commit?
  {
    if line == [] then {} else ConsumedBy(line[..|line| - 1]) + IdSet(line[|line| - 1].kind.consumedProposalIds)
  }

  /** A chain of plausible commits, each starting where the one before it
      ended, whose first commit starts from a root or from its fork epoch. */
  ghost predicate Chain(w: RollbackWindow, roots: Graph, line: seq<PeeledMessage>) {
    && line != []
    && (forall i :: 0 <= i < |line| ==> Plausible(w, line[i]) && line[i].kind.branchId !in roots)
    && (forall i :: 0 < i < |line| ==>
          && line[i].kind.parentBranchId == Some(line[i - 1].kind.branchId)
          && line[i].sourceEpoch == line[i - 1].kind.resultingEpoch)
    && SourceEpochMatchesParent(roots, line[0].kind.parentBranchId, line[0].sourceEpoch, line[0].kind.forkEpoch)
  }

  /** The branch that a chain of commits builds on the roots. */
  function Built(roots: Graph, line: seq<PeeledMessage>): Branch
    requires line != [] && forall i :: 0 <= i < |line| ==> line[i].kind.Commit?
    requires ResolveParent(roots, line[0].kind.parentBranchId, line[0].kind.forkEpoch).Some?
  {
    var n := |line| - 1;
    if n == 0 then
      GrownBranch(ResolveParent(roots, line[0].kind.parentBranchId, line[0].kind.forkEpoch).value, line[0])
    else
      var p := Built(roots, line[..n]);
      GrownBranch(AsParent(p), line[n])
  }

  ghost predicate Commits(line: seq<PeeledMessage>) {
    forall i :: 0 <= i < |line| ==> line[i].kind.Commit?
  }

  ghost predicate ReadsOut(root: ResolvedParent, x: Branch, line: seq<PeeledMessage>)
    requires line != [] && Commits(line)
  {
    && x.candidate.forkEpoch == root.forkEpoch
    && x.candidate.tipEpoch == line[|line| - 1].kind.resultingEpoch
    && x.candidate.id == line[|line| - 1].kind.branchId
    && x.commitPath == root.commitPath + IdsOf(line)
    && x.branchPath == root.branchPath + BranchesOf(line)
    && x.consumedProposalIds == root.consumedProposalIds + ConsumedBy(line)
  }

  lemma OneCommitLonger(root: ResolvedParent, p: Branch, line: seq<PeeledMessage>)
    requires |line| > 1 && Commits(line) && ReadsOut(root, p, line[..|line| - 1])
    ensures ReadsOut(root, GrownBranch(AsParent(p), line[|line| - 1]), line)
  {
    var n := |line| - 1;
    assert root.commitPath + IdsOf(line[..n]) + [line[n].messageId] == root.commitPath + IdsOf(line);
  }

  /** What a chain's branch holds, said without following the recursion. */
  lemma {:induction false} BuiltReadout(roots: Graph, line: seq<PeeledMessage>, root: ResolvedParent)
    requires line != [] && Commits(line)
    requires ResolveParent(roots, line[0].kind.parentBranchId, line[0].kind.forkEpoch) == Some(root)
    ensures ReadsOut(root, Built(roots, line), line)
  {
    var n := |line| - 1;
    var pre := line[..n];
    if n == 0 {
      assert pre == [];
      assert IdsOf(pre) == [] && BranchesOf(pre) == {} && ConsumedBy(pre) == {};
    } else {
      BuiltReadout(roots, pre, root);
      assert Built(roots, line) == GrownBranch(AsParent(Built(roots, pre)), line[n]);
      OneCommitLonger(root, Built(roots, pre), line);
    }
  }

  lemma {:induction false} ChainClimbs(w: RollbackWindow, roots: Graph, line: seq<PeeledMessage>, i: nat, j: nat)
    requires Chain(w, roots, line) && i < j < |line|
    ensures line[i].kind.resultingEpoch <= line[j].sourceEpoch
    ensures line[i].sourceEpoch < line[j].sourceEpoch
    decreases j
  {
    if i < j - 1 { ChainClimbs(w, roots, line, i, j - 1); }
    assert Plausible(w, line[j - 1]);
  }

  lemma {:induction false} IdsOfAt(line: seq<PeeledMessage>)
    ensures |IdsOf(line)| == |line|
    ensures forall i :: 0 <= i < |line| ==> IdsOf(line)[i] == line[i].messageId
  {
    if line != [] { IdsOfAt(line[..|line| - 1]); }
  }

  lemma {:induction false} ChainDepth(w: RollbackWindow, roots: Graph, line: seq<PeeledMessage>, k: nat)
    requires Chain(w, roots, line) && k < |line|
    ensures line[0].sourceEpoch + k + 1 <= line[k].kind.resultingEpoch
    decreases k
  {
    assert Plausible(w, line[k]);
    if k > 0 { ChainDepth(w, roots, line, k - 1); }
  }

  ghost predicate GrownBy(w: RollbackWindow, roots: Graph, ms: seq<PeeledMessage>, x: Branch,
                          line: seq<PeeledMessage>) {
    && Chain(w, roots, line)
    && (forall m :: m in line ==> m in ms)
    && x == Built(roots, line)
  }

  ghost predicate HasLine(w: RollbackWindow, roots: Graph, ms: seq<PeeledMessage>, x: Branch, m: PeeledMessage) {
    exists line: seq<PeeledMessage> :: GrownBy(w, roots, ms, x, line) && line[|line| - 1] == m
  }

  lemma RootEntrant(w: RollbackWindow, roots: Graph, ms: seq<PeeledMessage>, k: nat)
    requires k < |ms| && Enters(w, roots, ms, k)
    requires ms[k].kind.parentBranchId.None? || ms[k].kind.parentBranchId.value in roots
    ensures ms[k].kind.branchId in Pass(w, roots, ms)
            && HasLine(w, roots, ms, Pass(w, roots, ms)[ms[k].kind.branchId], ms[k])
  {
    EntryValue(w, roots, ms, k);
    var m := ms[k];
    PassEntry(w, roots, ms[..k], m.kind.branchId);
    if m.kind.parentBranchId.Some? { PassEntry(w, roots, ms[..k], m.kind.parentBranchId.value); }
    assert m in ms;
    assert GrownBy(w, roots, ms, Pass(w, roots, ms)[m.kind.branchId], [m]);
    assert [m][|[m]| - 1] == m;
  }

  /** A child's branch from the line of its parent. */
  lemma ChildEntrant(w: RollbackWindow, roots: Graph, ms: seq<PeeledMessage>, k: nat, j: nat)
    requires j < k < |ms| && Enters(w, roots, ms, k) && Enters(w, roots, ms, j)
    requires ms[k].kind.parentBranchId == Some(ms[j].kind.branchId) && ms[j].kind.branchId !in roots
    requires ms[j].kind.branchId in Pass(w, roots, ms)
             && HasLine(w, roots, ms, Pass(w, roots, ms)[ms[j].kind.branchId], ms[j])
    ensures ms[k].kind.branchId in Pass(w, roots, ms)
            && HasLine(w, roots, ms, Pass(w, roots, ms)[ms[k].kind.branchId], ms[k])
  {
    var m, p := ms[k], ms[j].kind.branchId;
    EntryValue(w, roots, ms, k);
    EntryValue(w, roots, ms, j);
    PassExtends(w, roots, ms, k);
    PassEntry(w, roots, ms[..k], m.kind.branchId);
    assert p in Pass(w, roots, ms[..k]);
    var line: seq<PeeledMessage> :| GrownBy(w, roots, ms, Pass(w, roots, ms)[p], line) && line[|line| - 1] == ms[j];
    ExtendChain(w, roots, ms, line, m, Pass(w, roots, ms)[p]);
    assert (line + [m])[|line + [m]| - 1] == m;
  }

  /** An entrant's branch is built by a chain of entrants. */
  lemma {:induction false} EntrantChain(w: RollbackWindow, roots: Graph, ms: seq<PeeledMessage>, k: nat)
    requires k < |ms| && Enters(w, roots, ms, k)
    ensures ms[k].kind.branchId in Pass(w, roots, ms)
            && HasLine(w, roots, ms, Pass(w, roots, ms)[ms[k].kind.branchId], ms[k])
    decreases k
  {
    var m := ms[k];
    if m.kind.parentBranchId.None? || m.kind.parentBranchId.value in roots {
      RootEntrant(w, roots, ms, k);
    } else {
      var p := m.kind.parentBranchId.value;
      PassEntry(w, roots, ms[..k], p);
      var j :| 0 <= j < k && Enters(w, roots, ms[..k], j) && ms[..k][j].kind.branchId == p;
      assert ms[..k][..j] == ms[..j];
      EntrantChain(w, roots, ms, j);
      ChildEntrant(w, roots, ms, k, j);
    }
  }

  function AsParent(p: Branch): ResolvedParent {
    ResolvedParent(p.candidate.forkEpoch, p.commitPath, p.branchPath, p.consumedProposalIds)
  }

  lemma ExtendChain(w: RollbackWindow, roots: Graph, ms: seq<PeeledMessage>, line: seq<PeeledMessage>, m: PeeledMessage,
                    p: Branch)
    requires GrownBy(w, roots, ms, p, line) && m in ms
    requires Plausible(w, m) && m.kind.branchId !in roots
    requires m.kind.parentBranchId == Some(line[|line| - 1].kind.branchId)
    requires m.sourceEpoch == line[|line| - 1].kind.resultingEpoch
    ensures GrownBy(w, roots, ms, GrownBranch(AsParent(p), m), line + [m])
  {
    assert (line + [m])[..|line|] == line;
  }

  ghost predicate Apart<T>(a: seq<T>, b: seq<T>) {
    forall x :: x in a ==> x !in b
  }

  lemma NoRepeatsConcat<T>(a: seq<T>, b: seq<T>)
    ensures NoRepeats(a + b) <==> NoRepeats(a) && NoRepeats(b) && Apart(a, b)
  {
    if NoRepeats(a + b) {
      forall i, j | 0 <= i < j < |a| ensures a[i] != a[j] { assert (a + b)[i] != (a + b)[j]; }
      forall i, j | 0 <= i < j < |b| ensures b[i] != b[j] { assert (a + b)[|a| + i] != (a + b)[|a| + j]; }
      forall i, j | 0 <= i < |a| && 0 <= j < |b| ensures a[i] != b[j] { assert (a + b)[i] != (a + b)[|a| + j]; }
    }
    if NoRepeats(a) && NoRepeats(b) && Apart(a, b) {
      forall i, j | 0 <= i < j < |a + b| ensures (a + b)[i] != (a + b)[j] {
        if i < |a| <= j { assert a[i] in a && b[j - |a|] in b; }
      }
    }
  }

  /** The path facts of one grown branch. */
  ghost predicate WellFormedPath(w: RollbackWindow, roots: Graph, x: Branch, line: seq<PeeledMessage>)
    requires Chain(w, roots, line)
  {
    var root := ResolveParent(roots, line[0].kind.parentBranchId, line[0].kind.forkEpoch).value;
    && x.commitPath == root.commitPath + IdsOf(line)
    && x.branchPath == root.branchPath + BranchesOf(line)
    && x.consumedProposalIds == root.consumedProposalIds + ConsumedBy(line)
    && NoRepeats(IdsOf(line))
    && (NoRepeats(x.commitPath) <==> NoRepeats(root.commitPath) && Apart(root.commitPath, IdsOf(line)))
    && (forall i :: 0 <= i < |line| ==>
          w.Holds(line[i].kind.forkEpoch) && line[i].sourceEpoch < line[i].kind.resultingEpoch)
    && (forall i :: 0 < i < |line| ==> line[i].sourceEpoch == line[i - 1].kind.resultingEpoch)
    && x.candidate.forkEpoch == root.forkEpoch
    && x.candidate.tipEpoch == line[|line| - 1].kind.resultingEpoch
    && (line[0].kind.parentBranchId.None? ==>
          && x.commitPath == IdsOf(line)
          && line[0].sourceEpoch == x.candidate.forkEpoch
          && |x.commitPath| <= SaturatingSub(x.candidate.tipEpoch, x.candidate.forkEpoch))
  }

  lemma ChainIdsDistinct(w: RollbackWindow, roots: Graph, ms: seq<PeeledMessage>, line: seq<PeeledMessage>)
    requires Chain(w, roots, line) && DistinctIds(ms) && forall m :: m in line ==> m in ms
    ensures NoRepeats(IdsOf(line))
  {
    IdsOfAt(line);
    forall i, j | 0 <= i < j < |line| ensures IdsOf(line)[i] != IdsOf(line)[j] {
      ChainClimbs(w, roots, line, i, j);
      assert line[i] in ms && line[j] in ms;
    }
  }

  lemma ChainWellFormed(w: RollbackWindow, roots: Graph, ms: seq<PeeledMessage>, line: seq<PeeledMessage>)
    requires Chain(w, roots, line) && DistinctIds(ms) && forall m :: m in line ==> m in ms
    ensures WellFormedPath(w, roots, Built(roots, line), line)
  {
    var root := ResolveParent(roots, line[0].kind.parentBranchId, line[0].kind.forkEpoch).value;
    BuiltReadout(roots, line, root);
    ChainIdsDistinct(w, roots, ms, line);
    ChainDepth(w, roots, line, |line| - 1);
    NoRepeatsConcat(root.commitPath, IdsOf(line));
    assert |IdsOf(line)| == |line| by { IdsOfAt(line); }
    ghost var x := Built(roots, line);
    forall i | 0 <= i < |line|
      ensures w.Holds(line[i].kind.forkEpoch) && line[i].sourceEpoch < line[i].kind.resultingEpoch
    {
      assert Plausible(w, line[i]);
    }
    if line[0].kind.parentBranchId.None? {
      assert root == ResolvedParent(line[0].kind.forkEpoch, [], {}, {});
      assert x.commitPath == IdsOf(line);
    }
  }

  /** Every grown branch: no repeated commit beyond those of its root, each
      commit starts at the tip before it, the fork epoch is its root's, and a
      branch grown from a root commit is no longer than its valid commit depth. */
  lemma GrownBranchWellFormed(w: RollbackWindow, roots: Graph, ms: seq<PeeledMessage>, b: Id)
    requires DistinctIds(ms)
    requires b in Pass(w, roots, ms) && b !in roots
    ensures exists line: seq<PeeledMessage> ::
              && GrownBy(w, roots, ms, Pass(w, roots, ms)[b], line)
              && line[|line| - 1].kind.branchId == b
              && WellFormedPath(w, roots, Pass(w, roots, ms)[b], line)
  {
    PassEntry(w, roots, ms, b);
    var k :| 0 <= k < |ms| && Enters(w, roots, ms, k) && ms[k].kind.branchId == b;
    EntrantChain(w, roots, ms, k);
    var line: seq<PeeledMessage> :| GrownBy(w, roots, ms, Pass(w, roots, ms)[b], line) && line[|line| - 1] == ms[k];
    ChainWellFormed(w, roots, ms, line);
  }

  /** An id on a path that no root carries names a plausible commit. */
  lemma PathNamesCommits(w: RollbackWindow, roots: Graph, ms: seq<PeeledMessage>, b: Id, id: Id)
    requires DistinctIds(ms) && b in Pass(w, roots, ms) && id in Pass(w, roots, ms)[b].commitPath
    requires forall c :: c in roots ==> id !in roots[c].commitPath
    ensures exists m :: m in ms && m.messageId == id && Plausible(w, m)
  {
    var x := Pass(w, roots, ms)[b];
    assert b !in roots by { PassEntry(w, roots, ms, b); }
    GrownBranchWellFormed(w, roots, ms, b);
    var line: seq<PeeledMessage> :| GrownBy(w, roots, ms, x, line) && WellFormedPath(w, roots, x, line);
    LineNamesCommits(w, roots, ms, x, line, id);
  }

  lemma LineNamesCommits(w: RollbackWindow, roots: Graph, ms: seq<PeeledMessage>, x: Branch, line: seq<PeeledMessage>,
                         id: Id)
    requires Chain(w, roots, line) && forall m :: m in line ==> m in ms
    requires WellFormedPath(w, roots, x, line) && id in x.commitPath
    requires forall c :: c in roots ==> id !in roots[c].commitPath
    ensures exists m :: m in ms && m.messageId == id && Plausible(w, m)
  {
    var root := ResolveParent(roots, line[0].kind.parentBranchId, line[0].kind.forkEpoch).value;
    assert id !in root.commitPath;
    assert id in IdsOf(line);
    IdOnLine(w, roots, line, id);
    var m :| m in line && m.messageId == id && Plausible(w, m);
    assert m in ms;
  }

  lemma IdOnLine(w: RollbackWindow, roots: Graph, line: seq<PeeledMessage>, id: Id)
    requires Chain(w, roots, line)
    ensures id in IdsOf(line) <==> exists m :: m in line && m.messageId == id && Plausible(w, m)
  {
    IdsOfAt(line);
    if id in IdsOf(line) {
      var k :| 0 <= k < |line| && IdsOf(line)[k] == id;
      assert line[k] in line && Plausible(w, line[k]);
    }
    if m :| m in line && m.messageId == id && Plausible(w, m) {
      var k :| 0 <= k < |line| && line[k] == m;
      assert IdsOf(line)[k] == id;
    }
  }

  ghost predicate AllWithin(w: RollbackWindow, g: Graph) {
    forall b :: b in g ==> w.Holds(g[b].candidate.forkEpoch)
  }

  /** If the roots lie within the anchor and the rewind horizon, every branch does. */
  lemma {:induction false} GraphStaysWithin(w: RollbackWindow, roots: Graph, ms: seq<PeeledMessage>)
    requires AllWithin(w, roots)
    ensures AllWithin(w, Pass(w, roots, ms))
  {
    if ms != [] { GraphStaysWithin(w, roots, ms[..|ms| - 1]); }
  }
}
