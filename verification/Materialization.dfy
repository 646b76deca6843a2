/** Growing the candidate-branch graph from commits to a fixed point. */
module Materialization {
  import opened Orders
  import opened Convergence
  import opened Messages

  /** A branch of the graph: the candidate, the commits and branches that lead
      to it, and the proposals those commits consume. */
  datatype Branch = Branch(
    candidate: BranchCandidate,
    commitPath: seq<Id>,
    branchPath: set<Id>,
    consumedProposalIds: set<Id>)

  type Graph = map<Id, Branch>

  function IdSet(s: seq<Id>): set<Id> {
    set x | x in s
  }

  function SeedBranch(c: BranchCandidate): Branch {
    Branch(c, [], {c.id}, {})
  }

  function ReplayedBranch(m: MaterializedCandidate): Branch {
    Branch(m.branch, m.commitMessageIds, {m.branch.id}, IdSet(m.consumedProposalIds))
  }

  function SeedGraph(cs: seq<BranchCandidate>): Graph {
    if cs == [] then map[] else SeedGraph(cs[..|cs| - 1])[cs[|cs| - 1].id := SeedBranch(cs[|cs| - 1])]
  }

  function AddReplayed(g: Graph, ms: seq<MaterializedCandidate>): Graph {
    if ms == [] then g else AddReplayed(g, ms[..|ms| - 1])[ms[|ms| - 1].branch.id := ReplayedBranch(ms[|ms| - 1])]
  }

  /** The branches the pass starts from. */
  function Roots(cs: seq<BranchCandidate>, ms: seq<MaterializedCandidate>): Graph {
    AddReplayed(SeedGraph(cs), ms)
  }

  datatype ResolvedParent = ResolvedParent(
    forkEpoch: u64,
    commitPath: seq<Id>,
    branchPath: set<Id>,
    consumedProposalIds: set<Id>)

  function ResolveParent(g: Graph, parent: Option<Id>, forkEpoch: u64): Option<ResolvedParent> {
    match parent
    case Some(p) =>
      if p in g then
        Some(ResolvedParent(g[p].candidate.forkEpoch, g[p].commitPath, g[p].branchPath, g[p].consumedProposalIds))
      else None
    case None => Some(ResolvedParent(forkEpoch, [], {}, {}))
  }

  predicate SourceEpochMatchesParent(g: Graph, parent: Option<Id>, sourceEpoch: u64, forkEpoch: u64) {
    match parent
    case Some(p) => p in g && g[p].candidate.tipEpoch == sourceEpoch
    case None => sourceEpoch == forkEpoch
  }

  /** What a commit must satisfy whatever the graph holds. */
  predicate Plausible(w: RollbackWindow, m: PeeledMessage) {
    m.kind.Commit? && w.Holds(m.kind.forkEpoch) && m.kind.resultingEpoch > m.sourceEpoch
  }

  predicate Admits(w: RollbackWindow, g: Graph, m: PeeledMessage) {
    && Plausible(w, m)
    && m.kind.branchId !in g
    && ResolveParent(g, m.kind.parentBranchId, m.kind.forkEpoch).Some?
    && SourceEpochMatchesParent(g, m.kind.parentBranchId, m.sourceEpoch, m.kind.forkEpoch)
  }

  function GrownBranch(parent: ResolvedParent, m: PeeledMessage): Branch
    requires m.kind.Commit?
  {
    Branch(
      BranchCandidate(m.kind.branchId, parent.forkEpoch, m.kind.resultingEpoch, m.kind.tipPriority, m.sender,
                      m.kind.tipDigest, []),
      parent.commitPath + [m.messageId],
      parent.branchPath + {m.kind.branchId},
      parent.consumedProposalIds + IdSet(m.kind.consumedProposalIds))
  }

  function Step(w: RollbackWindow, g: Graph, m: PeeledMessage): Graph {
    if Admits(w, g, m) then
      g[m.kind.branchId := GrownBranch(ResolveParent(g, m.kind.parentBranchId, m.kind.forkEpoch).value, m)]
    else g
  }

  /** One sweep over the commits. */
  function Pass(w: RollbackWindow, g: Graph, ms: seq<PeeledMessage>): Graph {
    if ms == [] then g else Step(w, Pass(w, g, ms[..|ms| - 1]), ms[|ms| - 1])
  }

  function CommitsOf(ms: seq<PeeledMessage>): seq<PeeledMessage> {
    if ms == [] then [] else
      CommitsOf(ms[..|ms| - 1]) + (if ms[|ms| - 1].kind.Commit? then [ms[|ms| - 1]] else [])
  }

  function OrderedCommits(ms: seq<PeeledMessage>): seq<PeeledMessage> {
    Sort(CommitsOf(ms), CommitLe)
  }

  function Materialize(w: RollbackWindow, roots: Graph, unique: seq<PeeledMessage>): Graph {
    Pass(w, roots, OrderedCommits(unique))
  }

  // ----- the commits in sweep order -----

  ghost predicate EpochSorted(ms: seq<PeeledMessage>) {
    forall i, j :: 0 <= i < j < |ms| ==> ms[i].sourceEpoch <= ms[j].sourceEpoch
  }

  ghost predicate DistinctIds(ms: seq<PeeledMessage>) {
    forall i, j :: 0 <= i < j < |ms| ==> ms[i].messageId != ms[j].messageId
  }

  lemma {:induction false} CommitsOfFacts(ms: seq<PeeledMessage>)
    requires DistinctIds(ms)
    ensures forall m :: m in CommitsOf(ms) <==> m in ms && m.kind.Commit?
    ensures NoRepeats(CommitsOf(ms))
  {
    if ms != [] {
      var n := |ms| - 1;
      CommitsOfFacts(ms[..n]);
      assert ms == ms[..n] + [ms[n]];
      assert ms[n] !in ms[..n];
    }
  }

  lemma OrderedCommitsFacts(ms: seq<PeeledMessage>)
    requires DistinctIds(ms)
    ensures EpochSorted(OrderedCommits(ms)) && DistinctIds(OrderedCommits(ms))
    ensures forall m :: m in OrderedCommits(ms) <==> m in ms && m.kind.Commit?
  {
    var cs := OrderedCommits(ms);
    CommitsOfFacts(ms);
    CommitPreorder();
    SortSorts(CommitsOf(ms), CommitLe);
    SortElements(CommitsOf(ms), CommitLe);
    NoRepeatsPermutation(CommitsOf(ms), cs);
    forall i, j | 0 <= i < j < |cs| ensures cs[i].messageId != cs[j].messageId {
      assert cs[i] in ms && cs[j] in ms;
    }
    forall i, j | 0 <= i < j < |cs| ensures cs[i].sourceEpoch <= cs[j].sourceEpoch {
      assert CommitLe(cs[i], cs[j]);
    }
  }

  // ----- one pass is a fixed point -----

  ghost predicate Extends(g: Graph, h: Graph) {
    forall b :: b in g ==> b in h && h[b] == g[b]
  }

  /** Commit `k` enters the graph when the sweep reaches it. */
  predicate Enters(w: RollbackWindow, roots: Graph, ms: seq<PeeledMessage>, k: nat)
    requires k < |ms|
  {
    Admits(w, Pass(w, roots, ms[..k]), ms[k])
  }

  lemma {:induction false} PassExtends(w: RollbackWindow, g: Graph, ms: seq<PeeledMessage>, k: nat)
    requires k <= |ms|
    ensures Extends(Pass(w, g, ms[..k]), Pass(w, g, ms))
    decreases |ms|
  {
    if k < |ms| {
      PassExtends(w, g, ms[..|ms| - 1], k);
      assert ms[..|ms| - 1][..k] == ms[..k];
    } else {
      assert ms[..k] == ms;
    }
  }

  /** Some commit of the batch entered under this branch id. */
  ghost predicate EnteredAs(w: RollbackWindow, roots: Graph, ms: seq<PeeledMessage>, b: Id) {
    exists k :: 0 <= k < |ms| && Enters(w, roots, ms, k) && ms[k].kind.branchId == b
  }

  lemma EntersPrefix(w: RollbackWindow, roots: Graph, ms: seq<PeeledMessage>, n: nat, k: nat)
    requires k < n <= |ms|
    ensures Enters(w, roots, ms[..n], k) <==> Enters(w, roots, ms, k)
  {
    assert ms[..n][..k] == ms[..k];
  }

  lemma EnteredEarlier(w: RollbackWindow, roots: Graph, ms: seq<PeeledMessage>, n: nat, b: Id)
    requires n <= |ms|
    ensures EnteredAs(w, roots, ms[..n], b) <==>
            exists k :: 0 <= k < n && Enters(w, roots, ms, k) && ms[k].kind.branchId == b
  {
    if EnteredAs(w, roots, ms[..n], b) {
      var k :| 0 <= k < n && Enters(w, roots, ms[..n], k) && ms[..n][k].kind.branchId == b;
      EntersPrefix(w, roots, ms, n, k);
    }
    if k :| 0 <= k < n && Enters(w, roots, ms, k) && ms[k].kind.branchId == b {
      EntersPrefix(w, roots, ms, n, k);
      assert ms[..n][k] == ms[k];
    }
  }

  lemma EnteredStep(w: RollbackWindow, roots: Graph, ms: seq<PeeledMessage>, b: Id)
    requires ms != []
    ensures var n := |ms| - 1;
            EnteredAs(w, roots, ms, b) <==>
            EnteredAs(w, roots, ms[..n], b) || (Enters(w, roots, ms, n) && ms[n].kind.branchId == b)
  {
    EnteredEarlier(w, roots, ms, |ms| - 1, b);
  }

  /** The graph holds the roots and, under its branch id, each commit that entered. */
  lemma {:induction false} PassEntry(w: RollbackWindow, roots: Graph, ms: seq<PeeledMessage>, b: Id)
    ensures b in Pass(w, roots, ms) <==> b in roots || EnteredAs(w, roots, ms, b)
    ensures b in roots ==> Pass(w, roots, ms)[b] == roots[b]
  {
    if ms != [] {
      PassEntry(w, roots, ms[..|ms| - 1], b);
      EnteredStep(w, roots, ms, b);
    }
  }

  lemma EntryValue(w: RollbackWindow, roots: Graph, ms: seq<PeeledMessage>, k: nat)
    requires k < |ms| && Enters(w, roots, ms, k)
    ensures ms[k].kind.branchId in Pass(w, roots, ms)
    ensures var g := Pass(w, roots, ms[..k]);
            Pass(w, roots, ms)[ms[k].kind.branchId]
            == GrownBranch(ResolveParent(g, ms[k].kind.parentBranchId, ms[k].kind.forkEpoch).value, ms[k])
  {
    PassExtends(w, roots, ms, k + 1);
    assert ms[..k + 1][..k] == ms[..k];
  }

  /** A parent is ready in the finished graph only if it was ready in time:
      whatever enters later ends above the commit's source epoch. */
  lemma ParentReadyInTime(w: RollbackWindow, roots: Graph, ms: seq<PeeledMessage>, k: nat)
    requires k < |ms| && EpochSorted(ms) && ms[k].kind.Commit?
    requires ms[k].kind.parentBranchId.Some?
    ensures var p := ms[k].kind.parentBranchId.value;
            SourceEpochMatchesParent(Pass(w, roots, ms), Some(p), ms[k].sourceEpoch, ms[k].kind.forkEpoch) <==>
            SourceEpochMatchesParent(Pass(w, roots, ms[..k]), Some(p), ms[k].sourceEpoch, ms[k].kind.forkEpoch)
  {
    var p := ms[k].kind.parentBranchId.value;
    PassExtends(w, roots, ms, k);
    if p in Pass(w, roots, ms) && p !in Pass(w, roots, ms[..k]) {
      PassEntry(w, roots, ms, p);
      PassEntry(w, roots, ms[..k], p);
      var j :| 0 <= j < |ms| && Enters(w, roots, ms, j) && ms[j].kind.branchId == p;
      EntryValue(w, roots, ms, j);
      EnteredEarlier(w, roots, ms, k, p);
      assert j >= k;
    }
  }

  /** After one sweep in epoch order nothing more can enter. */
  lemma NothingMoreEnters(w: RollbackWindow, roots: Graph, ms: seq<PeeledMessage>, k: nat)
    requires k < |ms| && EpochSorted(ms)
    ensures !Admits(w, Pass(w, roots, ms), ms[k])
  {
    var m := ms[k];
    PassExtends(w, roots, ms, k);
    if Enters(w, roots, ms, k) {
      EntryValue(w, roots, ms, k);
    } else if Plausible(w, m) && m.kind.parentBranchId.Some? {
      ParentReadyInTime(w, roots, ms, k);
    }
  }

  /** So the loop's second sweep never progresses. */
  lemma {:induction false} SecondSweepIdle(w: RollbackWindow, roots: Graph, ms: seq<PeeledMessage>, k: nat)
    requires k <= |ms| && EpochSorted(ms)
    ensures Pass(w, Pass(w, roots, ms), ms[..k]) == Pass(w, roots, ms)
    decreases k
  {
    if k > 0 {
      assert ms[..k][..k - 1] == ms[..k - 1];
      SecondSweepIdle(w, roots, ms, k - 1);
      NothingMoreEnters(w, roots, ms, k - 1);
    }
  }

  // ----- which commits enter -----

  ghost function Entrants(w: RollbackWindow, roots: Graph, ms: seq<PeeledMessage>): set<PeeledMessage> {
    set k | 0 <= k < |ms| && Enters(w, roots, ms, k) :: ms[k]
  }

  /** The commit's parent is a root, or the branch of a commit of `s`, whose
      tip is the commit's source epoch; or the commit forks where it starts. */
  ghost predicate ParentIn(roots: Graph, s: set<PeeledMessage>, m: PeeledMessage)
    requires m.kind.Commit?
  {
    match m.kind.parentBranchId
    case None => m.sourceEpoch == m.kind.forkEpoch
    case Some(p) =>
      || (p in roots && roots[p].candidate.tipEpoch == m.sourceEpoch)
      || (exists a :: a in s && a.kind.Commit? && a.kind.branchId == p && a.kind.resultingEpoch == m.sourceEpoch)
  }

  /** `s` answers every commit: it is in exactly when it is plausible, its
      branch id is new, its parent is in, and no commit of `s` that sorts
      before it took its branch id. */
  ghost predicate Resolution(w: RollbackWindow, roots: Graph, ms: seq<PeeledMessage>, s: set<PeeledMessage>) {
    && (forall m :: m in s ==> m in ms)
    && (forall k :: 0 <= k < |ms| ==>
          (ms[k] in s <==>
           && Plausible(w, ms[k])
           && ms[k].kind.branchId !in roots
           && ParentIn(roots, s, ms[k])
           && !exists j :: && 0 <= j < k && ms[j] in s && ms[j].kind.Commit?
                           && ms[j].kind.branchId == ms[k].kind.branchId))
  }

  lemma EntrantAt(w: RollbackWindow, roots: Graph, ms: seq<PeeledMessage>, k: nat)
    requires k < |ms| && DistinctIds(ms)
    ensures ms[k] in Entrants(w, roots, ms) <==> Enters(w, roots, ms, k)
  {
    if ms[k] in Entrants(w, roots, ms) {
      var j :| 0 <= j < |ms| && Enters(w, roots, ms, j) && ms[j] == ms[k];
      assert j == k;
    }
  }

  lemma ParentInIffReady(w: RollbackWindow, roots: Graph, ms: seq<PeeledMessage>, k: nat)
    requires k < |ms| && DistinctIds(ms) && EpochSorted(ms) && Plausible(w, ms[k])
    ensures ParentIn(roots, Entrants(w, roots, ms), ms[k]) <==>
            SourceEpochMatchesParent(Pass(w, roots, ms[..k]), ms[k].kind.parentBranchId, ms[k].sourceEpoch,
                                     ms[k].kind.forkEpoch)
  {
    var m := ms[k];
    if m.kind.parentBranchId.Some? {
      var p := m.kind.parentBranchId.value;
      var g := Pass(w, roots, ms);
      ParentReadyInTime(w, roots, ms, k);
      PassEntry(w, roots, ms, p);
      if a :| && a in Entrants(w, roots, ms) && a.kind.Commit? && a.kind.branchId == p
              && a.kind.resultingEpoch == m.sourceEpoch {
        var j :| 0 <= j < |ms| && Enters(w, roots, ms, j) && ms[j] == a;
        EntryValue(w, roots, ms, j);
      }
      if p in g && p !in roots {
        var j :| 0 <= j < |ms| && Enters(w, roots, ms, j) && ms[j].kind.branchId == p;
        EntryValue(w, roots, ms, j);
        assert ms[j] in Entrants(w, roots, ms);
      }
    }
  }

  /** The commits the sweep admits are a resolution. */
  lemma EntrantsResolve(w: RollbackWindow, roots: Graph, ms: seq<PeeledMessage>)
    requires DistinctIds(ms) && EpochSorted(ms)
    ensures Resolution(w, roots, ms, Entrants(w, roots, ms))
  {
    var s := Entrants(w, roots, ms);
    forall k | 0 <= k < |ms|
      ensures ms[k] in s <==>
              && Plausible(w, ms[k])
              && ms[k].kind.branchId !in roots
              && ParentIn(roots, s, ms[k])
              && !exists j :: && 0 <= j < k && ms[j] in s && ms[j].kind.Commit?
                              && ms[j].kind.branchId == ms[k].kind.branchId
    {
      EntrantAt(w, roots, ms, k);
      if Plausible(w, ms[k]) {
        var b := ms[k].kind.branchId;
        ParentInIffReady(w, roots, ms, k);
        PassEntry(w, roots, ms[..k], b);
        forall j | 0 <= j < k
          ensures Enters(w, roots, ms[..k], j) <==> ms[j] in s
        {
          assert ms[..k][..j] == ms[..j];
          EntrantAt(w, roots, ms, j);
        }
        if b in Pass(w, roots, ms[..k]) && b !in roots {
          var j :| 0 <= j < k && Enters(w, roots, ms[..k], j) && ms[..k][j].kind.branchId == b;
          assert ms[j] in s;
        }
      }
    }
  }

  ghost predicate AgreeBelow(ms: seq<PeeledMessage>, s: set<PeeledMessage>, t: set<PeeledMessage>, k: nat)
    requires k <= |ms|
  {
    forall j :: 0 <= j < k ==> (ms[j] in s <==> ms[j] in t)
  }

  lemma OneMoreAgrees(ms: seq<PeeledMessage>, s: set<PeeledMessage>, t: set<PeeledMessage>, n: nat)
    requires n < |ms| && AgreeBelow(ms, s, t, n) && (ms[n] in s <==> ms[n] in t)
    ensures AgreeBelow(ms, s, t, n + 1)
  {
  }

  lemma {:induction false} ResolutionsAgree(w: RollbackWindow, roots: Graph, ms: seq<PeeledMessage>,
                                            s: set<PeeledMessage>, t: set<PeeledMessage>, k: nat)
    requires DistinctIds(ms) && EpochSorted(ms) && k <= |ms|
    requires Resolution(w, roots, ms, s) && Resolution(w, roots, ms, t)
    ensures AgreeBelow(ms, s, t, k)
    decreases k
  {
    if k > 0 {
      ResolutionsAgree(w, roots, ms, s, t, k - 1);
      AgreeAt(w, roots, ms, s, t, k - 1);
      OneMoreAgrees(ms, s, t, k - 1);
    }
  }

  lemma AgreeAt(w: RollbackWindow, roots: Graph, ms: seq<PeeledMessage>, s: set<PeeledMessage>, t: set<PeeledMessage>,
                n: nat)
    requires DistinctIds(ms) && EpochSorted(ms) && n < |ms|
    requires Resolution(w, roots, ms, s) && Resolution(w, roots, ms, t)
    requires AgreeBelow(ms, s, t, n)
    ensures ms[n] in s <==> ms[n] in t
  {
    ParentsAgree(w, roots, ms, s, t, n);
    assert ms[n] in s || ms[n] in t ==> Plausible(w, ms[n]);
  }

  lemma BeforeItsChild(w: RollbackWindow, ms: seq<PeeledMessage>, a: PeeledMessage, n: nat) returns (j: nat)
    requires EpochSorted(ms) && n < |ms| && a in ms && Plausible(w, a) && a.kind.resultingEpoch == ms[n].sourceEpoch
    ensures j < n && ms[j] == a
  {
    j :| 0 <= j < |ms| && ms[j] == a;
    assert a.sourceEpoch < ms[n].sourceEpoch;
  }

  lemma ParentsAgree(w: RollbackWindow, roots: Graph, ms: seq<PeeledMessage>, s: set<PeeledMessage>,
                     t: set<PeeledMessage>, n: nat)
    requires DistinctIds(ms) && EpochSorted(ms) && n < |ms|
    requires Resolution(w, roots, ms, s) && Resolution(w, roots, ms, t)
    requires AgreeBelow(ms, s, t, n)
    ensures ms[n].kind.Commit? ==> (ParentIn(roots, s, ms[n]) <==> ParentIn(roots, t, ms[n]))
  {
    if ms[n].kind.Commit? {
      var e := ms[n].sourceEpoch;
      forall a: PeeledMessage | a.kind.Commit? && a.kind.resultingEpoch == e && (a in s || a in t)
        ensures a in s && a in t
      {
        ResolvedPlausible(w, roots, ms, if a in s then s else t, a);
        var j := BeforeItsChild(w, ms, a, n);
        assert ms[j] in s <==> ms[j] in t;
      }
    }
  }

  lemma ResolvedPlausible(w: RollbackWindow, roots: Graph, ms: seq<PeeledMessage>, s: set<PeeledMessage>,
                          a: PeeledMessage)
    requires Resolution(w, roots, ms, s) && a in s
    ensures a in ms && Plausible(w, a)
  {
    var j :| 0 <= j < |ms| && ms[j] == a;
  }

  /** It is the only one: which commits enter depends on nothing but the
      commits and the roots. */
  lemma ResolutionUnique(w: RollbackWindow, roots: Graph, ms: seq<PeeledMessage>, s: set<PeeledMessage>)
    requires DistinctIds(ms) && EpochSorted(ms)
    ensures Resolution(w, roots, ms, s) <==> s == Entrants(w, roots, ms)
  {
    EntrantsResolve(w, roots, ms);
    if Resolution(w, roots, ms, s) {
      ResolutionsAgree(w, roots, ms, s, Entrants(w, roots, ms), |ms|);
    }
  }

  // ----- distinct branch ids: the least closed set -----

  ghost predicate DistinctNewBranches(roots: Graph, ms: seq<PeeledMessage>) {
    && (forall i :: 0 <= i < |ms| && ms[i].kind.Commit? ==> ms[i].kind.branchId !in roots)
    && (forall i, j :: 0 <= i < j < |ms| && ms[i].kind.Commit? && ms[j].kind.Commit? ==>
                         ms[i].kind.branchId != ms[j].kind.branchId)
  }

  /** Every plausible commit whose parent is in is in. */
  ghost predicate Closed(w: RollbackWindow, roots: Graph, ms: seq<PeeledMessage>, s: set<PeeledMessage>) {
    forall m :: m in ms && Plausible(w, m) && ParentIn(roots, s, m) ==> m in s
  }

  lemma ParentCarriesOver(w: RollbackWindow, roots: Graph, ms: seq<PeeledMessage>, e: set<PeeledMessage>,
                          s: set<PeeledMessage>, n: nat)
    requires EpochSorted(ms) && Resolution(w, roots, ms, e) && n < |ms| && ms[n] in e
    requires forall j :: 0 <= j < n && ms[j] in e ==> ms[j] in s
    ensures ParentIn(roots, s, ms[n])
  {
    var m := ms[n];
    assert ParentIn(roots, e, m);
    if m.kind.parentBranchId.Some? {
      forall a | a in e && a.kind.Commit? && a.kind.resultingEpoch == m.sourceEpoch ensures a in s {
        var j :| 0 <= j < |ms| && ms[j] == a;
        assert Plausible(w, ms[j]) && j < n;
      }
    }
  }

  lemma {:induction false} ResolutionInside(w: RollbackWindow, roots: Graph, ms: seq<PeeledMessage>,
                                            e: set<PeeledMessage>, s: set<PeeledMessage>, k: nat)
    requires EpochSorted(ms) && Resolution(w, roots, ms, e) && Closed(w, roots, ms, s) && k <= |ms|
    ensures forall j :: 0 <= j < k && ms[j] in e ==> ms[j] in s
    decreases k
  {
    if k > 0 {
      ResolutionInside(w, roots, ms, e, s, k - 1);
      if ms[k - 1] in e {
        ParentCarriesOver(w, roots, ms, e, s, k - 1);
      }
    }
  }

  /** What enters is the least set closed under "the parent is present and its
      tip is the source epoch". */
  lemma EntrantsAreLeastClosed(w: RollbackWindow, roots: Graph, ms: seq<PeeledMessage>, s: set<PeeledMessage>)
    requires DistinctIds(ms) && EpochSorted(ms) && DistinctNewBranches(roots, ms)
    ensures Closed(w, roots, ms, Entrants(w, roots, ms))
    ensures Closed(w, roots, ms, s) ==> Entrants(w, roots, ms) <= s
  {
    var e := Entrants(w, roots, ms);
    EntrantsResolve(w, roots, ms);
    forall m | m in ms && Plausible(w, m) && ParentIn(roots, e, m) ensures m in e {
      var k :| 0 <= k < |ms| && ms[k] == m;
    }
    if Closed(w, roots, ms, s) {
      ResolutionInside(w, roots, ms, e, s, |ms|);
    }
  }

  /** Commits that have only each other for parents (a cycle) or no parent at
      all among the roots and the other commits (orphans) never enter. */
  lemma UnfoundedNeverEnter(w: RollbackWindow, roots: Graph, ms: seq<PeeledMessage>, x: set<PeeledMessage>)
    requires DistinctIds(ms) && EpochSorted(ms)
    requires forall m :: m in x ==> && m.kind.Commit? && m.kind.parentBranchId.Some?
                                    && m.kind.parentBranchId.value !in roots
                                    && forall a :: a in ms && a !in x && a.kind.Commit? ==>
                                                     a.kind.branchId != m.kind.parentBranchId.value
    ensures Entrants(w, roots, ms) !! x
  {
    var s := (set m | m in ms) - x;
    assert Closed(w, roots, ms, s);
    EntrantsResolve(w, roots, ms);
    ResolutionInside(w, roots, ms, Entrants(w, roots, ms), s, |ms|);
  }
}
