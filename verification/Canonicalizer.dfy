/** The pass as the engine runs it: loops over mutable maps and lists, proved
    to compute the pass function. */
module Canonicalizer {
  import opened Orders
  import opened Convergence
  import opened Messages
  import opened Materialization
  import opened Canonicalization

  lemma OneMorePending(pending: seq<PeeledMessage>, i: nat, seen: set<Id>)
    requires i < |pending|
    ensures var m, before := pending[i], pending[..i];
            && IdsIn(pending[..i + 1]) == IdsIn(before) + {m.messageId}
            && Unique(pending[..i + 1], seen)
               == Unique(before, seen) + (if m.messageId in seen + IdsIn(before) then [] else [m])
            && Repeats(pending[..i + 1], seen)
               == Repeats(before, seen)
                  + (if m.messageId in seen + IdsIn(before) then [AlreadySeen(m.messageId, KindName(m))] else [])
  {
    assert pending[..i + 1][..i] == pending[..i];
    assert pending[..i + 1] == pending[..i] + [pending[i]];
  }

  method Deduplicate(pending: seq<PeeledMessage>, seen: set<Id>)
    returns (unique: seq<PeeledMessage>, alreadySeen: seq<AlreadySeen>)
    ensures unique == Unique(pending, seen) && alreadySeen == Repeats(pending, seen)
  {
    var observed := seen;
    unique, alreadySeen := [], [];
    for i := 0 to |pending|
      invariant observed == seen + IdsIn(pending[..i])
      invariant unique == Unique(pending[..i], seen) && alreadySeen == Repeats(pending[..i], seen)
    {
      var m := pending[i];
      OneMorePending(pending, i, seen);
      if m.messageId in observed {
        alreadySeen := alreadySeen + [AlreadySeen(m.messageId, KindName(m))];
      } else {
        unique := unique + [m];
      }
      observed := observed + {m.messageId};
    }
    assert pending[..|pending|] == pending;
  }

  method BuildRoots(cs: seq<BranchCandidate>, replayed: seq<MaterializedCandidate>) returns (g: Graph)
    ensures g == Roots(cs, replayed)
  {
    g := map[];
    for i := 0 to |cs|
      invariant g == SeedGraph(cs[..i])
    {
      assert cs[..i + 1][..i] == cs[..i];
      g := g[cs[i].id := SeedBranch(cs[i])];
    }
    assert cs[..|cs|] == cs;
    for i := 0 to |replayed|
      invariant g == AddReplayed(SeedGraph(cs), replayed[..i])
    {
      assert replayed[..i + 1][..i] == replayed[..i];
      g := g[replayed[i].branch.id := ReplayedBranch(replayed[i])];
    }
    assert replayed[..|replayed|] == replayed;
  }

  /** Commits recorded as materialized hold their branch. */
  ghost predicate Recorded(g: Graph, commits: seq<PeeledMessage>, materialized: set<Id>) {
    forall k :: 0 <= k < |commits| && commits[k].kind.Commit? && commits[k].messageId in materialized ==>
                  commits[k].kind.branchId in g
  }

  lemma StepRecorded(w: RollbackWindow, g: Graph, commits: seq<PeeledMessage>, k: nat, materialized: set<Id>)
    requires k < |commits| && DistinctIds(commits) && Recorded(g, commits, materialized)
    ensures var m := commits[k];
            Recorded(Step(w, g, m), commits, if Admits(w, g, m) then materialized + {m.messageId} else materialized)
  {
  }

  /** One commit of a turn. */
  method Consider(w: RollbackWindow, g: Graph, m: PeeledMessage, materialized: set<Id>)
    returns (grown: Graph, entered: bool)
    requires m.kind.Commit? && (m.messageId in materialized ==> m.kind.branchId in g)
    ensures grown == Step(w, g, m) && (entered <==> Admits(w, g, m))
  {
    if m.messageId in materialized || m.kind.branchId in g || m.kind.forkEpoch < w.anchor
      || SaturatingSub(w.tip, m.kind.forkEpoch) > w.maxRewind || m.kind.resultingEpoch <= m.sourceEpoch
    {
      return g, false;
    }
    var parent := ResolveParent(g, m.kind.parentBranchId, m.kind.forkEpoch);
    if parent.None? {
      return g, false;
    }
    if !SourceEpochMatchesParent(g, m.kind.parentBranchId, m.sourceEpoch, m.kind.forkEpoch) {
      return g, false;
    }
    return g[m.kind.branchId := GrownBranch(parent.value, m)], true;
  }

  ghost predicate SomeEnters(w: RollbackWindow, start: Graph, commits: seq<PeeledMessage>, n: nat)
    requires n <= |commits|
  {
    exists j :: 0 <= j < n && Enters(w, start, commits, j)
  }

  lemma OneCommitMore(w: RollbackWindow, start: Graph, commits: seq<PeeledMessage>, k: nat)
    requires k < |commits|
    ensures Pass(w, start, commits[..k + 1]) == Step(w, Pass(w, start, commits[..k]), commits[k])
    ensures SomeEnters(w, start, commits, k + 1) <==>
            SomeEnters(w, start, commits, k) || Admits(w, Pass(w, start, commits[..k]), commits[k])
  {
    assert commits[..k + 1][..k] == commits[..k];
    assert Enters(w, start, commits, k) <==> Admits(w, Pass(w, start, commits[..k]), commits[k]);
  }

  /** One turn of the loop. */
  method Sweep(w: RollbackWindow, start: Graph, commits: seq<PeeledMessage>, done: set<Id>)
    returns (g: Graph, materialized: set<Id>, progressed: bool)
    requires DistinctIds(commits) && Recorded(start, commits, done)
    requires forall m :: m in commits ==> m.kind.Commit?
    ensures g == Pass(w, start, commits) && Recorded(g, commits, materialized)
    ensures progressed <==> SomeEnters(w, start, commits, |commits|)
  {
    g, materialized, progressed := start, done, false;
    for k := 0 to |commits|
      invariant g == Pass(w, start, commits[..k])
      invariant Recorded(g, commits, materialized)
      invariant progressed <==> SomeEnters(w, start, commits, k)
    {
      var m := commits[k];
      assert m in commits;
      OneCommitMore(w, start, commits, k);
      StepRecorded(w, g, commits, k, materialized);
      var grown, entered := Consider(w, g, m, materialized);
      g := grown;
      if entered {
        materialized := materialized + {m.messageId};
        progressed := true;
      }
    }
    assert commits[..|commits|] == commits;
  }

  lemma SecondSweepAdmitsNothing(w: RollbackWindow, roots: Graph, commits: seq<PeeledMessage>, k: nat)
    requires EpochSorted(commits) && k < |commits|
    ensures !Enters(w, Pass(w, roots, commits), commits, k)
  {
    SecondSweepIdle(w, roots, commits, k);
    NothingMoreEnters(w, roots, commits, k);
  }

  lemma {:induction false} IdleSweep(w: RollbackWindow, g: Graph, commits: seq<PeeledMessage>)
    requires !exists k :: 0 <= k < |commits| && Enters(w, g, commits, k)
    ensures Pass(w, g, commits) == g
  {
    if commits != [] {
      var n := |commits| - 1;
      forall k | 0 <= k < n ensures !Enters(w, g, commits[..n], k) {
        assert commits[..n][..k] == commits[..k];
        assert !Enters(w, g, commits, k);
      }
      IdleSweep(w, g, commits[..n]);
      assert !Enters(w, g, commits, n);
    }
  }

  /** Sweep until nothing progresses: at most twice. */
  method MaterializeCandidateGraph(w: RollbackWindow, roots: Graph, unique: seq<PeeledMessage>) returns (g: Graph)
    requires DistinctIds(unique)
    ensures g == Materialize(w, roots, unique)
  {
    var commits := Sort(CommitsOf(unique), CommitLe);
    OrderedCommitsFacts(unique);
    g := roots;
    var materialized: set<Id> := {};
    var progressed := true;
    ghost var sweeps := 0;
    while progressed
      invariant 0 <= sweeps <= 2
      invariant g == if sweeps == 0 then roots else Pass(w, roots, commits)
      invariant (sweeps == 0 ==> progressed) && (sweeps == 2 ==> !progressed)
      invariant Recorded(g, commits, materialized)
      decreases 2 - sweeps
    {
      if sweeps == 1 {
        forall k | 0 <= k < |commits| ensures !Enters(w, g, commits, k) {
          SecondSweepAdmitsNothing(w, roots, commits, k);
        }
        IdleSweep(w, g, commits);
      }
      g, materialized, progressed := Sweep(w, g, commits, materialized);
      sweeps := sweeps + 1;
    }
  }

  /** The first candidate with the given id. */
  method FindCandidate(cs: seq<BranchCandidate>, id: Id) returns (at: Option<nat>)
    ensures at.Some? ==> at.value < |cs| && cs[at.value].id == id && forall j :: 0 <= j < at.value ==> cs[j].id != id
    ensures at.None? ==> forall j :: 0 <= j < |cs| ==> cs[j].id != id
  {
    for i := 0 to |cs|
      invariant forall j :: 0 <= j < i ==> cs[j].id != id
    {
      if cs[i].id == id { return Some(i); }
    }
    return None;
  }

  ghost predicate GainedFrom(cs: seq<BranchCandidate>, base: seq<BranchCandidate>, m: PeeledMessage,
                             policy: CanonicalizationPolicy) {
    |cs| == |base| && forall i :: 0 <= i < |base| ==>
      cs[i] == base[i].(appWitnesses := base[i].appWitnesses + WitnessesFrom(policy, base[i].id, base[i].tipEpoch, m))
  }

  function UpTo(m: PeeledMessage, b: nat): PeeledMessage
    requires m.kind.AppMessage? && b <= |m.kind.decryptsOnBranches|
  {
    m.(kind := m.kind.(decryptsOnBranches := m.kind.decryptsOnBranches[..b]))
  }

  lemma WitnessesUpTo(m: PeeledMessage, b: nat, policy: CanonicalizationPolicy, id: Id, tip: u64)
    requires m.kind.AppMessage? && b < |m.kind.decryptsOnBranches|
    ensures WitnessesFrom(policy, id, tip, UpTo(m, b + 1))
            == WitnessesFrom(policy, id, tip, UpTo(m, b))
               + if m.kind.decryptsOnBranches[b] == id && !AppMessageExpired(tip, policy, m.kind.epoch)
                 then [AppWitness(m.kind.epoch, m.sender)] else []
  {
    assert m.kind.decryptsOnBranches[..b + 1][..b] == m.kind.decryptsOnBranches[..b];
  }

  lemma OneBranchMore(cs: seq<BranchCandidate>, base: seq<BranchCandidate>, m: PeeledMessage,
                      policy: CanonicalizationPolicy, b: nat, at: Option<nat>)
    requires DistinctCandidates(base) && m.kind.AppMessage? && b < |m.kind.decryptsOnBranches|
    requires GainedFrom(cs, base, UpTo(m, b), policy)
    requires at.Some? ==> at.value < |cs| && cs[at.value].id == m.kind.decryptsOnBranches[b]
    requires at.None? ==> forall j :: 0 <= j < |cs| ==> cs[j].id != m.kind.decryptsOnBranches[b]
    ensures GainedFrom(
              if at.Some? && !AppMessageExpired(cs[at.value].tipEpoch, policy, m.kind.epoch)
              then cs[at.value := AddWitness(cs[at.value], AppWitness(m.kind.epoch, m.sender))]
              else cs,
              base, UpTo(m, b + 1), policy)
  {
    forall i | 0 <= i < |base|
      ensures at == Some(i) <==> base[i].id == m.kind.decryptsOnBranches[b]
    {
      assert cs[i].id == base[i].id;
      if at.Some? { assert cs[at.value].id == base[at.value].id; }
    }
    forall i | 0 <= i < |base| { WitnessesUpTo(m, b, policy, base[i].id, base[i].tipEpoch); }
  }

  /** One message, branch by branch: a witness is pushed onto the candidate found. */
  method PushWitnesses(base: seq<BranchCandidate>, m: PeeledMessage, policy: CanonicalizationPolicy)
    returns (cs: seq<BranchCandidate>)
    requires DistinctCandidates(base) && m.kind.AppMessage?
    ensures GainedFrom(cs, base, m, policy)
  {
    cs := base;
    var branches := m.kind.decryptsOnBranches;
    for b := 0 to |branches|
      invariant GainedFrom(cs, base, UpTo(m, b), policy)
    {
      var at := FindCandidate(cs, branches[b]);
      OneBranchMore(cs, base, m, policy, b, at);
      if at.Some? {
        var i := at.value;
        if AppMessageExpired(cs[i].tipEpoch, policy, m.kind.epoch) {
          continue;
        }
        cs := cs[i := AddWitness(cs[i], AppWitness(m.kind.epoch, m.sender))];
      }
    }
    assert branches[..|branches|] == branches;
  }

  lemma WithOneMore(policy: CanonicalizationPolicy, c: BranchCandidate, ms: seq<PeeledMessage>, m: PeeledMessage)
    ensures WithWitnesses(policy, c, ms + [m])
            == c.(appWitnesses := WithWitnesses(policy, c, ms).appWitnesses
                                  + WitnessesFrom(policy, c.id, c.tipEpoch, m))
  {
    assert (ms + [m])[..|ms|] == ms;
  }

  method AttachAppWitnesses(base: seq<BranchCandidate>, unique: seq<PeeledMessage>, policy: CanonicalizationPolicy)
    returns (cs: seq<BranchCandidate>)
    requires DistinctCandidates(base)
    ensures cs == Witnessed(policy, base, unique)
  {
    cs := base;
    assert forall i :: 0 <= i < |base| ==> WithWitnesses(policy, base[i], []) == base[i];
    for k := 0 to |unique|
      invariant cs == Witnessed(policy, base, unique[..k])
    {
      var m := unique[k];
      assert unique[..k + 1] == unique[..k] + [m];
      forall i | 0 <= i < |base| { WithOneMore(policy, base[i], unique[..k], m); }
      if m.kind.AppMessage? {
        cs := PushWitnesses(cs, m, policy);
      }
      assert forall i :: 0 <= i < |base| ==> cs[i] == WithWitnesses(policy, base[i], unique[..k + 1]);
    }
    assert unique[..|unique|] == unique;
  }

  /** The result after one message received its disposition. */
  function Apply(r: CanonicalizationResult, m: PeeledMessage, d: Disposition): CanonicalizationResult {
    match d
    case AcceptCommit => r.(acceptedCommits := r.acceptedCommits + [m.messageId])
    case AcceptProposal => r.(acceptedProposals := r.acceptedProposals + [m.messageId])
    case AcceptApp => r.(acceptedAppMessages := r.acceptedAppMessages + [m.messageId])
    case Drop(reason) => r.(droppedMessages := r.droppedMessages + [DroppedMessage(m.messageId, KindName(m), reason)])
    case Invalidate(reason) =>
      if m.kind.AppMessage? then
        r.(invalidatedAppMessages := r.invalidatedAppMessages
             + [InvalidatedAppMessage(m.messageId, m.kind.epoch, reason, m.kind.decryptedPayloadRef)])
      else r
    case OnSelectedPath => r
    case Pending => r
  }

  lemma ApplyExtends(rules: Rules, sel: Selection, ms: seq<PeeledMessage>, m: PeeledMessage, r: CanonicalizationResult)
    ensures Apply(Disposed(rules, sel, ms, r), m, Dispose(rules, sel, m)) == Disposed(rules, sel, ms + [m], r)
  {
    assert (ms + [m])[..|ms|] == ms;
  }

  method DisposeAll(rules: Rules, sel: Selection, unique: seq<PeeledMessage>, start: CanonicalizationResult)
    returns (r: CanonicalizationResult)
    requires start == Disposed(rules, sel, [], start)
    ensures r == Disposed(rules, sel, unique, start)
  {
    r := start;
    for i := 0 to |unique|
      invariant r == Disposed(rules, sel, unique[..i], start)
    {
      assert unique[..i + 1] == unique[..i] + [unique[i]];
      ApplyExtends(rules, sel, unique[..i], unique[i], start);
      r := Apply(r, unique[i], Dispose(rules, sel, unique[i]));
    }
    assert unique[..|unique|] == unique;
  }

  lemma {:induction false} DropMissingConcat(dropped: seq<DroppedMessage>, a: seq<Id>, b: seq<Id>)
    ensures DropMissing(dropped, a + b) == DropMissing(DropMissing(dropped, a), b)
  {
    if b == [] {
      assert a + b == a;
    } else {
      assert (a + b)[..|a + b| - 1] == a + b[..|b| - 1];
      DropMissingConcat(dropped, a, b[..|b| - 1]);
    }
  }

  method DropEach(dropped: seq<DroppedMessage>, ids: seq<Id>) returns (r: seq<DroppedMessage>)
    ensures r == DropMissing(dropped, ids)
  {
    r := dropped;
    for j := 0 to |ids|
      invariant r == DropMissing(dropped, ids[..j])
    {
      assert ids[..j + 1][..j] == ids[..j];
      if exists d :: d in r && d.messageId == ids[j] {
        assert HasDrop(r, ids[j]);
        continue;
      }
      r := r + [DroppedMessage(ids[j], CommitKind, InvalidAgainstCandidateState)];
    }
    assert ids[..|ids|] == ids;
  }

  lemma BranchDropped(dropped: seq<DroppedMessage>, keys: seq<Id>, i: nat, collect: Id -> seq<Id>)
    requires i < |keys|
    ensures DropMissing(dropped, FlatMap(keys[..i + 1], collect))
            == DropMissing(DropMissing(dropped, FlatMap(keys[..i], collect)), collect(keys[i]))
  {
    assert keys[..i + 1][..i] == keys[..i];
    DropMissingConcat(dropped, FlatMap(keys[..i], collect), collect(keys[i]));
  }

  method DropLosingCommits(dropped: seq<DroppedMessage>, byBranch: map<Id, set<Id>>, selected: Option<Id>)
    returns (r: seq<DroppedMessage>)
    ensures r == DropMissing(dropped, LosingCommits(byBranch, selected))
  {
    r := dropped;
    if selected.None? { return; }
    var keys := SortedKeys(byBranch.Keys);
    ghost var collect := BranchCommits(byBranch, selected.value);
    for i := 0 to |keys|
      invariant r == DropMissing(dropped, FlatMap(keys[..i], collect))
    {
      assert keys[i] in keys;
      BranchDropped(dropped, keys, i, collect);
      if keys[i] == selected.value {
        continue;
      }
      r := DropEach(r, SortedKeys(byBranch[keys[i]]));
    }
    assert keys[..|keys|] == keys;
  }

  /** Up to the candidates that selection reads. */
  method Prepare(input: CanonicalizationInput, replayed: seq<MaterializedCandidate>)
    returns (unique: seq<PeeledMessage>, seen: seq<AlreadySeen>, g: Graph, cs: seq<BranchCandidate>)
    ensures unique == Unique(input.pendingMessages, input.state.seenMessageIds)
    ensures seen == Repeats(input.pendingMessages, input.state.seenMessageIds)
    ensures g == PassGraph(input, replayed) && cs == PassCandidates(input, replayed)
  {
    unique, seen := Deduplicate(input.pendingMessages, input.state.seenMessageIds);
    UniqueDistinct(input.pendingMessages, input.state.seenMessageIds);
    var roots := BuildRoots(input.candidateBranches, replayed);
    g := MaterializeCandidateGraph(input.Window(), roots, unique);
    GraphCandidatesDistinct(input, replayed);
    cs := AttachAppWitnesses(GraphCandidates(g), unique, input.policy);
  }

  /** Everything but the status, the outbound split and the sorting. */
  method Decide(input: CanonicalizationInput, replayed: seq<MaterializedCandidate>) returns (r: CanonicalizationResult)
    ensures r == Unsorted(input, replayed)
  {
    var unique, seen, g, cs := Prepare(input, replayed);
    var sel := SelectionOf(g, Select(input.state.currentTipEpoch, cs, input.policy.convergence));
    var start := Opened(input, cs, seen).(acceptedCommits := sel.commitPath);
    r := DisposeAll(input.Rules(), sel, unique, start);
    var dropped := DropLosingCommits(r.droppedMessages, CommitsByBranch(replayed), sel.branchId);
    r := r.(droppedMessages := dropped);
  }

  method Run(input: CanonicalizationInput, replayed: seq<MaterializedCandidate>) returns (r: CanonicalizationResult)
    ensures r == CanonicalizeInternal(input, replayed)
  {
    r := Decide(input, replayed);
    r := Sorting(Gated(input, r));
  }
}
