/** One canonicalization pass as a function of its input: deduplicate, grow the
    graph, attach witnesses, select, dispose of every message, gate sends. */
module Canonicalization {
  import opened Orders
  import opened Convergence
  import opened SelectionTrace
  import opened Messages
  import opened Materialization

  // ----- deduplication: the first copy of an unseen id is kept -----

  function IdsIn(ms: seq<PeeledMessage>): set<Id> {
    set m | m in ms :: m.messageId
  }

  function Unique(pending: seq<PeeledMessage>, seen: set<Id>): seq<PeeledMessage> {
    if pending == [] then [] else
      var n := |pending| - 1;
      Unique(pending[..n], seen)
      + (if pending[n].messageId in seen + IdsIn(pending[..n]) then [] else [pending[n]])
  }

  function Repeats(pending: seq<PeeledMessage>, seen: set<Id>): seq<AlreadySeen> {
    if pending == [] then [] else
      var n := |pending| - 1;
      Repeats(pending[..n], seen)
      + (if pending[n].messageId in seen + IdsIn(pending[..n])
         then [AlreadySeen(pending[n].messageId, KindName(pending[n]))] else [])
  }

  // ----- witnesses -----

  predicate AppMessageExpired(referenceTip: u64, policy: CanonicalizationPolicy, epoch: u64) {
    SaturatingSub(referenceTip, epoch) > policy.appMessagePastEpochLimit
  }

  function CopiesFor(branches: seq<Id>, id: Id, w: AppWitness): seq<AppWitness> {
    if branches == [] then [] else
      CopiesFor(branches[..|branches| - 1], id, w) + (if branches[|branches| - 1] == id then [w] else [])
  }

  /** What one message contributes to one candidate, measured against the
      candidate's own tip. */
  function WitnessesFrom(policy: CanonicalizationPolicy, id: Id, tip: u64, m: PeeledMessage): seq<AppWitness> {
    if m.kind.AppMessage? && !AppMessageExpired(tip, policy, m.kind.epoch) then
      CopiesFor(m.kind.decryptsOnBranches, id, AppWitness(m.kind.epoch, m.sender))
    else []
  }

  function WitnessCollector(policy: CanonicalizationPolicy, id: Id, tip: u64): PeeledMessage -> seq<AppWitness> {
    (m: PeeledMessage) => WitnessesFrom(policy, id, tip, m)
  }

  function WithWitnesses(policy: CanonicalizationPolicy, c: BranchCandidate,
                         unique: seq<PeeledMessage>): BranchCandidate {
    c.(appWitnesses := c.appWitnesses + FlatMap(unique, WitnessCollector(policy, c.id, c.tipEpoch)))
  }

  function Witnessed(policy: CanonicalizationPolicy, cs: seq<BranchCandidate>,
                     unique: seq<PeeledMessage>): seq<BranchCandidate> {
    seq(|cs|, i requires 0 <= i < |cs| => WithWitnesses(policy, cs[i], unique))
  }

  /** The graph's candidates in branch-id order. */
  function GraphCandidates(g: Graph): seq<BranchCandidate> {
    var keys := SortedKeys(g.Keys);
    seq(|keys|, i requires 0 <= i < |keys| => assert keys[i] in keys; g[keys[i]].candidate)
  }

  function CountEligible(tip: u64, cs: seq<BranchCandidate>, policy: ConvergencePolicy): nat {
    if cs == [] then 0 else
      CountEligible(tip, cs[..|cs| - 1], policy) + (if Eligible(tip, cs[|cs| - 1], policy) then 1 else 0)
  }

  // ----- dispositions -----

  /** What the dispositions read of the selected branch and the graph. */
  datatype Selection = Selection(
    branchId: Option<Id>,
    commitPath: seq<Id>,
    branchPath: set<Id>,
    consumedProposalIds: set<Id>,
    graphIds: set<Id>)

  datatype Disposition =
    | OnSelectedPath
    | AcceptCommit
    | AcceptProposal
    | AcceptApp
    | Drop(dropReason: DroppedMessageReason)
    | Invalidate(invalidReason: InvalidatedAppMessageReason)
    | Pending

  function DisposeCommit(rules: Rules, sel: Selection, m: PeeledMessage): Disposition
    requires m.kind.Commit?
  {
    if m.kind.forkEpoch < rules.state.retainedAnchorEpoch then Drop(BeyondAnchor)
    else if
      SaturatingSub(rules.state.currentTipEpoch, m.kind.forkEpoch) > rules.policy.convergence.maxRewindCommits
    then
      Drop(BeyondRollbackHorizon)
    else if m.messageId in sel.commitPath then OnSelectedPath
    else if sel.branchId == Some(m.kind.branchId) then AcceptCommit
    else if m.kind.branchId in sel.graphIds && sel.branchId.Some? then Drop(InvalidAgainstCandidateState)
    else Pending
  }

  function DisposeProposal(rules: Rules, sel: Selection, m: PeeledMessage): Disposition
    requires m.kind.Proposal?
  {
    if m.sourceEpoch < rules.state.retainedAnchorEpoch then Drop(BeyondAnchor)
    else if m.messageId in sel.consumedProposalIds then AcceptProposal
    else if m.kind.branchId in sel.graphIds && m.kind.branchId !in sel.branchPath && sel.branchId.Some? then
      Drop(InvalidAgainstCandidateState)
    else Pending
  }

  function DisposeApp(rules: Rules, sel: Selection, m: PeeledMessage): Disposition
    requires m.kind.AppMessage?
  {
    if m.kind.epoch < rules.state.retainedAnchorEpoch then Invalidate(AppBeyondAnchor)
    else if AppMessageExpired(rules.state.currentTipEpoch, rules.policy, m.kind.epoch) then
      Invalidate(AppBeyondRetention)
    else if sel.branchId.Some? && sel.branchId.value in m.kind.decryptsOnBranches then AcceptApp
    else if m.kind.decryptsOnBranches == [] then Invalidate(UndecryptableInCanonicalState)
    else Invalidate(LosingBranch)
  }

  function Dispose(rules: Rules, sel: Selection, m: PeeledMessage): Disposition {
    match m.kind
    case Commit(_, _, _, _, _, _, _) => DisposeCommit(rules, sel, m)
    case Proposal(_) => DisposeProposal(rules, sel, m)
    case AppMessage(_, _, _) => DisposeApp(rules, sel, m)
  }

  // What one message adds to each list.

  function ExtraCommits(rules: Rules, sel: Selection): PeeledMessage -> seq<Id> {
    (m: PeeledMessage) => if Dispose(rules, sel, m).AcceptCommit? then [m.messageId] else []
  }

  function AcceptedProposals(rules: Rules, sel: Selection): PeeledMessage -> seq<Id> {
    (m: PeeledMessage) => if Dispose(rules, sel, m).AcceptProposal? then [m.messageId] else []
  }

  function AcceptedApps(rules: Rules, sel: Selection): PeeledMessage -> seq<Id> {
    (m: PeeledMessage) => if Dispose(rules, sel, m).AcceptApp? then [m.messageId] else []
  }

  function Drops(rules: Rules, sel: Selection): PeeledMessage -> seq<DroppedMessage> {
    (m: PeeledMessage) =>
      if Dispose(rules, sel, m).Drop? then
        [DroppedMessage(m.messageId, KindName(m), Dispose(rules, sel, m).dropReason)]
      else []
  }

  function Invalidations(rules: Rules, sel: Selection): PeeledMessage -> seq<InvalidatedAppMessage> {
    (m: PeeledMessage) =>
      if m.kind.AppMessage? && Dispose(rules, sel, m).Invalidate? then
        [InvalidatedAppMessage(m.messageId, m.kind.epoch, Dispose(rules, sel, m).invalidReason,
                               m.kind.decryptedPayloadRef)]
      else []
  }

  // ----- the commits of losing replayed branches -----

  function CommitsByBranch(ms: seq<MaterializedCandidate>): map<Id, set<Id>> {
    if ms == [] then map[] else
      CommitsByBranch(ms[..|ms| - 1])[ms[|ms| - 1].branch.id := IdSet(ms[|ms| - 1].commitMessageIds)]
  }

  function BranchCommits(byBranch: map<Id, set<Id>>, selected: Id): Id -> seq<Id> {
    (b: Id) => if b == selected || b !in byBranch then [] else SortedKeys(byBranch[b])
  }

  /** In iteration order: losing branches by id, their commits by id. */
  function LosingCommits(byBranch: map<Id, set<Id>>, selected: Option<Id>): seq<Id> {
    if selected.None? then [] else FlatMap(SortedKeys(byBranch.Keys), BranchCommits(byBranch, selected.value))
  }

  predicate HasDrop(dropped: seq<DroppedMessage>, id: Id) {
    exists d :: d in dropped && d.messageId == id
  }

  function DropMissing(dropped: seq<DroppedMessage>, ids: seq<Id>): seq<DroppedMessage> {
    if ids == [] then dropped else
      var n := |ids| - 1;
      var sofar := DropMissing(dropped, ids[..n]);
      if HasDrop(sofar, ids[n]) then sofar
      else sofar + [DroppedMessage(ids[n], CommitKind, InvalidAgainstCandidateState)]
  }

  // ----- status -----

  function DroppedIds(s: seq<DroppedMessage>): set<Id> {
    set d | d in s :: d.messageId
  }

  function InvalidatedIds(s: seq<InvalidatedAppMessage>): set<Id> {
    set d | d in s :: d.messageId
  }

  function SeenIds(s: seq<AlreadySeen>): set<Id> {
    set d | d in s :: d.messageId
  }

  function ResolvedIds(r: CanonicalizationResult): set<Id> {
    IdSet(r.acceptedCommits) + IdSet(r.acceptedProposals) + IdSet(r.acceptedAppMessages)
    + DroppedIds(r.droppedMessages) + InvalidatedIds(r.invalidatedAppMessages) + SeenIds(r.alreadySeen)
  }

  predicate Quiesced(input: CanonicalizationInput) {
    SaturatingSub(input.nowMs, input.state.lastConvergenceRelevantInputMs) >= input.policy.settlementQuiescenceMs
  }

  predicate Unresolved(m: PeeledMessage, resolved: set<Id>) {
    !m.kind.Proposal? && m.messageId !in resolved
  }

  function StatusFor(input: CanonicalizationInput, r: CanonicalizationResult): ConvergenceStatus {
    if !Quiesced(input) then Syncing
    else if exists m :: m in input.pendingMessages && Unresolved(m, ResolvedIds(r)) then Resolving
    else if MissingRetainedAnchor in r.errors then Blocked
    else Settled
  }

  // ----- the pass -----

  function PassGraph(input: CanonicalizationInput, replayed: seq<MaterializedCandidate>): Graph {
    Materialize(input.Window(), Roots(input.candidateBranches, replayed),
                Unique(input.pendingMessages, input.state.seenMessageIds))
  }

  function PassCandidates(input: CanonicalizationInput, replayed: seq<MaterializedCandidate>): seq<BranchCandidate> {
    Witnessed(input.policy, GraphCandidates(PassGraph(input, replayed)),
              Unique(input.pendingMessages, input.state.seenMessageIds))
  }

  function SelectionOf(g: Graph, selected: Option<BranchCandidate>): Selection {
    if selected.Some? && selected.value.id in g then
      var b := g[selected.value.id];
      Selection(Some(selected.value.id), b.commitPath, b.branchPath, b.consumedProposalIds, g.Keys)
    else
      Selection(if selected.Some? then Some(selected.value.id) else None, [], {}, {}, g.Keys)
  }

  function PassSelection(input: CanonicalizationInput, replayed: seq<MaterializedCandidate>): Selection {
    SelectionOf(PassGraph(input, replayed),
                Select(input.state.currentTipEpoch, PassCandidates(input, replayed), input.policy.convergence))
  }

  /** The result before the lists are filled. */
  function Opened(input: CanonicalizationInput, cs: seq<BranchCandidate>,
                  seen: seq<AlreadySeen>): CanonicalizationResult {
    var tip := input.state.currentTipEpoch;
    var selected := Select(tip, cs, input.policy.convergence);
    CanonicalizationResult(
      tip,
      if selected.Some? then Some(selected.value.tipEpoch) else None,
      if selected.Some? then Some(selected.value.forkEpoch) else None,
      if selected.Some? then Some(selected.value.id) else None,
      |cs|,
      CountEligible(tip, cs, input.policy.convergence),
      Syncing,
      [], [], [], [], [],
      seen,
      [], [],
      if selected.Some? then [] else [CandidateStateUnavailable],
      Some(SelectTraced(tip, cs, input.policy.convergence)))
  }

  /** The lists of a batch of messages under a selection, in arrival order. */
  function Disposed(rules: Rules, sel: Selection, ms: seq<PeeledMessage>,
                    r: CanonicalizationResult): CanonicalizationResult {
    r.(acceptedCommits := sel.commitPath + FlatMap(ms, ExtraCommits(rules, sel)),
       acceptedProposals := FlatMap(ms, AcceptedProposals(rules, sel)),
       acceptedAppMessages := FlatMap(ms, AcceptedApps(rules, sel)),
       invalidatedAppMessages := FlatMap(ms, Invalidations(rules, sel)),
       droppedMessages := FlatMap(ms, Drops(rules, sel)))
  }

  /** Every list but the accepted commits is sorted. */
  function Sorting(r: CanonicalizationResult): CanonicalizationResult {
    r.(acceptedProposals := Sort(r.acceptedProposals, BytesLe),
       acceptedAppMessages := Sort(r.acceptedAppMessages, BytesLe),
       invalidatedAppMessages := Sort(r.invalidatedAppMessages, InvalidatedLe),
       droppedMessages := Sort(r.droppedMessages, DroppedLe),
       alreadySeen := Sort(r.alreadySeen, SeenLe),
       queuedOutboundIntents := Sort(r.queuedOutboundIntents, IntentLe),
       publishableOutboundMessages := Sort(r.publishableOutboundMessages, IntentLe))
  }

  /** Sends go out only when the pass settled. */
  function Gated(input: CanonicalizationInput, r: CanonicalizationResult): CanonicalizationResult {
    var s := r.(convergenceStatus := StatusFor(input, r));
    if s.convergenceStatus == Settled then s.(publishableOutboundMessages := input.outboundIntents)
    else s.(queuedOutboundIntents := input.outboundIntents)
  }

  function Unsorted(input: CanonicalizationInput, replayed: seq<MaterializedCandidate>): CanonicalizationResult {
    var sel := PassSelection(input, replayed);
    var start := Opened(input, PassCandidates(input, replayed),
                        Repeats(input.pendingMessages, input.state.seenMessageIds));
    var disposed := Disposed(input.Rules(), sel, Unique(input.pendingMessages, input.state.seenMessageIds), start);
    disposed.(droppedMessages :=
                DropMissing(disposed.droppedMessages, LosingCommits(CommitsByBranch(replayed), sel.branchId)))
  }

  function CanonicalizeInternal(input: CanonicalizationInput,
                                replayed: seq<MaterializedCandidate>): CanonicalizationResult {
    Sorting(Gated(input, Unsorted(input, replayed)))
  }

  function Canonicalize(input: CanonicalizationInput): CanonicalizationResult {
    CanonicalizeInternal(input, [])
  }

  // ----- facts every pass shares -----

  ghost predicate DistinctCandidates(cs: seq<BranchCandidate>) {
    forall i, j :: 0 <= i < j < |cs| ==> cs[i].id != cs[j].id
  }

  lemma {:induction false} UniqueDistinct(pending: seq<PeeledMessage>, seen: set<Id>)
    ensures DistinctIds(Unique(pending, seen))
    ensures forall m :: m in Unique(pending, seen) ==> m in pending && m.messageId !in seen
    ensures forall m :: m in pending && m.messageId !in seen ==> m.messageId in IdsIn(Unique(pending, seen))
  {
    if pending != [] {
      var n := |pending| - 1;
      UniqueDistinct(pending[..n], seen);
      assert pending == pending[..n] + [pending[n]];
      forall m | m in pending && m.messageId !in seen ensures m.messageId in IdsIn(Unique(pending, seen)) {
        if m == pending[n] {
          if m.messageId in IdsIn(pending[..n]) {
            var k :| k in pending[..n] && k.messageId == m.messageId;
            var u :| u in Unique(pending[..n], seen) && u.messageId == k.messageId;
            assert u in Unique(pending, seen);
          } else {
            assert m in Unique(pending, seen);
          }
        } else {
          var u :| u in Unique(pending[..n], seen) && u.messageId == m.messageId;
          assert u in Unique(pending, seen);
        }
      }
    }
  }

  /** Every branch is stored under its own id. */
  ghost predicate Keyed(g: Graph) {
    forall b :: b in g ==> g[b].candidate.id == b
  }

  lemma {:induction false} SeedGraphKeyed(cs: seq<BranchCandidate>)
    ensures Keyed(SeedGraph(cs))
  {
    if cs != [] { SeedGraphKeyed(cs[..|cs| - 1]); }
  }

  lemma {:induction false} RootsKeyed(cs: seq<BranchCandidate>, replayed: seq<MaterializedCandidate>)
    ensures Keyed(Roots(cs, replayed))
  {
    if replayed == [] {
      SeedGraphKeyed(cs);
    } else {
      RootsKeyed(cs, replayed[..|replayed| - 1]);
    }
  }

  lemma {:induction false} PassKeyed(w: RollbackWindow, g: Graph, ms: seq<PeeledMessage>)
    requires Keyed(g)
    ensures Keyed(Pass(w, g, ms))
  {
    if ms != [] { PassKeyed(w, g, ms[..|ms| - 1]); }
  }

  lemma GraphCandidatesDistinct(input: CanonicalizationInput, replayed: seq<MaterializedCandidate>)
    ensures Keyed(PassGraph(input, replayed))
    ensures DistinctCandidates(GraphCandidates(PassGraph(input, replayed)))
    ensures Sorted(GraphCandidates(PassGraph(input, replayed)), CandidateIdLe)
  {
    var g := PassGraph(input, replayed);
    RootsKeyed(input.candidateBranches, replayed);
    PassKeyed(input.Window(), Roots(input.candidateBranches, replayed),
              OrderedCommits(Unique(input.pendingMessages, input.state.seenMessageIds)));
    var cs, keys := GraphCandidates(g), SortedKeys(g.Keys);
    forall i | 0 <= i < |keys| ensures cs[i].id == keys[i] { assert keys[i] in keys; }
  }
}
