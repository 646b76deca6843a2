/** The post-peeling messages, the group's state and policy, and the result of
    one canonicalization pass. */
module Messages {
  import opened Orders
  import opened Convergence
  import opened SelectionTrace

  datatype CanonicalizationPolicy = CanonicalizationPolicy(
    convergence: ConvergencePolicy,
    appMessagePastEpochLimit: u64,
    settlementQuiescenceMs: u64)

  datatype CanonicalizationState = CanonicalizationState(
    currentTipEpoch: u64,
    retainedAnchorEpoch: u64,
    lastConvergenceRelevantInputMs: u64,
    seenMessageIds: set<Id>)

  datatype ConvergenceStatus = Syncing | Resolving | Settled | Blocked

  datatype PeeledMessage = PeeledMessage(
    messageId: Id,
    groupId: Id,
    sender: Bytes,
    sourceEpoch: u64,
    kind: PeeledMessageKind)

  datatype PeeledMessageKind =
    | Commit(
        branchId: Id,
        parentBranchId: Option<Id>,
        forkEpoch: u64,
        resultingEpoch: u64,
        tipPriority: CommitOrderingPriority,
        tipDigest: Bytes,
        consumedProposalIds: seq<Id>)
    | Proposal(branchId: Id)
    | AppMessage(epoch: u64, decryptsOnBranches: seq<Id>, decryptedPayloadRef: Option<Id>)

  datatype MessageKind = CommitKind | ProposalKind | AppMessageKind

  function KindName(m: PeeledMessage): MessageKind {
    match m.kind
    case Commit(_, _, _, _, _, _, _) => CommitKind
    case Proposal(_) => ProposalKind
    case AppMessage(_, _, _) => AppMessageKind
  }

  datatype OutboundIntent =
    | SendAppMessage(payload: Bytes)
    | CreateCommit(change: Bytes)
    | PublishProposal(proposal: Bytes)

  /** A branch an adapter replayed itself, with the commits that built it. */
  datatype MaterializedCandidate = MaterializedCandidate(
    branch: BranchCandidate,
    commitMessageIds: seq<Id>,
    consumedProposalIds: seq<Id>)

  datatype CanonicalizationInput = CanonicalizationInput(
    state: CanonicalizationState,
    pendingMessages: seq<PeeledMessage>,
    outboundIntents: seq<OutboundIntent>,
    candidateBranches: seq<BranchCandidate>,
    policy: CanonicalizationPolicy,
    nowMs: u64)
  {
    function Window(): RollbackWindow {
      RollbackWindow(state.currentTipEpoch, state.retainedAnchorEpoch, policy.convergence.maxRewindCommits)
    }
    function Rules(): Rules {
      RulesOf(state, policy)
    }
  }

  /** The part of the input that decides a message's disposition. */
  datatype Rules = RulesOf(state: CanonicalizationState, policy: CanonicalizationPolicy)

  datatype InvalidatedAppMessageReason =
    LosingBranch | AppBeyondAnchor | AppBeyondRetention | UndecryptableInCanonicalState

  datatype InvalidatedAppMessage = InvalidatedAppMessage(
    messageId: Id,
    epoch: u64,
    reason: InvalidatedAppMessageReason,
    decryptedPayloadRef: Option<Id>)

  datatype DroppedMessageReason =
    | BeyondRollbackHorizon
    | BeyondAnchor
    | BeyondAppRetention
    | InvalidAgainstCandidateState
    | UnsupportedPolicy
    | Malformed

  datatype DroppedMessage = DroppedMessage(messageId: Id, kind: MessageKind, reason: DroppedMessageReason)

  datatype AlreadySeen = AlreadySeen(messageId: Id, kind: MessageKind)

  datatype CanonicalizationError =
    | UnsupportedPolicyError
    | MissingRetainedAnchor
    | CandidateStateUnavailable
    | MlsValidationFailed
    | OutboundIntentStale
    | StorageUnavailable

  datatype CanonicalizationResult = CanonicalizationResult(
    previousTip: u64,
    selectedTip: Option<u64>,
    selectedForkEpoch: Option<u64>,
    selectedBranchId: Option<Id>,
    candidateCount: nat,
    eligibleCount: nat,
    convergenceStatus: ConvergenceStatus,
    acceptedCommits: seq<Id>,
    acceptedProposals: seq<Id>,
    acceptedAppMessages: seq<Id>,
    invalidatedAppMessages: seq<InvalidatedAppMessage>,
    droppedMessages: seq<DroppedMessage>,
    alreadySeen: seq<AlreadySeen>,
    queuedOutboundIntents: seq<OutboundIntent>,
    publishableOutboundMessages: seq<OutboundIntent>,
    errors: seq<CanonicalizationError>,
    selectionTrace: Option<BranchSelectionTrace>)

  /** The rollback window a commit's fork epoch must fall in. */
  datatype RollbackWindow = RollbackWindow(tip: u64, anchor: u64, maxRewind: u64) {
    predicate Holds(forkEpoch: u64) {
      forkEpoch >= anchor && SaturatingSub(tip, forkEpoch) <= maxRewind
    }
  }

  // ----- the derived orders of the sorted result lists -----

  function KindRank(k: MessageKind): nat {
    match k case CommitKind => 0 case ProposalKind => 1 case AppMessageKind => 2
  }

  function DropRank(r: DroppedMessageReason): nat {
    match r
    case BeyondRollbackHorizon => 0
    case BeyondAnchor => 1
    case BeyondAppRetention => 2
    case InvalidAgainstCandidateState => 3
    case UnsupportedPolicy => 4
    case Malformed => 5
  }

  function InvalidationRank(r: InvalidatedAppMessageReason): nat {
    match r
    case LosingBranch => 0
    case AppBeyondAnchor => 1
    case AppBeyondRetention => 2
    case UndecryptableInCanonicalState => 3
  }

  function IntentRank(i: OutboundIntent): nat {
    match i case SendAppMessage(_) => 0 case CreateCommit(_) => 1 case PublishProposal(_) => 2
  }

  function IntentText(i: OutboundIntent): Bytes {
    match i case SendAppMessage(p) => p case CreateCommit(c) => c case PublishProposal(p) => p
  }

  predicate OptionLe(a: Option<Id>, b: Option<Id>) {
    a.None? || (b.Some? && BytesLe(a.value, b.value))
  }

  predicate DroppedLe(a: DroppedMessage, b: DroppedMessage) {
    BytesLt(a.messageId, b.messageId) || (a.messageId == b.messageId
      && (KindRank(a.kind) < KindRank(b.kind) || (a.kind == b.kind && DropRank(a.reason) <= DropRank(b.reason))))
  }

  predicate SeenLe(a: AlreadySeen, b: AlreadySeen) {
    BytesLt(a.messageId, b.messageId) || (a.messageId == b.messageId && KindRank(a.kind) <= KindRank(b.kind))
  }

  predicate InvalidatedLe(a: InvalidatedAppMessage, b: InvalidatedAppMessage) {
    BytesLt(a.messageId, b.messageId) || (a.messageId == b.messageId
      && (a.epoch < b.epoch || (a.epoch == b.epoch
        && (InvalidationRank(a.reason) < InvalidationRank(b.reason)
          || (a.reason == b.reason && OptionLe(a.decryptedPayloadRef, b.decryptedPayloadRef))))))
  }

  predicate IntentLe(a: OutboundIntent, b: OutboundIntent) {
    IntentRank(a) < IntentRank(b) || (IntentRank(a) == IntentRank(b) && BytesLe(IntentText(a), IntentText(b)))
  }

  /** Commits are grown in order of source epoch, then message id. */
  predicate CommitLe(a: PeeledMessage, b: PeeledMessage) {
    a.sourceEpoch < b.sourceEpoch || (a.sourceEpoch == b.sourceEpoch && BytesLe(a.messageId, b.messageId))
  }

  lemma BytesLtFacts(a: Bytes, b: Bytes, c: Bytes)
    ensures BytesLt(a, b) || a == b || BytesLt(b, a)
    ensures !(BytesLt(a, b) && BytesLt(b, a))
    ensures BytesLt(a, b) && BytesLt(b, c) ==> BytesLt(a, c)
  {
    BytesLeTotal(a, b);
    if BytesLe(a, b) && BytesLe(b, a) { BytesLeAntisymmetric(a, b); }
    if BytesLt(a, b) && BytesLt(b, c) {
      BytesLeTransitive(a, b, c);
      if a == c { BytesLeAntisymmetric(a, b); }
    }
  }

  lemma DroppedOrder()
    ensures TotalOrder(DroppedLe)
  {
    forall a, b ensures DroppedLe(a, b) || DroppedLe(b, a) { BytesLtFacts(a.messageId, b.messageId, b.messageId); }
    forall a, b | DroppedLe(a, b) && DroppedLe(b, a) ensures a == b {
      BytesLtFacts(a.messageId, b.messageId, b.messageId);
    }
    forall a, b, c | DroppedLe(a, b) && DroppedLe(b, c) ensures DroppedLe(a, c) {
      BytesLtFacts(a.messageId, b.messageId, c.messageId);
    }
  }

  lemma SeenOrder()
    ensures TotalOrder(SeenLe)
  {
    forall a, b ensures SeenLe(a, b) || SeenLe(b, a) { BytesLtFacts(a.messageId, b.messageId, b.messageId); }
    forall a, b | SeenLe(a, b) && SeenLe(b, a) ensures a == b { BytesLtFacts(a.messageId, b.messageId, b.messageId); }
    forall a, b, c | SeenLe(a, b) && SeenLe(b, c) ensures SeenLe(a, c) {
      BytesLtFacts(a.messageId, b.messageId, c.messageId);
    }
  }

  lemma OptionLeFacts(a: Option<Id>, b: Option<Id>, c: Option<Id>)
    ensures OptionLe(a, b) || OptionLe(b, a)
    ensures OptionLe(a, b) && OptionLe(b, a) ==> a == b
    ensures OptionLe(a, b) && OptionLe(b, c) ==> OptionLe(a, c)
  {
    if a.Some? && b.Some? {
      BytesLeTotal(a.value, b.value);
      if BytesLe(a.value, b.value) && BytesLe(b.value, a.value) { BytesLeAntisymmetric(a.value, b.value); }
      if c.Some? && BytesLe(a.value, b.value) && BytesLe(b.value, c.value) {
        BytesLeTransitive(a.value, b.value, c.value);
      }
    }
  }

  lemma InvalidatedOrder()
    ensures TotalOrder(InvalidatedLe)
  {
    forall a, b ensures InvalidatedLe(a, b) || InvalidatedLe(b, a) {
      BytesLtFacts(a.messageId, b.messageId, b.messageId);
      OptionLeFacts(a.decryptedPayloadRef, b.decryptedPayloadRef, None);
    }
    forall a, b | InvalidatedLe(a, b) && InvalidatedLe(b, a) ensures a == b {
      BytesLtFacts(a.messageId, b.messageId, b.messageId);
      OptionLeFacts(a.decryptedPayloadRef, b.decryptedPayloadRef, None);
    }
    forall a, b, c | InvalidatedLe(a, b) && InvalidatedLe(b, c) ensures InvalidatedLe(a, c) {
      BytesLtFacts(a.messageId, b.messageId, c.messageId);
      OptionLeFacts(a.decryptedPayloadRef, b.decryptedPayloadRef, c.decryptedPayloadRef);
    }
  }

  lemma IntentOrder()
    ensures TotalOrder(IntentLe)
  {
    forall a, b ensures IntentLe(a, b) || IntentLe(b, a) { BytesLeTotal(IntentText(a), IntentText(b)); }
    forall a, b | IntentLe(a, b) && IntentLe(b, a) ensures a == b {
      BytesLeAntisymmetric(IntentText(a), IntentText(b));
    }
    forall a, b, c | IntentLe(a, b) && IntentLe(b, c) ensures IntentLe(a, c) {
      if IntentRank(a) == IntentRank(b) == IntentRank(c) {
        BytesLeTransitive(IntentText(a), IntentText(b), IntentText(c));
      }
    }
  }

  lemma CommitPreorder()
    ensures TotalPreorder(CommitLe)
  {
    forall a, b ensures CommitLe(a, b) || CommitLe(b, a) { BytesLeTotal(a.messageId, b.messageId); }
    forall a, b, c | CommitLe(a, b) && CommitLe(b, c) ensures CommitLe(a, c) {
      if a.sourceEpoch == b.sourceEpoch == c.sourceEpoch {
        BytesLeTransitive(a.messageId, b.messageId, c.messageId);
      }
    }
  }
}
