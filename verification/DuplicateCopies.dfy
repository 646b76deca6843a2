/** What extra copies of pending messages can change. */
module DuplicateCopies {
  import opened Orders
  import opened Messages
  import opened Canonicalization
  import opened OrderInvariance
  import opened Dispositions

  /** All of a result but the reports of seen messages and the order of accepted commits. */
  function Outcome(r: CanonicalizationResult): CanonicalizationResult {
    r.(acceptedCommits := [], alreadySeen := [])
  }

  /** Two results that differ at most in their reports of seen messages and in
      the order of accepted commits. */
  ghost predicate Agree(r: CanonicalizationResult, s: CanonicalizationResult) {
    Outcome(r) == Outcome(s) && multiset(r.acceptedCommits) == multiset(s.acceptedCommits)
  }

  /** No other message of the batch goes by this message's id. */
  ghost predicate Alone(p: seq<PeeledMessage>, m: PeeledMessage) {
    forall x :: x in p && x.messageId == m.messageId ==> x == m
  }

  /** The commit is new to the pass and left open, however often it stands in the batch. */
  ghost predicate StaysOpen(input: CanonicalizationInput, replayed: seq<MaterializedCandidate>, m: PeeledMessage) {
    && m in input.pendingMessages && m.messageId !in input.state.seenMessageIds
    && Alone(input.pendingMessages, m) && LeftOpen(input, replayed, m)
  }

  ghost predicate OpenAtAll(input: CanonicalizationInput, replayed: seq<MaterializedCandidate>) {
    exists m :: StaysOpen(input, replayed, m)
  }

  /** The same messages, of which the same are kept, in any order and number of copies. */
  ghost predicate SameButCopies(input: CanonicalizationInput, q: seq<PeeledMessage>) {
    && SameMessages(input.pendingMessages, q)
    && SameKept(input.pendingMessages, q, input.state.seenMessageIds)
  }

  lemma OpenSame(input: CanonicalizationInput, q: seq<PeeledMessage>, replayed: seq<MaterializedCandidate>,
                 m: PeeledMessage)
    requires SameKept(input.pendingMessages, q, input.state.seenMessageIds)
    ensures LeftOpen(input, replayed, m) <==> LeftOpen(input.(pendingMessages := q), replayed, m)
  {
    GraphSame(input, q, replayed);
    OpenedSame(input, q, replayed, []);
  }

  lemma OutboundFollowsStatus(input: CanonicalizationInput, replayed: seq<MaterializedCandidate>)
    ensures var r := CanonicalizeInternal(input, replayed);
            && r.queuedOutboundIntents
                == (if r.convergenceStatus == Settled then [] else Sort(input.outboundIntents, IntentLe))
            && r.publishableOutboundMessages
                == (if r.convergenceStatus == Settled then Sort(input.outboundIntents, IntentLe) else [])
  {
    GatedOutbound(input, Unsorted(input, replayed));
  }

  lemma GatedOutbound(input: CanonicalizationInput, r: CanonicalizationResult)
    requires r.queuedOutboundIntents == [] && r.publishableOutboundMessages == []
    ensures var s := Sorting(Gated(input, r));
            && s.queuedOutboundIntents
                == (if s.convergenceStatus == Settled then [] else Sort(input.outboundIntents, IntentLe))
            && s.publishableOutboundMessages
                == (if s.convergenceStatus == Settled then Sort(input.outboundIntents, IntentLe) else [])
  {
  }

  lemma OutcomeByStatus(r: CanonicalizationResult, s: CanonicalizationResult)
    requires Decisions(r) == Decisions(s) && r.convergenceStatus == s.convergenceStatus
    requires r.queuedOutboundIntents == s.queuedOutboundIntents
    requires r.publishableOutboundMessages == s.publishableOutboundMessages
    ensures Outcome(r) == Outcome(s)
  {
    var x, y := Decisions(r), Decisions(s);
    assert Outcome(r) == x.(convergenceStatus := r.convergenceStatus, queuedOutboundIntents := r.queuedOutboundIntents,
                            publishableOutboundMessages := r.publishableOutboundMessages);
    assert Outcome(s) == y.(convergenceStatus := s.convergenceStatus, queuedOutboundIntents := s.queuedOutboundIntents,
                            publishableOutboundMessages := s.publishableOutboundMessages);
  }

  /** Batches that keep the same messages differ, if at all, by their status. */
  lemma SameStatusSameOutcome(input: CanonicalizationInput, q: seq<PeeledMessage>, replayed: seq<MaterializedCandidate>)
    requires SameKept(input.pendingMessages, q, input.state.seenMessageIds)
    ensures var r, s := CanonicalizeInternal(input, replayed),
              CanonicalizeInternal(input.(pendingMessages := q), replayed);
            Agree(r, s) <==> r.convergenceStatus == s.convergenceStatus
  {
    var input' := input.(pendingMessages := q);
    var r, s := CanonicalizeInternal(input, replayed), CanonicalizeInternal(input', replayed);
    SameKeptSameDecisions(input, q, replayed);
    OutboundFollowsStatus(input, replayed);
    OutboundFollowsStatus(input', replayed);
    if r.convergenceStatus == s.convergenceStatus {
      OutcomeByStatus(r, s);
    } else {
      assert Outcome(r).convergenceStatus != Outcome(s).convergenceStatus;
    }
  }

  // ----- two batches that tell an open commit apart -----

  lemma DoubledNotOpen(input: CanonicalizationInput, replayed: seq<MaterializedCandidate>)
    ensures !OpenOnce(input.(pendingMessages := input.pendingMessages + input.pendingMessages), replayed)
  {
    var p := input.pendingMessages;
    forall m: PeeledMessage | m in p + p ensures Twice(p + p, m.messageId) {
      var i :| 0 <= i < |p| && p[i] == m;
      assert (p + p)[i] == m == (p + p)[i + |p|];
    }
  }

  function Others(p: seq<PeeledMessage>, m: PeeledMessage): (r: seq<PeeledMessage>)
    ensures forall x :: x in r <==> x in p && x != m
  {
    if p == [] then [] else
      var n := |p| - 1;
      assert p == p[..n] + [p[n]];
      Others(p[..n], m) + (if p[n] == m then [] else [p[n]])
  }

  lemma OnceStandsOnce(p: seq<PeeledMessage>, m: PeeledMessage)
    requires Alone(p, m) && m in p
    ensures SameMessages(p, Others(p, m) + [m]) && !Twice(Others(p, m) + [m], m.messageId)
  {
    var others := Others(p, m);
    var q := others + [m];
    forall i | 0 <= i < |others| ensures q[i].messageId != m.messageId {
      assert q[i] in others;
    }
  }

  lemma UniqueMore(p: seq<PeeledMessage>, x: PeeledMessage, seen: set<Id>)
    ensures Unique(p + [x], seen) == Unique(p, seen) + (if x.messageId in seen + IdsIn(p) then [] else [x])
  {
    assert (p + [x])[..|p|] == p;
  }

  lemma IdsWithout(p: seq<PeeledMessage>, m: PeeledMessage, id: Id)
    requires Alone(p, m) && id != m.messageId
    ensures id in IdsIn(p) <==> id in IdsIn(Others(p, m))
  {
    if id in IdsIn(p) {
      var x :| x in p && x.messageId == id;
      assert x in Others(p, m);
    }
  }

  function OneIf<T>(x: T, b: bool): multiset<T> {
    if b then multiset{x} else multiset{}
  }

  lemma MoreOfBoth<T>(u: seq<T>, v: seq<T>, more: seq<T>, rest: multiset<T>)
    requires multiset(u) == multiset(v) + rest
    ensures multiset(u + more) == multiset(v + more) + rest
  {
  }

  lemma CopyKept(p: seq<PeeledMessage>, m: PeeledMessage, others: seq<PeeledMessage>, seen: set<Id>)
    requires Alone(p, m) && m.messageId !in seen
    requires multiset(Unique(p, seen)) == multiset(Unique(others, seen)) + OneIf(m, m in p)
    ensures multiset(Unique(p + [m], seen)) == multiset(Unique(others, seen)) + multiset{m}
  {
    UniqueMore(p, m, seen);
    if m in p {
      assert m.messageId in IdsIn(p);
      assert Unique(p, seen) + [] == Unique(p, seen);
    }
  }

  lemma OtherKept(p: seq<PeeledMessage>, x: PeeledMessage, m: PeeledMessage, seen: set<Id>,
                  rest: multiset<PeeledMessage>)
    requires Alone(p, m) && m.messageId != x.messageId
    requires multiset(Unique(p, seen)) == multiset(Unique(Others(p, m), seen)) + rest
    ensures multiset(Unique(p + [x], seen)) == multiset(Unique(Others(p, m) + [x], seen)) + rest
  {
    UniqueMore(p, x, seen);
    UniqueMore(Others(p, m), x, seen);
    IdsWithout(p, m, x.messageId);
    MoreOfBoth(Unique(p, seen), Unique(Others(p, m), seen), [x], rest);
    MoreOfBoth(Unique(p, seen), Unique(Others(p, m), seen), [], rest);
  }

  lemma {:induction false} KeptWithout(p: seq<PeeledMessage>, m: PeeledMessage, seen: set<Id>)
    requires Alone(p, m) && m.messageId !in seen
    ensures multiset(Unique(p, seen)) == multiset(Unique(Others(p, m), seen)) + OneIf(m, m in p)
  {
    if p != [] {
      var n := |p| - 1;
      assert p == p[..n] + [p[n]];
      KeptWithout(p[..n], m, seen);
      if p[n] == m {
        CopyKept(p[..n], m, Others(p[..n], m), seen);
        assert Others(p[..n], m) + [] == Others(p[..n], m);
      } else {
        OtherKept(p[..n], p[n], m, seen, OneIf(m, m in p[..n]));
      }
    }
  }

  lemma OnceKeepsSame(p: seq<PeeledMessage>, m: PeeledMessage, seen: set<Id>)
    requires Alone(p, m) && m in p && m.messageId !in seen
    ensures SameKept(p, Others(p, m) + [m], seen)
  {
    var others := Others(p, m);
    KeptWithout(p, m, seen);
    UniqueMore(others, m, seen);
    assert m.messageId !in IdsIn(others);
  }

  lemma DoubledKeepsSame(p: seq<PeeledMessage>, seen: set<Id>)
    ensures SameKept(p, p + p, seen)
  {
    UniqueConcat(p, p, seen);
    AllSeenKeepsNothing(p, seen + IdsIn(p));
  }

  lemma OnceResolves(input: CanonicalizationInput, replayed: seq<MaterializedCandidate>, m: PeeledMessage)
    returns (q: seq<PeeledMessage>)
    requires Quiesced(input) && StaysOpen(input, replayed, m)
    ensures SameButCopies(input, q)
    ensures CanonicalizeInternal(input.(pendingMessages := q), replayed).convergenceStatus == Resolving
  {
    var p := input.pendingMessages;
    q := Others(p, m) + [m];
    OnceStandsOnce(p, m);
    OnceKeepsSame(p, m, input.state.seenMessageIds);
    OpenSame(input, q, replayed, m);
    assert m in q;
    StatusExact(input.(pendingMessages := q), replayed);
  }

  lemma DoubledSettles(input: CanonicalizationInput, replayed: seq<MaterializedCandidate>)
    requires Quiesced(input)
    ensures var q := input.pendingMessages + input.pendingMessages;
            && SameButCopies(input, q)
            && CanonicalizeInternal(input.(pendingMessages := q), replayed).convergenceStatus == Settled
  {
    var p := input.pendingMessages;
    DoubledKeepsSame(p, input.state.seenMessageIds);
    DoubledNotOpen(input, replayed);
    StatusExact(input.(pendingMessages := p + p), replayed);
  }

  lemma CopiesCanChange(input: CanonicalizationInput, replayed: seq<MaterializedCandidate>)
    returns (q: seq<PeeledMessage>)
    requires Quiesced(input) && OpenAtAll(input, replayed)
    ensures SameButCopies(input, q)
    ensures CanonicalizeInternal(input.(pendingMessages := q), replayed).convergenceStatus
            != CanonicalizeInternal(input, replayed).convergenceStatus
  {
    var m :| StaysOpen(input, replayed, m);
    q := OnceResolves(input, replayed, m);
    if CanonicalizeInternal(input, replayed).convergenceStatus == Resolving {
      DoubledSettles(input, replayed);
      q := input.pendingMessages + input.pendingMessages;
    }
  }

  lemma OnceIsAlone(p: seq<PeeledMessage>, m: PeeledMessage)
    requires m in p && !Twice(p, m.messageId)
    ensures Alone(p, m)
  {
    forall x | x in p && x.messageId == m.messageId ensures x == m {
      var i, j :| 0 <= i < |p| && 0 <= j < |p| && p[i] == x && p[j] == m;
      assert i == j;
    }
  }

  lemma NeverOpenOnce(input: CanonicalizationInput, q: seq<PeeledMessage>, replayed: seq<MaterializedCandidate>)
    requires SameButCopies(input, q) && !OpenAtAll(input, replayed)
    ensures !OpenOnce(input.(pendingMessages := q), replayed)
  {
    forall m | m in q && !SeenOrRepeated(input.(pendingMessages := q), m.messageId)
      ensures !LeftOpen(input.(pendingMessages := q), replayed, m)
    {
      OnceIsAlone(q, m);
      OpenSame(input, q, replayed, m);
      assert !StaysOpen(input, replayed, m);
    }
  }

  lemma CopiesKeepStatus(input: CanonicalizationInput, q: seq<PeeledMessage>, replayed: seq<MaterializedCandidate>)
    requires SameButCopies(input, q) && (!Quiesced(input) || !OpenAtAll(input, replayed))
    ensures CanonicalizeInternal(input, replayed).convergenceStatus
            == CanonicalizeInternal(input.(pendingMessages := q), replayed).convergenceStatus
  {
    StatusExact(input, replayed);
    StatusExact(input.(pendingMessages := q), replayed);
    if Quiesced(input) {
      assert input.(pendingMessages := input.pendingMessages) == input;
      NeverOpenOnce(input, input.pendingMessages, replayed);
      NeverOpenOnce(input, q, replayed);
    }
  }

  /** Copies and order of the pending messages leave status, outbound split and
      every decision unchanged, and all but the seen reports, exactly when the window is
      not quiet yet or no new commit that alone bears its id is left open. */
  lemma CopiesChangeNothingIff(input: CanonicalizationInput, replayed: seq<MaterializedCandidate>)
    ensures (forall q :: SameButCopies(input, q) ==>
                           Agree(CanonicalizeInternal(input, replayed),
                                 CanonicalizeInternal(input.(pendingMessages := q), replayed)))
            <==> !Quiesced(input) || !OpenAtAll(input, replayed)
  {
    if !Quiesced(input) || !OpenAtAll(input, replayed) {
      forall q | SameButCopies(input, q)
        ensures Agree(CanonicalizeInternal(input, replayed),
                      CanonicalizeInternal(input.(pendingMessages := q), replayed))
      {
        CopiesKeepStatus(input, q, replayed);
        SameStatusSameOutcome(input, q, replayed);
      }
    } else {
      var q := CopiesCanChange(input, replayed);
      SameStatusSameOutcome(input, q, replayed);
    }
  }

  /** Where equal unseen ids mean equal messages, every batch of the same
      messages keeps the same ones, and every new commit alone bears its id. */
  lemma ConsistentCopies(input: CanonicalizationInput, replayed: seq<MaterializedCandidate>)
    requires Consistent(input.pendingMessages, input.state.seenMessageIds)
    ensures forall q :: SameButCopies(input, q) <==> SameMessages(input.pendingMessages, q)
    ensures forall m :: StaysOpen(input, replayed, m) <==>
                        && m in input.pendingMessages && m.messageId !in input.state.seenMessageIds
                        && LeftOpen(input, replayed, m)
  {
    forall q | SameMessages(input.pendingMessages, q) ensures SameButCopies(input, q) {
      UniquePermutation(input.pendingMessages, q, input.state.seenMessageIds);
    }
  }
}
