/** Admin authorization of staged commits over a group of leaves and an admin
    list, and the SelfRemove auto-commit policy. */
module AdminGroup {
  import opened Orders
  import opened ByteCodecs
  import opened AdminPolicyCodec

  datatype Credential = Basic(identity: Bytes) | OtherCredential

  /** Leaf index to credential, the admin-policy component's bytes, and whether
      the group requires that component. */
  datatype Group = Group(members: map<nat, Credential>, adminBytes: Option<Bytes>, adminRequired: bool)

  datatype Sender = Member(leaf: nat) | External

  datatype Proposal =
    | Add(credential: Credential)
    | Remove(leaf: nat)
    | Update
    | SelfRemove
    | SetAdminPolicy(bytes: Bytes)                            // AppDataUpdate on the admin-policy component
    | DropAdminPolicy
    | SetRequiredComponents(admin: bool)                      // AppDataUpdate on the required list
    | GroupContextExtensions(adminBytes: Option<Bytes>, required: bool) // replaces the whole dictionary
    | OtherProposal                                           // PreSharedKey, ReInit, ExternalInit, Custom, ...

  datatype Queued = Queued(proposal: Proposal, sender: Sender)

  /** `placement` is where the tree puts each added leaf. */
  datatype Staged = Staged(queued: seq<Queued>, updatePath: bool, placement: seq<nat>)

  datatype GateError =
    | NotGroupAdmin
    | AdminCannotSelfRemove
    | MalformedIdentity
    | UnreadablePolicy
    | AdminWithoutLeaf

  function AdminsOf(bytes: Option<Bytes>): Result<seq<Key>> {
    if bytes.None? then Ok([]) else DecodeAdminPolicy(bytes.value)
  }

  // ----- the commit's effect -----

  function AdminBytesAfter(bytes: Option<Bytes>, qs: seq<Queued>): Option<Bytes> {
    if qs == [] then bytes else
      var before := AdminBytesAfter(bytes, qs[..|qs| - 1]);
      match qs[|qs| - 1].proposal
      case SetAdminPolicy(b) => Some(b)
      case DropAdminPolicy => None
      case GroupContextExtensions(b, _) => b
      case _ => before
  }

  function RequiredAfter(required: bool, qs: seq<Queued>): bool {
    if qs == [] then required else
      match qs[|qs| - 1].proposal
      case SetRequiredComponents(r) => r
      case GroupContextExtensions(_, r) => r
      case _ => RequiredAfter(required, qs[..|qs| - 1])
  }

  function RemovedBy(q: Queued): set<nat> {
    match q.proposal
    case Remove(leaf) => {leaf}
    case SelfRemove => if q.sender.Member? then {q.sender.leaf} else {}
    case _ => {}
  }

  function RemovedLeaves(qs: seq<Queued>): set<nat> {
    if qs == [] then {} else RemovedLeaves(qs[..|qs| - 1]) + RemovedBy(qs[|qs| - 1])
  }

  function Added(qs: seq<Queued>): seq<Credential> {
    if qs == [] then [] else
      Added(qs[..|qs| - 1]) + (if qs[|qs| - 1].proposal.Add? then [qs[|qs| - 1].proposal.credential] else [])
  }

  /** The tree gives every added leaf a place of its own. */
  ghost predicate WellPlaced(g: Group, st: Staged) {
    && |st.placement| == |Added(st.queued)|
    && NoRepeats(st.placement)
    && (forall i :: 0 <= i < |st.placement| ==>
          st.placement[i] !in g.members || st.placement[i] in RemovedLeaves(st.queued))
  }

  ghost function After(g: Group, st: Staged): Group
    requires WellPlaced(g, st)
  {
    var survivors := g.members - RemovedLeaves(st.queued);
    var joined := map i | 0 <= i < |st.placement| :: st.placement[i] := Added(st.queued)[i];
    Group(survivors + joined, AdminBytesAfter(g.adminBytes, st.queued), RequiredAfter(g.adminRequired, st.queued))
  }

  // ----- the gates, said declaratively -----

  /** Replacement policies decode; a required policy is not dropped. */
  predicate AppDataOk(g: Group, qs: seq<Queued>) {
    forall q :: q in qs ==>
      && (q.proposal.SetAdminPolicy? ==> DecodeAdminPolicy(q.proposal.bytes).Ok?)
      && (q.proposal.DropAdminPolicy? ==> !g.adminRequired)
  }

  function IdentityOf(g: Group, s: Sender): Option<Bytes> {
    if s.Member? && s.leaf in g.members && g.members[s.leaf].Basic? then Some(g.members[s.leaf].identity) else None
  }

  predicate IsListed(admins: seq<Key>, id: Bytes) {
    |id| == 32 && id in admins
  }

  predicate SelfRemoveOk(g: Group, admins: seq<Key>, q: Queued) {
    q.proposal.SelfRemove? ==>
      var id := IdentityOf(g, q.sender);
      id.Some? ==> |id.value| == 32 && id.value !in admins
  }

  predicate SelfRemovesOk(g: Group, qs: seq<Queued>) {
    var admins := AdminsOf(g.adminBytes);
    admins.Ok? && (admins.value == [] || forall q :: q in qs ==> SelfRemoveOk(g, admins.value, q))
  }

  /** A lone update path, or SelfRemoves and nothing else. */
  predicate OpenToAll(st: Staged) {
    (st.queued == [] && st.updatePath) || (st.queued != [] && forall q :: q in st.queued ==> q.proposal.SelfRemove?)
  }

  predicate IsAdmin(g: Group, sender: Option<Bytes>) {
    sender.Some? && AdminsOf(g.adminBytes).Ok? && IsListed(AdminsOf(g.adminBytes).value, sender.value)
  }

  /** The account keeps or gains a leaf. */
  ghost predicate HasLeafAfter(g: Group, qs: seq<Queued>, account: Bytes) {
    || (exists l :: l in g.members && l !in RemovedLeaves(qs) && g.members[l] == Basic(account))
    || Basic(account) in Added(qs)
  }

  ghost predicate CouplingOk(g: Group, qs: seq<Queued>) {
    var admins := AdminsOf(AdminBytesAfter(g.adminBytes, qs));
    admins.Ok? && forall a :: a in admins.value ==> HasLeafAfter(g, qs, a)
  }

  /** A commit from `sender` that every gate lets through. */
  ghost predicate Accepts(g: Group, sender: Option<Bytes>, st: Staged) {
    && AppDataOk(g, st.queued)
    && SelfRemovesOk(g, st.queued)
    && (OpenToAll(st) || IsAdmin(g, sender))
    && CouplingOk(g, st.queued)
    && sender.Some?
  }

  // ----- the gates, as they run -----

  method RejectAdminSelfRemoves(g: Group, qs: seq<Queued>) returns (err: Option<GateError>)
    ensures err.None? <==> SelfRemovesOk(g, qs)
  {
    var admins := AdminsOf(g.adminBytes);
    if admins.Err? { return Some(UnreadablePolicy); }
    if admins.value == [] { return None; }
    for i := 0 to |qs|
      invariant forall j :: 0 <= j < i ==> SelfRemoveOk(g, admins.value, qs[j])
    {
      assert qs[i] in qs;
      if !qs[i].proposal.SelfRemove? { continue; }
      var id := IdentityOf(g, qs[i].sender);
      if id.None? { continue; }
      if |id.value| != 32 {
        assert !SelfRemoveOk(g, admins.value, qs[i]);
        return Some(MalformedIdentity);
      }
      if id.value in admins.value {
        assert !SelfRemoveOk(g, admins.value, qs[i]);
        return Some(AdminCannotSelfRemove);
      }
    }
    return None;
  }

  method IsAllowedNonAdminCommit(st: Staged) returns (allowed: bool)
    ensures allowed == OpenToAll(st)
  {
    var proposals, selfRemoves := 0, 0;
    for i := 0 to |st.queued|
      invariant proposals == i && selfRemoves == i
      invariant forall j :: 0 <= j < i ==> st.queued[j].proposal.SelfRemove?
    {
      proposals := proposals + 1;
      if !st.queued[i].proposal.SelfRemove? {
        assert st.queued[i] in st.queued;
        return false;
      }
      selfRemoves := selfRemoves + 1;
    }
    var selfUpdate := proposals == 0 && st.updatePath;
    var selfRemove := selfRemoves > 0 && selfRemoves == proposals;
    return selfUpdate != selfRemove;
  }

  method RequireAdminForStagedCommit(g: Group, sender: Option<Bytes>, st: Staged) returns (err: Option<GateError>)
    ensures err.None? <==> SelfRemovesOk(g, st.queued) && (OpenToAll(st) || IsAdmin(g, sender))
  {
    err := RejectAdminSelfRemoves(g, st.queued);
    if err.Some? { return; }
    var allowed := IsAllowedNonAdminCommit(st);
    if allowed { return None; }
    if sender.None? { return Some(NotGroupAdmin); }
    if |sender.value| != 32 { return Some(MalformedIdentity); }
    var admins := AdminsOf(g.adminBytes);
    if admins.Err? { return Some(UnreadablePolicy); }
    if sender.value in admins.value { return None; }
    return Some(NotGroupAdmin);
  }

  /** Accounts with a leaf after the commit, collected leaf by leaf and add by add. */
  method ResultingAccounts(g: Group, qs: seq<Queued>) returns (accounts: set<Bytes>)
    ensures forall a :: a in accounts <==> |a| == 32 && HasLeafAfter(g, qs, a)
  {
    var removed: set<nat> := {};
    for i := 0 to |qs|
      invariant removed == RemovedLeaves(qs[..i])
    {
      assert qs[..i + 1][..i] == qs[..i];
      removed := removed + RemovedBy(qs[i]);
    }
    assert qs[..|qs|] == qs;
    var survivors :=
      set l | l in g.members && l !in removed && g.members[l].Basic? && |g.members[l].identity| == 32
        :: g.members[l].identity;
    accounts := survivors;
    var added := Added(qs);
    for i := 0 to |added|
      invariant forall a :: a in accounts <==> a in survivors || (|a| == 32 && Basic(a) in added[..i])
    {
      if added[i].Basic? && |added[i].identity| == 32 { accounts := accounts + {added[i].identity}; }
      assert forall a :: Basic(a) in added[..i + 1] <==> Basic(a) in added[..i] || Basic(a) == added[i];
    }
    assert added[..|added|] == added;
  }

  method ValidateAdminLeafCoupling(g: Group, st: Staged) returns (err: Option<GateError>)
    ensures err.None? <==> CouplingOk(g, st.queued)
  {
    var bytes := AdminBytesAfter(g.adminBytes, st.queued);
    if bytes.None? { return None; }
    var admins := DecodeAdminPolicy(bytes.value);
    if admins.Err? { return Some(UnreadablePolicy); }
    var accounts := ResultingAccounts(g, st.queued);
    for i := 0 to |admins.value|
      invariant forall j :: 0 <= j < i ==> admins.value[j] in accounts
    {
      if admins.value[i] !in accounts {
        assert admins.value[i] in admins.value && !HasLeafAfter(g, st.queued, admins.value[i]);
        return Some(AdminWithoutLeaf);
      }
    }
    assert forall a :: a in admins.value ==> a in accounts;
    return None;
  }

  // ----- invariants over commits -----

  ghost predicate HasLeaf(g: Group, account: Bytes) {
    exists l :: l in g.members && g.members[l] == Basic(account)
  }

  /** The policy reads, and every listed admin has a leaf. */
  ghost predicate Coupled(g: Group) {
    AdminsOf(g.adminBytes).Ok? && forall a :: a in AdminsOf(g.adminBytes).value ==> HasLeaf(g, a)
  }

  /** Coupled, with at least one admin. */
  ghost predicate Governed(g: Group) {
    Coupled(g) && AdminsOf(g.adminBytes).value != []
  }

  lemma SurvivorStays(g: Group, st: Staged, l: nat)
    requires WellPlaced(g, st) && l in g.members && l !in RemovedLeaves(st.queued)
    ensures l in After(g, st).members && After(g, st).members[l] == g.members[l]
  {
    assert forall i :: 0 <= i < |st.placement| ==> st.placement[i] != l;
  }

  lemma AddedJoins(g: Group, st: Staged, i: nat)
    requires WellPlaced(g, st) && i < |st.placement|
    ensures st.placement[i] in After(g, st).members && After(g, st).members[st.placement[i]] == Added(st.queued)[i]
  {
  }

  lemma LeafAfterCommit(g: Group, st: Staged, account: Bytes)
    requires WellPlaced(g, st) && HasLeafAfter(g, st.queued, account)
    ensures HasLeaf(After(g, st), account)
  {
    if l :| l in g.members && l !in RemovedLeaves(st.queued) && g.members[l] == Basic(account) {
      SurvivorStays(g, st, l);
    } else {
      var i :| 0 <= i < |Added(st.queued)| && Added(st.queued)[i] == Basic(account);
      AddedJoins(g, st, i);
    }
  }

  lemma AcceptedStaysCoupled(g: Group, sender: Option<Bytes>, st: Staged)
    requires Accepts(g, sender, st) && WellPlaced(g, st)
    ensures Coupled(After(g, st))
  {
    var g' := After(g, st);
    forall a | a in AdminsOf(g'.adminBytes).value ensures HasLeaf(g', a) { LeafAfterCommit(g, st, a); }
  }

  predicate PutsPolicy(p: Proposal) {
    p.SetAdminPolicy? || (p.GroupContextExtensions? && p.adminBytes.Some?)
  }

  predicate TakesByExtensions(p: Proposal) {
    p.GroupContextExtensions? && p.adminBytes.None?
  }

  predicate TakesPolicy(p: Proposal) {
    p.DropAdminPolicy? || TakesByExtensions(p)
  }

  /** Some proposal says `yes`, and none after it says `no`. */
  ghost predicate LastWord(qs: seq<Queued>, yes: Proposal -> bool, no: Proposal -> bool) {
    exists i :: 0 <= i < |qs| && yes(qs[i].proposal) && SilentFrom(qs, i + 1, no)
  }

  ghost predicate SilentFrom(qs: seq<Queued>, from: nat, no: Proposal -> bool) {
    forall j :: from <= j < |qs| ==> !no(qs[j].proposal)
  }

  ghost predicate PolicyTaken(qs: seq<Queued>) {
    LastWord(qs, TakesPolicy, PutsPolicy)
  }

  ghost predicate PolicyPut(qs: seq<Queued>) {
    LastWord(qs, PutsPolicy, TakesPolicy)
  }

  lemma LastWordStep(qs: seq<Queued>, yes: Proposal -> bool, no: Proposal -> bool)
    requires qs != []
    ensures var n := |qs| - 1;
            LastWord(qs, yes, no) <==> yes(qs[n].proposal) || (!no(qs[n].proposal) && LastWord(qs[..n], yes, no))
  {
    var n := |qs| - 1;
    var pre := qs[..n];
    if yes(qs[n].proposal) { assert SilentFrom(qs, n + 1, no); }
    if i :| 0 <= i < n && yes(pre[i].proposal) && SilentFrom(pre, i + 1, no) {
      if !no(qs[n].proposal) {
        forall j | i + 1 <= j < |qs| ensures !no(qs[j].proposal) { if j < n { assert pre[j] == qs[j]; } }
        assert yes(qs[i].proposal) && SilentFrom(qs, i + 1, no);
      }
    }
    if i :| 0 <= i < n && yes(qs[i].proposal) && SilentFrom(qs, i + 1, no) {
      forall j | i + 1 <= j < n ensures !no(pre[j].proposal) { assert pre[j] == qs[j]; }
      assert yes(pre[i].proposal) && SilentFrom(pre, i + 1, no);
    }
  }

  /** A commit leaves a policy in place exactly when there was one and no
      proposal takes it without a later one putting it back, or there was none
      and a proposal puts one that no later one takes. */
  lemma {:induction false} PolicyAfterIff(bytes: Option<Bytes>, qs: seq<Queued>)
    ensures AdminBytesAfter(bytes, qs).Some? <==> if bytes.Some? then !PolicyTaken(qs) else PolicyPut(qs)
  {
    if qs != [] {
      PolicyAfterIff(bytes, qs[..|qs| - 1]);
      LastWordStep(qs, TakesPolicy, PutsPolicy);
      LastWordStep(qs, PutsPolicy, TakesPolicy);
    }
  }

  lemma {:induction false} NothingDropped(qs: seq<Queued>)
    requires forall q :: q in qs ==> !q.proposal.DropAdminPolicy?
    ensures PolicyTaken(qs) <==> LastWord(qs, TakesByExtensions, PutsPolicy)
  {
    if qs != [] {
      NothingDropped(qs[..|qs| - 1]);
      LastWordStep(qs, TakesPolicy, PutsPolicy);
      LastWordStep(qs, TakesByExtensions, PutsPolicy);
      assert qs[|qs| - 1] in qs;
    }
  }

  /** While a group requires the policy, a commit that passes the component
      checks takes it away exactly by replacing the group-context extensions. */
  lemma PolicyStaysIff(g: Group, qs: seq<Queued>)
    requires AppDataOk(g, qs) && g.adminRequired && g.adminBytes.Some?
    ensures AdminBytesAfter(g.adminBytes, qs).Some? <==> !LastWord(qs, TakesByExtensions, PutsPolicy)
  {
    PolicyAfterIff(g.adminBytes, qs);
    NothingDropped(qs);
  }

  // ----- what a non-admin can do -----

  lemma {:induction false} SelfRemovesOnly(bytes: Option<Bytes>, required: bool, qs: seq<Queued>)
    requires forall q :: q in qs ==> q.proposal.SelfRemove?
    ensures AdminBytesAfter(bytes, qs) == bytes && RequiredAfter(required, qs) == required && Added(qs) == []
    ensures forall l :: l in RemovedLeaves(qs) <==> exists q :: q in qs && q.sender == Member(l)
  {
    if qs != [] {
      var n := |qs| - 1;
      SelfRemovesOnly(bytes, required, qs[..n]);
      assert qs[n] in qs;
      assert qs == qs[..n] + [qs[n]];
    }
  }

  /** A commit accepted from someone who is not an admin changes neither the
      admin list nor what the group requires, and of the leaves it takes away
      exactly those of the SelfRemove senders. */
  lemma NonAdminCommit(g: Group, sender: Option<Bytes>, st: Staged)
    requires Accepts(g, sender, st) && WellPlaced(g, st) && !IsAdmin(g, sender)
    ensures After(g, st) == g.(members := g.members - RemovedLeaves(st.queued))
    ensures forall l :: l in RemovedLeaves(st.queued) <==>
            exists q :: q in st.queued && q.proposal.SelfRemove? && q.sender == Member(l)
  {
    SelfRemovesOnly(g.adminBytes, g.adminRequired, st.queued);
    assert st.placement == [];
  }

  /** An accepted commit leaves a governed group exactly when there was a policy
      and no proposal takes it away for good. */
  lemma GovernedIffPolicyStays(g: Group, sender: Option<Bytes>, st: Staged)
    requires Accepts(g, sender, st) && WellPlaced(g, st)
    ensures Governed(After(g, st)) <==> AdminBytesAfter(g.adminBytes, st.queued).Some?
    ensures Governed(After(g, st)) <==> g.adminBytes.Some? && !PolicyTaken(st.queued)
  {
    AcceptedStaysCoupled(g, sender, st);
    var bytes := AdminBytesAfter(g.adminBytes, st.queued);
    if bytes.Some? { EncodeDecodePolicy(bytes.value); }
    PolicyAfterIff(g.adminBytes, st.queued);
    if g.adminBytes.None? { NonAdminCommit(g, sender, st); }
  }

  /** No listed admin leaves by SelfRemove. */
  lemma AdminsDoNotSelfRemove(g: Group, sender: Option<Bytes>, st: Staged, q: Queued)
    requires Accepts(g, sender, st) && Governed(g)
    requires q in st.queued && q.proposal.SelfRemove? && q.sender.Member? && q.sender.leaf in g.members
    ensures forall a :: a in AdminsOf(g.adminBytes).value ==> g.members[q.sender.leaf] != Basic(a)
  {
    assert SelfRemoveOk(g, AdminsOf(g.adminBytes).value, q);
  }

  /** A commit by someone who is not an admin takes no leaf from any admin. */
  lemma AdminLeavesStay(g: Group, sender: Option<Bytes>, st: Staged, l: nat, admin: Key)
    requires Accepts(g, sender, st) && WellPlaced(g, st) && !IsAdmin(g, sender)
    requires Governed(g) && admin in AdminsOf(g.adminBytes).value
    requires l in g.members && g.members[l] == Basic(admin)
    ensures l in After(g, st).members && After(g, st).members[l] == Basic(admin)
  {
    NonAdminCommit(g, sender, st);
    if l in RemovedLeaves(st.queued) {
      var q :| q in st.queued && q.proposal.SelfRemove? && q.sender == Member(l);
      AdminsDoNotSelfRemove(g, sender, st, q);
    }
  }

  // ----- runs -----

  datatype Commit = Commit(sender: Option<Bytes>, staged: Staged)

  ghost predicate AcceptedRun(g: Group, run: seq<Commit>)
    decreases |run|, 0
  {
    run == [] || (
      && AcceptedRun(g, run[..|run| - 1])
      && WellPlaced(GroupAfter(g, run[..|run| - 1]), run[|run| - 1].staged)
      && Accepts(GroupAfter(g, run[..|run| - 1]), run[|run| - 1].sender, run[|run| - 1].staged))
  }

  ghost function GroupAfter(g: Group, run: seq<Commit>): Group
    requires AcceptedRun(g, run)
    decreases |run|, 1
  {
    if run == [] then g else After(GroupAfter(g, run[..|run| - 1]), run[|run| - 1].staged)
  }

  /** No commit of the run takes the policy away for good. */
  ghost predicate PolicyKept(run: seq<Commit>) {
    forall c :: c in run ==> !PolicyTaken(c.staged.queued)
  }

  /** From a governed group, every run of accepted commits keeps every listed
      admin with a leaf, and keeps the list non-empty exactly when none of its
      commits takes the policy away: once gone, it never comes back. */
  lemma {:induction false} RunsStayGoverned(g: Group, run: seq<Commit>)
    requires Governed(g) && AcceptedRun(g, run)
    ensures Coupled(GroupAfter(g, run))
    ensures Governed(GroupAfter(g, run)) <==> GroupAfter(g, run).adminBytes.Some?
    ensures Governed(GroupAfter(g, run)) <==> PolicyKept(run)
  {
    if run != [] {
      var n := |run| - 1;
      assert run == run[..n] + [run[n]];
      RunsStayGoverned(g, run[..n]);
      var before, c := GroupAfter(g, run[..n]), run[n];
      AcceptedStaysCoupled(before, c.sender, c.staged);
      GovernedIffPolicyStays(before, c.sender, c.staged);
    }
  }

  /** Over a run, whoever changes the admin list was listed when they did. */
  lemma {:induction false} OnlyAdminsChangeAdmins(g: Group, run: seq<Commit>)
    requires AcceptedRun(g, run)
    requires forall k :: 0 <= k < |run| ==> AcceptedRun(g, run[..k]) && !IsAdmin(GroupAfter(g, run[..k]), run[k].sender)
    ensures GroupAfter(g, run).adminBytes == g.adminBytes
    ensures forall l :: l in GroupAfter(g, run).members ==>
              l in g.members && GroupAfter(g, run).members[l] == g.members[l]
  {
    if run != [] {
      var n := |run| - 1;
      forall k | 0 <= k < n
        ensures AcceptedRun(g, run[..n][..k]) && !IsAdmin(GroupAfter(g, run[..n][..k]), run[..n][k].sender)
      {
        assert run[..n][..k] == run[..k];
      }
      OnlyAdminsChangeAdmins(g, run[..n]);
      NonAdminCommit(GroupAfter(g, run[..n]), run[n].sender, run[n].staged);
    }
  }

  /** A commit of one proposal, whoever proposed it. */
  function Lone(p: Proposal, proposer: Sender): Staged {
    Staged([Queued(p, proposer)], true, [])
  }

  /** An admin can still dissolve the list: stop requiring the policy, then drop
      it, whoever made the two proposals. */
  lemma AdminCanDissolve(g: Group, admin: Bytes, first: Sender, second: Sender)
    requires Governed(g) && IsAdmin(g, Some(admin))
    ensures var unrequire := Commit(Some(admin), Lone(SetRequiredComponents(false), first));
            var drop := Commit(Some(admin), Lone(DropAdminPolicy, second));
            && AcceptedRun(g, [unrequire, drop])
            && AdminsOf(GroupAfter(g, [unrequire, drop]).adminBytes) == Ok([])
  {
    var unrequire := Commit(Some(admin), Lone(SetRequiredComponents(false), first));
    var drop := Commit(Some(admin), Lone(DropAdminPolicy, second));
    AdminCanUnrequire(g, admin, first);
    var g1 := g.(adminRequired := false);
    AdminCanDrop(g1, admin, second);
    RunOfTwo(g, unrequire, drop);
  }

  lemma RunOfTwo(g: Group, a: Commit, b: Commit)
    requires WellPlaced(g, a.staged) && Accepts(g, a.sender, a.staged)
    requires WellPlaced(After(g, a.staged), b.staged) && Accepts(After(g, a.staged), b.sender, b.staged)
    ensures AcceptedRun(g, [a, b]) && GroupAfter(g, [a, b]) == After(After(g, a.staged), b.staged)
  {
    var run := [a, b];
    assert run[..1] == [a] && [a][..0] == [];
    assert AcceptedRun(g, []) && GroupAfter(g, []) == g;
    assert AcceptedRun(g, [a]) && GroupAfter(g, [a]) == After(g, a.staged);
  }

  lemma AdminCanUnrequire(g: Group, admin: Bytes, proposer: Sender)
    requires Governed(g) && IsAdmin(g, Some(admin))
    ensures var a := Lone(SetRequiredComponents(false), proposer);
            Accepts(g, Some(admin), a) && WellPlaced(g, a) && After(g, a) == g.(adminRequired := false)
  {
    var a := Lone(SetRequiredComponents(false), proposer);
    LoneProposal(g, SetRequiredComponents(false), proposer);
    forall x | x in AdminsOf(g.adminBytes).value ensures HasLeafAfter(g, a.queued, x) { assert HasLeaf(g, x); }
  }

  lemma AdminCanDrop(g: Group, admin: Bytes, proposer: Sender)
    requires Governed(g) && IsAdmin(g, Some(admin)) && !g.adminRequired
    ensures var b := Lone(DropAdminPolicy, proposer);
            Accepts(g, Some(admin), b) && WellPlaced(g, b) && After(g, b).adminBytes == None
  {
    LoneProposal(g, DropAdminPolicy, proposer);
  }

  lemma LoneProposal(g: Group, p: Proposal, proposer: Sender)
    requires p.SetRequiredComponents? || p.DropAdminPolicy?
    ensures var qs := [Queued(p, proposer)];
            && AdminBytesAfter(g.adminBytes, qs) == (if p.DropAdminPolicy? then None else g.adminBytes)
            && RequiredAfter(g.adminRequired, qs) == (if p.SetRequiredComponents? then p.admin else g.adminRequired)
            && RemovedLeaves(qs) == {} && Added(qs) == []
  {
    var qs := [Queued(p, proposer)];
    assert qs[..0] == [];
    assert RemovedLeaves([]) == {} && Added([]) == [] && AdminBytesAfter(g.adminBytes, []) == g.adminBytes;
  }

  // ----- the auto-committer -----

  datatype Decision = CommitIt | Observe

  datatype DecisionReason =
    | ProposalNotSelfRemove
    | SenderNotMember
    | WeAreTarget
    | AdminSetUnreadable
    | LeaverIdentityMalformed
    | LeaverStillAdmin
    | SelfRemoveRemainingMember

  datatype DecisionReport = DecisionReport(decision: Decision, reason: DecisionReason)

  datatype PubkeyResult = PubkeyOk(key: Bytes) | LeafMissing | PubkeyMalformed

  function PubkeyAtLeaf(g: Group, leaf: nat): PubkeyResult {
    if leaf !in g.members then LeafMissing
    else if !g.members[leaf].Basic? || |g.members[leaf].identity| != 32 then PubkeyMalformed
    else PubkeyOk(g.members[leaf].identity)
  }

  function Decide(g: Group, own: nat, q: Queued): DecisionReport {
    if !q.proposal.SelfRemove? then DecisionReport(Observe, ProposalNotSelfRemove)
    else if !q.sender.Member? then DecisionReport(Observe, SenderNotMember)
    else if own == q.sender.leaf then DecisionReport(Observe, WeAreTarget)
    else
      var admins := AdminsOf(g.adminBytes);
      if admins.Err? then DecisionReport(Observe, AdminSetUnreadable)
      else
        match PubkeyAtLeaf(g, q.sender.leaf)
        case PubkeyMalformed => DecisionReport(Observe, LeaverIdentityMalformed)
        case LeafMissing => DecisionReport(CommitIt, SelfRemoveRemainingMember)
        case PubkeyOk(key) =>
          if key in admins.value then DecisionReport(Observe, LeaverStillAdmin)
          else DecisionReport(CommitIt, SelfRemoveRemainingMember)
  }

  function SelfRemoveCommit(qs: seq<Queued>): Staged {
    Staged(qs, true, [])
  }

  /** Whatever the auto-committer decides to commit passes every gate, for any
      committing member, one proposal or many at once. */
  lemma DecidedCommitsPass(g: Group, own: nat, qs: seq<Queued>, sender: Bytes)
    requires Coupled(g) && qs != []
    requires forall q :: q in qs ==> Decide(g, own, q).decision == CommitIt
    ensures Accepts(g, Some(sender), SelfRemoveCommit(qs)) && WellPlaced(g, SelfRemoveCommit(qs))
  {
    SelfRemovesOnly(g.adminBytes, g.adminRequired, qs);
    var admins := AdminsOf(g.adminBytes).value;
    forall a | a in admins ensures HasLeafAfter(g, qs, a) {
      var l :| l in g.members && g.members[l] == Basic(a);
      assert l !in RemovedLeaves(qs);
    }
  }

  /** A SelfRemove of another member's leaf whose identity reads. */
  predicate Eligible(g: Group, own: nat, q: Queued) {
    && q.proposal.SelfRemove? && q.sender.Member? && q.sender.leaf != own
    && !PubkeyAtLeaf(g, q.sender.leaf).PubkeyMalformed?
  }

  lemma HeldBack(g: Group, own: nat, q: Queued)
    requires Eligible(g, own, q) && Decide(g, own, q).decision != CommitIt
    ensures !SelfRemovesOk(g, [q])
  {
    assert q in [q];
  }

  /** The auto-committer commits exactly the eligible proposals that the gates
      let any member commit. */
  lemma DecisionIsTheGates(g: Group, own: nat, q: Queued, sender: Bytes)
    requires Coupled(g)
    ensures Decide(g, own, q).decision == CommitIt <==>
            Eligible(g, own, q) && Accepts(g, Some(sender), SelfRemoveCommit([q]))
  {
    if Decide(g, own, q).decision == CommitIt {
      DecidedCommitsPass(g, own, [q], sender);
    } else if Eligible(g, own, q) {
      HeldBack(g, own, q);
    }
  }
}
