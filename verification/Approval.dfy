/** Approval chains: quorum, delegation, sequential order and reapproval
    (src/server/services/approval.service.ts). */
module Approval {
  import opened Ordering
  import opened Wrappers

  datatype Error =
    StepNotFound | AlreadyProcessed | SelfApproval | CommentRequired | DelegationNotAllowed | NotAuthorized

  datatype Decision = PENDING | APPROVED | REJECTED | CHANGES_REQUESTED | DELEGATED | ESCALATED
  datatype Mode = ANY_ONE | ALL | MAJORITY | SEQUENTIAL | PARALLEL | N_OF_M | PERCENTAGE_QUORUM
  datatype ChainStatus = Pending | Approved | Rejected | Cancelled

  datatype Delegation = Delegation(fromUser: string, toUser: string, at: int, reason: Option<string>)

  datatype Step = Step(
    id: string,
    requiredRole: Option<string>,
    requesterManager: bool,
    candidates: set<string>,
    approver: Option<string>,
    reapproveOnChange: bool,
    status: Decision,
    decidedBy: Option<string>,
    decidedAt: Option<int>,
    comments: Option<string>,
    delegatedTo: Option<string>,
    history: seq<Delegation>)

  datatype Policy = Policy(
    mode: Mode,
    quorumCount: Option<int>,
    quorumPercentage: Option<real>,
    requesterId: Option<string>,
    preventSelfApproval: bool,
    commentsMandatoryOnReject: bool,
    allowDelegation: bool)

  datatype Chain = Chain(policy: Policy, status: ChainStatus, completedAt: Option<int>, steps: seq<Step>)

  datatype User = User(id: string, isActive: bool, roles: set<string>)
  datatype Request = Request(stepId: string, decision: Decision, user: User,
                       comments: Option<string>, delegate: Option<string>)

  /** The other users known to the directory, and the clock. */
  datatype Env = Env(users: set<string>, now: int)

  // ---------------------------------------------------------------------
  // Reading a chain
  // ---------------------------------------------------------------------

  function Count(steps: seq<Step>, d: Decision): nat {
    if steps == [] then 0 else (if steps[0].status == d then 1 else 0) + Count(steps[1..], d)
  }

  /** The first step carrying an id. */
  function FindStep(steps: seq<Step>, id: string): (r: Option<nat>)
    ensures r.Some? ==> r.value < |steps| && steps[r.value].id == id
                        && forall k :: 0 <= k < r.value ==> steps[k].id != id
    ensures r.None? ==> forall k :: 0 <= k < |steps| ==> steps[k].id != id
  {
    if steps == [] then None
    else if steps[0].id == id then Some(0)
    else match FindStep(steps[1..], id)
      case None => None
      case Some(k) => Some(k + 1)
  }

  function FirstPending(steps: seq<Step>): (r: Option<nat>)
    ensures r.Some? ==> r.value < |steps| && steps[r.value].status == PENDING
                        && forall k :: 0 <= k < r.value ==> steps[k].status != PENDING
    ensures r.None? ==> forall k :: 0 <= k < |steps| ==> steps[k].status != PENDING
  {
    if steps == [] then None
    else if steps[0].status == PENDING then Some(0)
    else match FirstPending(steps[1..])
      case None => None
      case Some(k) => Some(k + 1)
  }

  predicate SelfApproving(policy: Policy, user: User) {
    policy.preventSelfApproval && policy.requesterId == Some(user.id)
  }

  predicate Entitled(step: Step, user: User) {
    || step.approver == Some(user.id)
    || user.id in step.candidates
    || (step.requiredRole.Some? && step.requiredRole.value in user.roles)
    || (!step.requesterManager && ("PLATFORM_ADMIN" in user.roles || "CISO" in user.roles))
  }

  predicate CanUserDecideStep(chain: Chain, step: Step, user: User) {
    && user.isActive && chain.status == Pending && step.status == PENDING
    && !SelfApproving(chain.policy, user)
    && (chain.policy.mode == SEQUENTIAL ==>
          FirstPending(chain.steps).Some? && chain.steps[FirstPending(chain.steps).value].id == step.id)
    && Entitled(step, user)
  }

  predicate Blank(text: string) {
    forall k :: 0 <= k < |text| ==> text[k] in {' ', '\t', '\n', '\r'}
  }

  predicate HasComment(r: Request) { r.comments.Some? && !Blank(r.comments.value) }

  // ---------------------------------------------------------------------
  // Deciding a step
  // ---------------------------------------------------------------------

  function Ceil(x: real): int { -((-x).Floor) }

  /** The number of steps that make up a percentage of them, rounded up. */
  function Quota(percentage: real, total: nat): int { Ceil(percentage / 100.0 * total as real) }

  datatype Verdict = Verdict(approved: bool, rejected: bool)

  /** The quorum branches, with the counts each branch looks at. */
  function Evaluate(policy: Policy, steps: seq<Step>): Verdict {
    Tally(policy, Count(steps, APPROVED), Count(steps, REJECTED), Count(steps, PENDING), |steps|)
  }

  function Tally(policy: Policy, approved: nat, rejected: nat, pending: nat, total: nat): Verdict {
    if policy.mode == ANY_ONE then
      Verdict(approved >= 1, pending == 0 && approved == 0)
    else if policy.mode == N_OF_M && policy.quorumCount.Some? && policy.quorumCount.value != 0 then
      Verdict(approved >= policy.quorumCount.value, total - rejected < policy.quorumCount.value)
    else if policy.mode == PERCENTAGE_QUORUM && policy.quorumPercentage.Some?
            && policy.quorumPercentage.value != 0.0 then
      var required := Quota(policy.quorumPercentage.value, total);
      Verdict(approved >= required, total - rejected < required)
    else if policy.mode == MAJORITY then
      var majority := total / 2 + 1;
      Verdict(approved >= majority, rejected >= majority || approved + pending < majority)
    else
      Verdict(approved == total, rejected >= 1)
  }

  function Settle(chain: Chain, now: int): Chain {
    var v := Evaluate(chain.policy, chain.steps);
    if v.approved || v.rejected
    then chain.(status := if v.approved then Approved else Rejected, completedAt := Some(now))
    else chain
  }

  function Signed(step: Step, r: Request, env: Env): Step {
    var s := step.(status := r.decision, decidedBy := Some(r.user.id), decidedAt := Some(env.now),
                  comments := r.comments);
    if r.decision == DELEGATED && r.delegate.Some? && r.delegate.value != "" then
      var to := r.delegate.value;
      var d := s.(delegatedTo := Some(to), history := s.history + [Delegation(r.user.id, to, env.now, r.comments)]);
      if to in env.users then d.(approver := Some(to), status := PENDING) else d
    else s
  }

  function Refusal(chain: Chain, r: Request): Option<Error> {
    match FindStep(chain.steps, r.stepId)
    case None => Some(StepNotFound)
    case Some(k) =>
      if chain.steps[k].status != PENDING then Some(AlreadyProcessed)
      else if SelfApproving(chain.policy, r.user) then Some(SelfApproval)
      else if r.decision == REJECTED && chain.policy.commentsMandatoryOnReject && !HasComment(r)
      then Some(CommentRequired)
      else if r.decision == DELEGATED && !chain.policy.allowDelegation then Some(DelegationNotAllowed)
      else if !CanUserDecideStep(chain, chain.steps[k], r.user) then Some(NotAuthorized)
      else None
  }

  function Decide(chain: Chain, r: Request, env: Env): Result<Chain, Error> {
    match Refusal(chain, r)
    case Some(e) => Err(e)
    case None =>
      var k := FindStep(chain.steps, r.stepId).value;
      Ok(Settle(chain.(steps := chain.steps[k := Signed(chain.steps[k], r, env)]), env.now))
  }

  // ---------------------------------------------------------------------
  // Reapproval
  // ---------------------------------------------------------------------

  const PROTECTED_FIELDS: set<string> :=
    {"technicalSeverity", "confidentiality", "businessImpact", "affectedAssetIds", "riskScore"}

  predicate Material(modified: seq<string>) {
    exists k :: 0 <= k < |modified| && modified[k] in PROTECTED_FIELDS
  }

  function Reset(step: Step, note: string): Step {
    if step.reapproveOnChange
    then step.(status := PENDING, decidedAt := None, decidedBy := None, comments := Some(note))
    else step
  }

  function ResetAll(steps: seq<Step>, note: string): (r: seq<Step>)
    ensures |r| == |steps|
  {
    seq(|steps|, k requires 0 <= k < |steps| => Reset(steps[k], note))
  }

  function Reopen(chain: Chain, modified: seq<string>, note: string): Chain {
    if chain.status == Approved && Material(modified)
    then chain.(status := Pending, completedAt := None, steps := ResetAll(chain.steps, note))
    else chain
  }

  /** The mutable chain of the source. */
  class ApprovalChain {
    const policy: Policy
    var status: ChainStatus
    var completedAt: Option<int>
    var steps: seq<Step>

    constructor (policy: Policy, steps: seq<Step>)
      ensures View() == Chain(policy, Pending, None, steps)
    {
      this.policy := policy;
      this.status := Pending;
      this.completedAt := None;
      this.steps := steps;
    }

    function View(): Chain
      reads this
    {
      Chain(policy, status, completedAt, steps)
    }

    /** Either refuses and changes nothing, or signs one step and settles the chain. */
    method SubmitDecision(r: Request, env: Env) returns (error: Option<Error>)
      modifies this
      ensures error.Some? ==> Decide(old(View()), r, env) == Err(error.value) && View() == old(View())
      ensures error.None? ==> Decide(old(View()), r, env) == Ok(View())
    {
      var found := FindStep(steps, r.stepId);
      if found.None? { return Some(StepNotFound); }
      var k := found.value;
      var step := steps[k];
      if step.status != PENDING { return Some(AlreadyProcessed); }
      if SelfApproving(policy, r.user) { return Some(SelfApproval); }
      if r.decision == REJECTED && policy.commentsMandatoryOnReject && !HasComment(r) { return Some(CommentRequired); }
      if r.decision == DELEGATED && !policy.allowDelegation { return Some(DelegationNotAllowed); }
      if !CanUserDecideStep(View(), step, r.user) { return Some(NotAuthorized); }

      step := step.(status := r.decision, decidedBy := Some(r.user.id), decidedAt := Some(env.now),
                   comments := r.comments);
      if r.decision == DELEGATED && r.delegate.Some? && r.delegate.value != "" {
        var to := r.delegate.value;
        step := step.(delegatedTo := Some(to),
                     history := step.history + [Delegation(r.user.id, to, env.now, r.comments)]);
        if to in env.users { step := step.(approver := Some(to), status := PENDING); }
      }
      steps := steps[k := step];

      var verdict := Evaluate(policy, steps);
      if verdict.approved || verdict.rejected {
        status := if verdict.approved then Approved else Rejected;
        completedAt := Some(env.now);
      }
      return None;
    }

    method TriggerReapproval(modified: seq<string>, note: string)
      modifies this
      ensures View() == Reopen(old(View()), modified, note)
    {
      if status == Rejected { return; }
      if Material(modified) && status == Approved {
        status := Pending;
        completedAt := None;
        var k := 0;
        while k < |steps|
          invariant 0 <= k <= |steps| == |old(steps)|
          invariant status == Pending && completedAt == None
          invariant forall j :: 0 <= j < |steps| ==>
                      steps[j] == if j < k then Reset(old(steps)[j], note) else old(steps)[j]
        {
          if steps[k].reapproveOnChange {
            steps := steps[k := steps[k].(status := PENDING, decidedAt := None, decidedBy := None,
                                              comments := Some(note))];
          }
          k := k + 1;
        }
        assert steps == ResetAll(old(steps), note);
      }
    }
  }

  // ---------------------------------------------------------------------
  // Who may decide what, and what is recorded
  // ---------------------------------------------------------------------

  /** The request decides the k-th step: it is the first with the id and open, the user is active, entitled and, where
      the policy says so, not the requester; earlier steps of a sequential chain are decided, a mandatory comment has
      some text, and a delegation is allowed. */
  ghost predicate DecidesAt(chain: Chain, r: Request, k: nat) {
    && k < |chain.steps| && chain.steps[k].id == r.stepId
    && (forall j :: 0 <= j < k ==> chain.steps[j].id != r.stepId)
    && chain.status == Pending && chain.steps[k].status == PENDING && r.user.isActive
    && (chain.policy.preventSelfApproval ==> chain.policy.requesterId != Some(r.user.id))
    && (chain.policy.mode == SEQUENTIAL ==> forall j :: 0 <= j < k ==> chain.steps[j].status != PENDING)
    && (r.decision == REJECTED && chain.policy.commentsMandatoryOnReject ==>
          r.comments.Some? && exists c :: c in r.comments.value && c !in {' ', '\t', '\n', '\r'})
    && (r.decision == DELEGATED ==> chain.policy.allowDelegation)
    && var s := chain.steps[k];
       || s.approver == Some(r.user.id)
       || r.user.id in s.candidates
       || exists role :: role in r.user.roles &&
                           (s.requiredRole == Some(role) || (role in {"PLATFORM_ADMIN", "CISO"} && !s.requesterManager))
  }

  lemma EntitledIs(s: Step, user: User)
    ensures Entitled(s, user) <==>
            || s.approver == Some(user.id)
            || user.id in s.candidates
            || exists role ::
                 && role in user.roles
                 && (s.requiredRole == Some(role) || (role in {"PLATFORM_ADMIN", "CISO"} && !s.requesterManager))
  {}

  lemma HasCommentIs(r: Request)
    ensures HasComment(r) <==>
            r.comments.Some? && exists c :: c in r.comments.value && c !in {' ', '\t', '\n', '\r'}
  {
    if HasComment(r) {
      var text := r.comments.value;
      var k :| 0 <= k < |text| && text[k] !in {' ', '\t', '\n', '\r'};
      assert text[k] in text;
    }
  }

  lemma FirstPendingIs(chain: Chain, k: nat)
    requires k < |chain.steps| && chain.steps[k].status == PENDING
    requires forall j :: 0 <= j < k ==> chain.steps[j].id != chain.steps[k].id
    ensures FirstPending(chain.steps).Some?
    ensures chain.steps[FirstPending(chain.steps).value].id == chain.steps[k].id <==>
            forall j :: 0 <= j < k ==> chain.steps[j].status != PENDING
  {
    var f := FirstPending(chain.steps);
    assert f.Some? && f.value <= k;
    hide FirstPending;
  }

  /** A decision is accepted exactly when it decides a step. */
  lemma AcceptedExactly(chain: Chain, r: Request, env: Env)
    ensures Decide(chain, r, env).Ok? <==> exists k :: DecidesAt(chain, r, k)
    ensures Decide(chain, r, env).Ok? ==>
              FindStep(chain.steps, r.stepId).Some? && DecidesAt(chain, r, FindStep(chain.steps, r.stepId).value)
  {
    var f := FindStep(chain.steps, r.stepId);
    if f.Some? {
      EntitledIs(chain.steps[f.value], r.user);
      HasCommentIs(r);
      if chain.steps[f.value].status == PENDING { FirstPendingIs(chain, f.value); }
      hide Entitled, HasComment, FirstPending, FindStep, Settle, Signed;
      assert Decide(chain, r, env).Ok? <==> DecidesAt(chain, r, f.value);
      assert forall k: nat :: DecidesAt(chain, r, k) ==> k == f.value;
    }
  }

  /** The first objection that applies is the one reported. */
  lemma RefusedExactly(chain: Chain, r: Request, env: Env)
    requires Decide(chain, r, env).Err?
    ensures var steps, e := chain.steps, Decide(chain, r, env).error;
            var k := FindStep(steps, r.stepId);
            var processed := k.Some? && steps[k.value].status != PENDING;
            var own := chain.policy.preventSelfApproval && chain.policy.requesterId == Some(r.user.id);
            var silent := r.decision == REJECTED && chain.policy.commentsMandatoryOnReject && !HasComment(r);
            var handsOn := r.decision == DELEGATED && !chain.policy.allowDelegation;
            && (e == StepNotFound <==> forall j :: 0 <= j < |steps| ==> steps[j].id != r.stepId)
            && (e == AlreadyProcessed <==> processed)
            && (e == SelfApproval <==> k.Some? && !processed && own)
            && (e == CommentRequired <==> k.Some? && !processed && !own && silent)
            && (e == DelegationNotAllowed <==> k.Some? && !processed && !own && !silent && handsOn)
            && (e == NotAuthorized <==> k.Some? && !processed && !own && !silent && !handsOn)
  {
    hide HasComment, Settle, Signed, Entitled, FirstPending;
  }

  /** An accepted decision is recorded on its step alone: who, when and why, and a delegation with its history; one to a
      known user makes that user the approver of a step that stays open. */
  lemma DecisionIsRecorded(chain: Chain, r: Request, env: Env)
    requires Decide(chain, r, env).Ok?
    ensures var c, k := Decide(chain, r, env).value, FindStep(chain.steps, r.stepId);
            && k.Some? && |c.steps| == |chain.steps| && c.policy == chain.policy
            && (forall j :: 0 <= j < |c.steps| && j != k.value ==> c.steps[j] == chain.steps[j])
            && var s, t := chain.steps[k.value], c.steps[k.value];
               var handed := r.decision == DELEGATED && r.delegate.Some? && r.delegate.value != "";
               var known := handed && r.delegate.value in env.users;
               && t.decidedBy == Some(r.user.id) && t.decidedAt == Some(env.now) && t.comments == r.comments
               && t.status == (if known then PENDING else r.decision)
               && t.approver == (if known then r.delegate else s.approver)
               && t.delegatedTo == (if handed then r.delegate else s.delegatedTo)
               && t.history == (if handed
                                then s.history + [Delegation(r.user.id, r.delegate.value, env.now, r.comments)]
                                else s.history)
               && t.id == s.id && t.requiredRole == s.requiredRole && t.requesterManager == s.requesterManager
               && t.candidates == s.candidates && t.reapproveOnChange == s.reapproveOnChange
  {
    hide Entitled, HasComment, FirstPending, Evaluate;
  }

  /** The chain settles exactly when the quorum decides, at the time of the decision. */
  lemma DecisionSettles(chain: Chain, r: Request, env: Env)
    requires Decide(chain, r, env).Ok?
    ensures var c := Decide(chain, r, env).value;
            var v := Evaluate(c.policy, c.steps);
            && c.status == (if v.approved then Approved else if v.rejected then Rejected else Pending)
            && c.completedAt == (if v.approved || v.rejected then Some(env.now) else chain.completedAt)
  {
    hide Entitled, HasComment, FirstPending, Evaluate, Signed;
  }

  /** A material change of an approved chain reopens it and every reapprovable step; anything else changes nothing. */
  lemma ReopensExactly(chain: Chain, modified: seq<string>, note: string)
    ensures var c := Reopen(chain, modified, note);
            var material := exists f :: f in modified && f in {"technicalSeverity", "confidentiality", "businessImpact",
                                                               "affectedAssetIds", "riskScore"};
            if chain.status != Approved || !material then c == chain
            else
              && c.policy == chain.policy && c.status == Pending && c.completedAt == None && |c.steps| == |chain.steps|
              && forall k :: 0 <= k < |c.steps| ==>
                   c.steps[k] == if chain.steps[k].reapproveOnChange
                                 then chain.steps[k].(status := PENDING, decidedAt := None, decidedBy := None,
                                                      comments := Some(note))
                                 else chain.steps[k]
  {
    if f :| f in modified && f in PROTECTED_FIELDS {
      var k :| 0 <= k < |modified| && modified[k] == f;
      assert Material(modified);
    }
  }

  // ---------------------------------------------------------------------
  // One threshold rule behind every mode
  // ---------------------------------------------------------------------

  function Threshold(policy: Policy, n: nat): int {
    match policy.mode
    case ANY_ONE => 1
    case MAJORITY => n / 2 + 1
    case N_OF_M => if policy.quorumCount.Some? && policy.quorumCount.value != 0 then policy.quorumCount.value else n
    case PERCENTAGE_QUORUM =>
      if policy.quorumPercentage.Some? && policy.quorumPercentage.value != 0.0
      then Quota(policy.quorumPercentage.value, n) else n
    case _ => n
  }

  /** Only open, approved and rejected steps. */
  predicate Plain(steps: seq<Step>) {
    forall k :: 0 <= k < |steps| ==> steps[k].status in {PENDING, APPROVED, REJECTED}
  }

  lemma CeilIsLeast(x: real, n: int)
    ensures n >= Ceil(x) <==> n as real >= x
  {}

  lemma QuotaIsLeast(p: real, total: nat, n: int)
    ensures n >= Quota(p, total) <==> n as real * 100.0 >= p * total as real
  {
    CeilIsLeast(p / 100.0 * total as real, n);
    assert p / 100.0 * total as real * 100.0 == p * total as real;
    hide Ceil;
  }

  /** A percentage asks for at least that share of all steps. */
  lemma PercentageMeans(policy: Policy, steps: seq<Step>, q: real)
    requires policy.mode == PERCENTAGE_QUORUM && policy.quorumPercentage == Some(q) && q != 0.0
    ensures var v, n := Evaluate(policy, steps), |steps|;
            && (v.approved <==> Count(steps, APPROVED) as real * 100.0 >= q * n as real)
            && (v.rejected <==> (n - Count(steps, REJECTED)) as real * 100.0 < q * n as real)
  {
    QuotaIsLeast(q, |steps|, Count(steps, APPROVED));
    QuotaIsLeast(q, |steps|, |steps| - Count(steps, REJECTED));
    hide Quota, Count;
  }

  /** What every other mode asks, over the approvals, rejections and open steps. */
  lemma QuorumMeans(policy: Policy, steps: seq<Step>)
    ensures var v := Evaluate(policy, steps);
            var n, a, r, p := |steps|, Count(steps, APPROVED), Count(steps, REJECTED), Count(steps, PENDING);
            match policy.mode
            case ANY_ONE => (v.approved <==> a > 0) && (v.rejected <==> a + p == 0)
            case MAJORITY => (v.approved <==> 2 * a > n) && (v.rejected <==> 2 * r > n || 2 * (a + p) <= n)
            case N_OF_M =>
              var q := if policy.quorumCount.Some? then policy.quorumCount.value else 0;
              if q != 0 then (v.approved <==> a >= q) && (v.rejected <==> n - r < q)
              else (v.approved <==> a == n) && (v.rejected <==> r > 0)
            case PERCENTAGE_QUORUM =>
              policy.quorumPercentage in {None, Some(0.0)} ==> (v.approved <==> a == n) && (v.rejected <==> r > 0)
            case _ => (v.approved <==> a == n) && (v.rejected <==> r > 0)
  {
    hide Quota, Count;
  }

  lemma {:induction false} CountsAddUp(steps: seq<Step>)
    ensures Count(steps, APPROVED) + Count(steps, REJECTED) + Count(steps, PENDING) <= |steps|
    ensures Plain(steps) <==> Count(steps, APPROVED) + Count(steps, REJECTED) + Count(steps, PENDING) == |steps|
  {
    if steps != [] {
      CountsAddUp(steps[1..]);
      assert Plain(steps) <==> steps[0].status in {PENDING, APPROVED, REJECTED} && Plain(steps[1..]) by {
        if steps[0].status in {PENDING, APPROVED, REJECTED} && Plain(steps[1..]) {
          forall k | 0 <= k < |steps| ensures steps[k].status in {PENDING, APPROVED, REJECTED} {
            if k > 0 { assert steps[k] == steps[1..][k - 1]; }
          }
        }
      }
    }
  }

  lemma TallyRule(policy: Policy, a: nat, r: nat, p: nat, n: nat)
    requires a + r + p == n
    ensures Tally(policy, a, r, p, n).approved <==> a >= Threshold(policy, n)
    ensures Tally(policy, a, r, p, n).rejected <==> a + p < Threshold(policy, n)
  {
    hide Quota;
    assert n - r == a + p;
  }

  /** On plain chains every mode approves at its threshold and rejects once the threshold is out of reach. */
  lemma ThresholdRule(policy: Policy, steps: seq<Step>)
    requires Plain(steps)
    ensures Evaluate(policy, steps).approved <==> Count(steps, APPROVED) >= Threshold(policy, |steps|)
    ensures Evaluate(policy, steps).rejected <==>
              Count(steps, APPROVED) + Count(steps, PENDING) < Threshold(policy, |steps|)
  {
    CountsAddUp(steps);
    TallyRule(policy, Count(steps, APPROVED), Count(steps, REJECTED), Count(steps, PENDING), |steps|);
  }

  /** Whatever the statuses of the steps, no chain is approved and rejected at once. */
  lemma NeverBoth(policy: Policy, steps: seq<Step>)
    ensures !(Evaluate(policy, steps).approved && Evaluate(policy, steps).rejected)
  {
    CountsAddUp(steps);
  }

  /** Every open step has been approved or rejected, and the others are as before. */
  predicate Completes(steps: seq<Step>, t: seq<Step>) {
    && |t| == |steps|
    && forall k :: 0 <= k < |steps| ==>
         if steps[k].status == PENDING then t[k].status in {APPROVED, REJECTED} else t[k] == steps[k]
  }

  lemma {:induction false} CompletionCounts(steps: seq<Step>, t: seq<Step>)
    requires Plain(steps) && Completes(steps, t)
    ensures Plain(t) && Count(t, PENDING) == 0
    ensures Count(steps, APPROVED) <= Count(t, APPROVED) <= Count(steps, APPROVED) + Count(steps, PENDING)
  {
    if steps != [] {
      CompletionCounts(steps[1..], t[1..]);
      assert t == [t[0]] + t[1..];
    }
  }

  /** The completion in which every open step is decided alike. */
  function Fill(steps: seq<Step>, d: Decision): seq<Step> {
    if steps == [] then []
    else [if steps[0].status == PENDING then steps[0].(status := d) else steps[0]] + Fill(steps[1..], d)
  }

  lemma {:induction false} FillCompletes(steps: seq<Step>, d: Decision)
    requires d in {APPROVED, REJECTED}
    ensures Completes(steps, Fill(steps, d))
    ensures Count(Fill(steps, d), APPROVED)
            == Count(steps, APPROVED) + (if d == APPROVED then Count(steps, PENDING) else 0)
  {
    if steps != [] {
      FillCompletes(steps[1..], d);
      assert Fill(steps, d)[1..] == Fill(steps[1..], d);
    }
  }

  lemma CompletionVerdict(policy: Policy, steps: seq<Step>, t: seq<Step>)
    requires Plain(steps) && Completes(steps, t)
    ensures Evaluate(policy, steps).approved ==> Evaluate(policy, t).approved
    ensures Evaluate(policy, steps).rejected ==> Evaluate(policy, t).rejected
    ensures Evaluate(policy, t).approved != Evaluate(policy, t).rejected
  {
    CompletionCounts(steps, t);
    ThresholdRule(policy, steps);
    ThresholdRule(policy, t);
    hide Evaluate, Threshold, Count;
  }

  /** A chain settles exactly when every way of deciding its open steps gives the same verdict. */
  lemma SettlesWhenForced(policy: Policy, steps: seq<Step>)
    requires Plain(steps)
    ensures Evaluate(policy, steps).approved <==> forall t :: Completes(steps, t) ==> Evaluate(policy, t).approved
    ensures Evaluate(policy, steps).rejected <==> forall t :: Completes(steps, t) ==> Evaluate(policy, t).rejected
  {
    var no, yes := Fill(steps, REJECTED), Fill(steps, APPROVED);
    FillCompletes(steps, REJECTED);
    FillCompletes(steps, APPROVED);
    CompletionCounts(steps, no);
    CompletionCounts(steps, yes);
    ThresholdRule(policy, steps);
    ThresholdRule(policy, no);
    ThresholdRule(policy, yes);
    hide Evaluate, Threshold, Count, Completes, Fill;
    forall t | Completes(steps, t)
      ensures Evaluate(policy, steps).approved ==> Evaluate(policy, t).approved
      ensures Evaluate(policy, steps).rejected ==> Evaluate(policy, t).rejected
    {
      CompletionVerdict(policy, steps, t);
    }
  }

  // ---------------------------------------------------------------------
  // Ballots
  // ---------------------------------------------------------------------

  /** Casts votes one after the other; a refused vote changes nothing. */
  function Cast(chain: Chain, votes: seq<Request>, env: Env): Chain
    decreases |votes|
  {
    if votes == [] then chain
    else
      var next := match Decide(chain, votes[0], env) case Ok(c) => c case Err(_) => chain;
      Cast(next, votes[1..], env)
  }

  /** How many of the votes carry the decision. */
  function Answers(votes: seq<Request>, d: Decision): nat {
    if votes == [] then 0 else (if votes[0].decision == d then 1 else 0) + Answers(votes[1..], d)
  }

  /** The decision closes its step: it is not handed on to a user the directory knows. */
  predicate Final(r: Request, env: Env) {
    && r.decision != PENDING
    && !(r.decision == DELEGATED && r.delegate.Some? && r.delegate.value != "" && r.delegate.value in env.users)
  }

  /** A final answer that would be accepted on its own open step. */
  predicate Fits(chain: Chain, r: Request, env: Env) {
    && Final(r, env)
    && r.user.isActive && !SelfApproving(chain.policy, r.user)
    && (r.decision == REJECTED && chain.policy.commentsMandatoryOnReject ==> HasComment(r))
    && (r.decision == DELEGATED ==> chain.policy.allowDelegation)
    && match FindStep(chain.steps, r.stepId)
       case None => false
       case Some(k) => chain.steps[k].status == PENDING && Entitled(chain.steps[k], r.user)
  }

  /** One fitting answer, of any kind, for every open step of an open, non-sequential chain. */
  predicate FinalBallot(chain: Chain, votes: seq<Request>, env: Env) {
    && chain.status == Pending && chain.policy.mode != SEQUENTIAL
    && |votes| == Count(chain.steps, PENDING)
    && (forall i :: 0 <= i < |votes| ==> Fits(chain, votes[i], env))
    && (forall i, j :: 0 <= i < j < |votes| ==> votes[i].stepId != votes[j].stepId)
  }

  /** A full ballot of approvals and rejections on a plain chain. */
  predicate FullBallot(chain: Chain, votes: seq<Request>, env: Env) {
    && FinalBallot(chain, votes, env) && Plain(chain.steps)
    && forall i :: 0 <= i < |votes| ==> votes[i].decision in {APPROVED, REJECTED}
  }

  lemma {:induction false} CountUpdate(steps: seq<Step>, k: nat, s: Step, d: Decision)
    requires k < |steps|
    ensures Count(steps[k := s], d)
            == Count(steps, d) - (if steps[k].status == d then 1 else 0) + (if s.status == d then 1 else 0)
  {
    if k == 0 {
      assert steps[0 := s][1..] == steps[1..];
    } else {
      assert steps[k := s][1..] == steps[1..][k - 1 := s];
      CountUpdate(steps[1..], k - 1, s, d);
    }
  }

  lemma {:induction false} FindAfterUpdate(steps: seq<Step>, k: nat, s: Step, id: string)
    requires k < |steps| && s.id == steps[k].id
    ensures FindStep(steps[k := s], id) == FindStep(steps, id)
  {
    if k == 0 {
      assert steps[0 := s][1..] == steps[1..];
    } else {
      assert steps[k := s][1..] == steps[1..][k - 1 := s];
      FindAfterUpdate(steps[1..], k - 1, s, id);
    }
  }

  lemma {:induction false} SettledStays(chain: Chain, votes: seq<Request>, env: Env)
    requires chain.status != Pending
    ensures Cast(chain, votes, env) == chain
  {
    if votes != [] {
      SettledStays(chain, votes[1..], env);
    }
  }

  /** The chain with the request's step signed, before it is settled. */
  function Voted(chain: Chain, r: Request, env: Env): Chain
    requires FindStep(chain.steps, r.stepId).Some?
  {
    var k := FindStep(chain.steps, r.stepId).value;
    chain.(steps := chain.steps[k := Signed(chain.steps[k], r, env)])
  }

  /** A fitting answer is accepted and moves exactly one step from open to its decision. */
  lemma VoteCounts(chain: Chain, r: Request, env: Env)
    requires chain.status == Pending && chain.policy.mode != SEQUENTIAL && Fits(chain, r, env)
    ensures Decide(chain, r, env) == Ok(Settle(Voted(chain, r, env), env.now))
    ensures forall d :: Count(Voted(chain, r, env).steps, d)
                        == Count(chain.steps, d) + (if r.decision == d then 1 else 0) - (if d == PENDING then 1 else 0)
  {
    var k := FindStep(chain.steps, r.stepId).value;
    var s := Signed(chain.steps[k], r, env);
    hide Signed, Evaluate, Final;
    forall d ensures Count(chain.steps[k := s], d)
                     == Count(chain.steps, d) + (if r.decision == d then 1 else 0) - (if d == PENDING then 1 else 0)
    {
      CountUpdate(chain.steps, k, s, d);
    }
  }

  lemma BallotShrinks(chain: Chain, votes: seq<Request>, env: Env)
    requires FinalBallot(chain, votes, env) && votes != []
    requires Decide(chain, votes[0], env).Ok? && Decide(chain, votes[0], env).value.status == Pending
    ensures FinalBallot(Decide(chain, votes[0], env).value, votes[1..], env)
  {
    assert Fits(chain, votes[0], env);
    VoteCounts(chain, votes[0], env);
    var c := Decide(chain, votes[0], env).value;
    forall i | 0 <= i < |votes[1..]| ensures Fits(c, votes[1..][i], env) {
      assert votes[1..][i] == votes[i + 1];
      FitsLater(chain, votes[0], votes[i + 1], env);
    }
    hide Evaluate, Voted, Decide, Fits, Count;
  }

  lemma FitsLater(chain: Chain, r: Request, v: Request, env: Env)
    requires Fits(chain, r, env) && Fits(chain, v, env) && r.stepId != v.stepId
    ensures Fits(Settle(Voted(chain, r, env), env.now), v, env)
  {
    var k := FindStep(chain.steps, r.stepId).value;
    hide Signed, Evaluate, Final, Entitled, HasComment;
    FindAfterUpdate(chain.steps, k, Signed(chain.steps[k], r, env), v.stepId);
  }

  /** What has been reached is not lost by closing further steps. */
  lemma TallyStays(policy: Policy, a: nat, r: nat, p: nat, n: nat, a2: nat, r2: nat, p2: nat)
    requires a <= a2 && r <= r2 && a2 + p2 <= a + p && a2 + r2 + p2 <= n
    ensures Tally(policy, a, r, p, n).approved ==> Tally(policy, a2, r2, p2, n).approved
    ensures Tally(policy, a, r, p, n).rejected ==> Tally(policy, a2, r2, p2, n).rejected
  {
    hide Quota;
  }

  /** The modes that count what can still be approved as everything not rejected. */
  predicate CountsUndecided(policy: Policy) { policy.mode != ANY_ONE && policy.mode != MAJORITY }

  /** How a chain of n steps ends when all have been answered, a of them with an approval and r with a rejection. */
  function Ending(policy: Policy, n: nat, a: nat, r: nat): ChainStatus {
    if a >= Threshold(policy, n) then Approved
    else if !CountsUndecided(policy) || n - r < Threshold(policy, n) then Rejected
    else Pending
  }

  lemma TallyAtEnd(policy: Policy, a: nat, r: nat, n: nat)
    requires a + r <= n
    ensures var v := Tally(policy, a, r, 0, n);
            Ending(policy, n, a, r) == if v.approved then Approved else if v.rejected then Rejected else Pending
    ensures !(Tally(policy, a, r, 0, n).approved && Tally(policy, a, r, 0, n).rejected)
  {
    hide Quota;
  }

  lemma {:induction false} AnswersBound(votes: seq<Request>)
    ensures Answers(votes, APPROVED) + Answers(votes, REJECTED) <= |votes|
  {
    if votes != [] { AnswersBound(votes[1..]); }
  }

  /** Pending, with nothing left to decide. */
  predicate Stuck(chain: Chain) { chain.status == Pending && Count(chain.steps, PENDING) == 0 }

  /** How the chain ends when the answers are added to what has been decided. */
  function Outlook(chain: Chain, votes: seq<Request>): ChainStatus {
    Ending(chain.policy, |chain.steps|, Count(chain.steps, APPROVED) + Answers(votes, APPROVED),
           Count(chain.steps, REJECTED) + Answers(votes, REJECTED))
  }

  /** A chain that settles with some answers still to come has settled as it would have ended. */
  lemma EarlyIsFinal(chain: Chain, rest: seq<Request>, now: int)
    requires chain.status == Pending && |rest| == Count(chain.steps, PENDING)
    ensures Settle(chain, now).status != Pending || rest == [] ==> Settle(chain, now).status == Outlook(chain, rest)
  {
    var n, x, y := |chain.steps|, Count(chain.steps, APPROVED), Count(chain.steps, REJECTED);
    var a, r := Answers(rest, APPROVED), Answers(rest, REJECTED);
    AnswersBound(rest);
    CountsAddUp(chain.steps);
    hide Tally, Ending, Count, Answers;
    TallyStays(chain.policy, x, y, |rest|, n, x + a, y + r, 0);
    TallyAtEnd(chain.policy, x + a, y + r, n);
  }

  lemma OutlookStays(chain: Chain, votes: seq<Request>, env: Env)
    requires FinalBallot(chain, votes, env) && votes != []
    ensures Decide(chain, votes[0], env) == Ok(Settle(Voted(chain, votes[0], env), env.now))
    ensures Outlook(Voted(chain, votes[0], env), votes[1..]) == Outlook(chain, votes)
    ensures Count(Voted(chain, votes[0], env).steps, PENDING) == |votes| - 1
  {
    assert Fits(chain, votes[0], env);
    VoteCounts(chain, votes[0], env);
    hide Ending, Decide, Signed, Fits, Evaluate, Threshold, Count;
  }

  /** However a full ballot of final answers is ordered, the numbers of its approvals and rejections decide the chain:
      it is approved when they reach the threshold, rejected when the threshold is out of reach, and stuck otherwise. */
  lemma {:induction false} AnswersDecide(chain: Chain, votes: seq<Request>, env: Env)
    requires FinalBallot(chain, votes, env) && votes != []
    ensures Cast(chain, votes, env).status == Outlook(chain, votes)
    ensures Outlook(chain, votes) == Pending ==> Stuck(Cast(chain, votes, env))
    decreases |votes|
  {
    OutlookStays(chain, votes, env);
    var voted := Voted(chain, votes[0], env);
    var c := Settle(voted, env.now);
    assert voted.status == Pending;
    hide Decide, Outlook, FinalBallot, Settle, Voted, Count;
    EarlyIsFinal(voted, votes[1..], env.now);
    if c.status != Pending {
      SettledStays(c, votes[1..], env);
    } else if votes[1..] != [] {
      BallotShrinks(chain, votes, env);
      AnswersDecide(c, votes[1..], env);
    }
  }

  /** Approvals and rejections always settle a plain chain, by the number of approvals alone. */
  lemma BallotDecides(chain: Chain, votes: seq<Request>, env: Env)
    requires FullBallot(chain, votes, env) && votes != []
    ensures Cast(chain, votes, env).status
            == if Count(chain.steps, APPROVED) + Answers(votes, APPROVED) >= Threshold(chain.policy, |chain.steps|)
               then Approved else Rejected
  {
    AnswersDecide(chain, votes, env);
    CountsAddUp(chain.steps);
    PlainAnswers(votes);
    hide Threshold, Count, Cast, Answers;
  }

  lemma {:induction false} PlainAnswers(votes: seq<Request>)
    requires forall i :: 0 <= i < |votes| ==> votes[i].decision in {APPROVED, REJECTED}
    ensures Answers(votes, APPROVED) + Answers(votes, REJECTED) == |votes|
  {
    if votes != [] { PlainAnswers(votes[1..]); }
  }

  lemma {:induction false} AnswersRemove(votes: seq<Request>, k: nat, d: Decision)
    requires k < |votes|
    ensures Answers(votes, d) == (if votes[k].decision == d then 1 else 0) + Answers(RemoveAt(votes, k), d)
  {
    var rest := RemoveAt(votes, k);
    if k == 0 {
      assert rest == votes[1..];
    } else {
      AnswersRemove(votes[1..], k - 1, d);
      assert rest[1..] == votes[1..][..k - 1] + votes[1..][k..];
    }
  }

  lemma {:induction false} AnswersPermute(v: seq<Request>, w: seq<Request>, d: Decision)
    requires multiset(v) == multiset(w)
    ensures Answers(v, d) == Answers(w, d)
    decreases |v|
  {
    if v == [] {
      assert |multiset(w)| == 0;
    } else {
      hide Answers;
      SameElements(v, w);
      assert v[0] in v;
      var k :| 0 <= k < |w| && w[k] == v[0];
      var rest := RemoveAt(w, k);
      Peel(v, w, k);
      AnswersRemove(v, 0, d);
      AnswersRemove(w, k, d);
      AnswersPermute(v[1..], rest, d);
    }
  }

  /** The order of final answers does not matter; approvals and rejections settle a plain chain in every order. */
  lemma OrderIndependence(chain: Chain, v: seq<Request>, w: seq<Request>, env: Env)
    requires FinalBallot(chain, v, env) && FinalBallot(chain, w, env) && v != [] && multiset(v) == multiset(w)
    ensures Cast(chain, v, env).status == Cast(chain, w, env).status
    ensures FullBallot(chain, v, env) ==> Cast(chain, v, env).status != Pending
  {
    assert |v| == |w| by { assert |multiset(v)| == |multiset(w)|; }
    AnswersPermute(v, w, APPROVED);
    AnswersPermute(v, w, REJECTED);
    hide FinalBallot, Cast, Count, Answers, Ending;
    AnswersDecide(chain, v, env);
    AnswersDecide(chain, w, env);
    if FullBallot(chain, v, env) { BallotDecides(chain, v, env); }
  }

  // ---------------------------------------------------------------------
  // Sequential chains
  // ---------------------------------------------------------------------

  /** The first m steps are decided, all later ones are open. */
  predicate DecidedPrefix(steps: seq<Step>, m: nat) {
    m <= |steps| && forall k :: 0 <= k < |steps| ==> (steps[k].status == PENDING <==> k >= m)
  }

  /** A sequential chain only ever decides its first open step and leaves the others alone. */
  lemma SequentialDecidesFirst(chain: Chain, r: Request, env: Env)
    requires chain.policy.mode == SEQUENTIAL && Decide(chain, r, env).Ok?
    ensures FirstPending(chain.steps).Some?
    ensures var k := FirstPending(chain.steps).value;
            Decide(chain, r, env).value.steps == chain.steps[k := Signed(chain.steps[k], r, env)]
  {
    var j := FindStep(chain.steps, r.stepId).value;
    var k := FirstPending(chain.steps).value;
    assert k == j;
  }

  /** Over any run of requests of any kind, the decided steps of a sequential chain form a prefix. */
  lemma {:induction false} SequentialPrefix(chain: Chain, requests: seq<Request>, env: Env, m: nat) returns (n: nat)
    requires chain.policy.mode == SEQUENTIAL && DecidedPrefix(chain.steps, m)
    ensures m <= n && DecidedPrefix(Cast(chain, requests, env).steps, n)
    decreases |requests|
  {
    if requests == [] { return m; }
    var d := Decide(chain, requests[0], env);
    if d.Err? {
      n := SequentialPrefix(chain, requests[1..], env, m);
    } else {
      SequentialDecidesFirst(chain, requests[0], env);
      var k := FirstPending(chain.steps).value;
      assert m <= k && chain.steps[m].status == PENDING;
      assert k == m;
      hide Evaluate, Signed;
      var next := if d.value.steps[m].status == PENDING then m else m + 1;
      n := SequentialPrefix(d.value, requests[1..], env, next);
    }
  }

  // ---------------------------------------------------------------------
  // Chains that can no longer move
  // ---------------------------------------------------------------------

  /** Without an open step every request is refused, for good. */
  lemma {:induction false} NothingOpenIsForever(chain: Chain, requests: seq<Request>, env: Env)
    requires Count(chain.steps, PENDING) == 0
    ensures Cast(chain, requests, env) == chain
  {
    if requests != [] {
      var found := FindStep(chain.steps, requests[0].stepId);
      if found.Some? { CountPositive(chain.steps, found.value); }
      assert Decide(chain, requests[0], env).Err?;
      NothingOpenIsForever(chain, requests[1..], env);
    }
  }

  lemma {:induction false} CountPositive(steps: seq<Step>, k: nat)
    requires k < |steps|
    ensures Count(steps, steps[k].status) > 0
  {
    if k > 0 { CountPositive(steps[1..], k - 1); }
  }

  /** With nothing open, a chain stays unsettled exactly when the steps left neither approved nor
      rejected would still be enough for a mode that counts them. */
  lemma StuckExactly(policy: Policy, steps: seq<Step>)
    requires Count(steps, PENDING) == 0
    ensures var v := Evaluate(policy, steps);
            var a, r := Count(steps, APPROVED), Count(steps, REJECTED);
            !v.approved && !v.rejected
            <==> CountsUndecided(policy) && a < Threshold(policy, |steps|) <= |steps| - r
  {
    CountsAddUp(steps);
    TallyAtEnd(policy, Count(steps, APPROVED), Count(steps, REJECTED), |steps|);
    hide Quota, Count, Tally, Threshold;
  }

  lemma AcceptedCounts(chain: Chain, r: Request, env: Env)
    requires Decide(chain, r, env).Ok?
    ensures chain.status == Pending && Count(chain.steps, PENDING) >= 1
    ensures var c := Decide(chain, r, env).value;
            && FindStep(chain.steps, r.stepId).Some?
            && c == Settle(Voted(chain, r, env), env.now)
            && forall d :: Count(c.steps, d) == Count(chain.steps, d) - (if d == PENDING then 1 else 0)
                                                + (if d == (if Final(r, env)
                                                                  then r.decision else PENDING) then 1 else 0)
  {
    var k := FindStep(chain.steps, r.stepId).value;
    var s := Signed(chain.steps[k], r, env);
    CountPositive(chain.steps, k);
    hide Signed, Evaluate, Final;
    forall d ensures Count(chain.steps[k := s], d) == Count(chain.steps, d) - (if d == PENDING then 1 else 0)
                                                      + (if d == s.status then 1 else 0)
    {
      CountUpdate(chain.steps, k, s, d);
    }
  }

  /** Would this request, once accepted, leave the chain pending with nothing to decide? It must close the last open
      step, and the undecided steps must then still be enough for a mode that counts them. */
  predicate Sticks(chain: Chain, r: Request, env: Env) {
    var t, n := Threshold(chain.policy, |chain.steps|), |chain.steps|;
    && Final(r, env) && Count(chain.steps, PENDING) == 1 && CountsUndecided(chain.policy)
    && Count(chain.steps, APPROVED) + (if r.decision == APPROVED then 1 else 0) < t
    && t <= n - Count(chain.steps, REJECTED) - (if r.decision == REJECTED then 1 else 0)
  }

  /** An accepted decision leaves the chain stuck exactly when the chain before it says so, and what is stuck stays so
      whatever is requested later. */
  lemma StuckForeverExactly(chain: Chain, r: Request, env: Env)
    requires Decide(chain, r, env).Ok?
    ensures Stuck(Decide(chain, r, env).value) <==> Sticks(chain, r, env)
    ensures Stuck(Decide(chain, r, env).value) ==>
              var c := Decide(chain, r, env).value;
              forall requests, later :: Cast(c, requests, later) == c
  {
    var c := Decide(chain, r, env).value;
    AcceptedCounts(chain, r, env);
    assert c.policy == chain.policy && |c.steps| == |chain.steps|;
    hide Evaluate, Threshold, Count, Signed, CountsUndecided, Decide, FindStep;
    if Count(c.steps, PENDING) == 0 {
      StuckExactly(c.policy, c.steps);
      forall requests, later ensures Cast(c, requests, later) == c { NothingOpenIsForever(c, requests, later); }
    }
  }

  lemma CountOne(step: Step, d: Decision)
    ensures Count([step], d) == if step.status == d then 1 else 0
  {
    assert [step][1..] == [];
    assert Count([], d) == 0;
  }

  /** Any final answer other than an approval or a rejection sticks on a chain of one step that all must approve. */
  lemma OneStepSticks(step: Step, r: Request, env: Env)
    requires step.status == PENDING && step.approver == Some(r.user.id) && r.user.isActive && r.stepId == step.id
    requires Final(r, env) && r.decision != APPROVED && r.decision != REJECTED
    ensures var chain := Chain(Policy(ALL, None, None, None, false, false, true), Pending, None, [step]);
            Decide(chain, r, env).Ok? && Stuck(Decide(chain, r, env).value)
  {
    var chain := Chain(Policy(ALL, None, None, None, false, false, true), Pending, None, [step]);
    assert FindStep(chain.steps, r.stepId) == Some(0);
    assert Refusal(chain, r).None?;
    CountOne(step, PENDING);
    CountOne(step, APPROVED);
    CountOne(step, REJECTED);
    StuckForeverExactly(chain, r, env);
  }

  /** Asking for changes on the only step of a chain leaves it pending with nothing to decide. */
  lemma ChangesRequestedCanStick(env: Env)
    ensures var step := Step("s", None, false, {}, Some("u"), true, PENDING, None, None, None, None, []);
            var chain := Chain(Policy(ALL, None, None, None, false, false, true), Pending, None, [step]);
            var r := Request("s", CHANGES_REQUESTED, User("u", true, {}), None, None);
            Decide(chain, r, env).Ok? && Stuck(Decide(chain, r, env).value)
  {
    var step := Step("s", None, false, {}, Some("u"), true, PENDING, None, None, None, None, []);
    OneStepSticks(step, Request("s", CHANGES_REQUESTED, User("u", true, {}), None, None), env);
  }

  /** So does handing it to somebody the directory does not know. */
  lemma DelegationCanStick(env: Env, stranger: string)
    requires stranger !in env.users
    ensures var step := Step("s", None, false, {}, Some("u"), true, PENDING, None, None, None, None, []);
            var chain := Chain(Policy(ALL, None, None, None, false, false, true), Pending, None, [step]);
            var r := Request("s", DELEGATED, User("u", true, {}), None, Some(stranger));
            Decide(chain, r, env).Ok? && Stuck(Decide(chain, r, env).value)
  {
    var step := Step("s", None, false, {}, Some("u"), true, PENDING, None, None, None, None, []);
    OneStepSticks(step, Request("s", DELEGATED, User("u", true, {}), None, Some(stranger)), env);
  }

  // ---------------------------------------------------------------------
  // Reapproval undoes a ballot
  // ---------------------------------------------------------------------

  function WithoutComments(chain: Chain): Chain {
    chain.(steps := seq(|chain.steps|, k requires 0 <= k < |chain.steps| => chain.steps[k].(comments := None)))
  }

  predicate Fresh(step: Step) {
    step.status == PENDING && step.decidedBy.None? && step.decidedAt.None? && step.reapproveOnChange
  }

  /** Same step apart from the fields a plain decision writes. */
  predicate SameRole(s: Step, t: Step) {
    s.(status := PENDING, decidedBy := None, decidedAt := None, comments := None)
    == t.(status := PENDING, decidedBy := None, decidedAt := None, comments := None)
  }

  lemma {:induction false} CastKeepsRoles(chain: Chain, votes: seq<Request>, env: Env)
    requires forall i :: 0 <= i < |votes| ==> votes[i].decision in {APPROVED, REJECTED}
    ensures var c := Cast(chain, votes, env);
            && c.policy == chain.policy && |c.steps| == |chain.steps|
            && forall k :: 0 <= k < |c.steps| ==> SameRole(c.steps[k], chain.steps[k])
    decreases |votes|
  {
    if votes != [] {
      var d := Decide(chain, votes[0], env);
      CastKeepsRoles(if d.Ok? then d.value else chain, votes[1..], env);
    }
  }

  /** After any plain votes that approve a fresh chain, a material change brings the start back. */
  lemma ReapprovalRestoresStart(chain: Chain, votes: seq<Request>, env: Env, modified: seq<string>, note: string)
    requires chain.status == Pending && chain.completedAt.None?
    requires forall k :: 0 <= k < |chain.steps| ==> Fresh(chain.steps[k])
    requires forall i :: 0 <= i < |votes| ==> votes[i].decision in {APPROVED, REJECTED}
    requires Cast(chain, votes, env).status == Approved && Material(modified)
    ensures WithoutComments(Reopen(Cast(chain, votes, env), modified, note)) == WithoutComments(chain)
  {
    CastKeepsRoles(chain, votes, env);
    var c := Cast(chain, votes, env);
    var r := Reopen(c, modified, note);
    forall k | 0 <= k < |chain.steps|
      ensures r.steps[k].(comments := None) == chain.steps[k].(comments := None)
    {
      assert SameRole(c.steps[k], chain.steps[k]) && Fresh(chain.steps[k]);
    }
    assert WithoutComments(r).steps == WithoutComments(chain).steps;
  }

  lemma {:induction false} CountZero(steps: seq<Step>, d: Decision)
    ensures Count(steps, d) == 0 <==> forall k :: 0 <= k < |steps| ==> steps[k].status != d
  {
    if steps != [] {
      CountZero(steps[1..], d);
      if forall k :: 0 <= k < |steps[1..]| ==> steps[1..][k].status != d {
        assert forall k :: 1 <= k < |steps| ==> steps[k] == steps[1..][k - 1];
      }
      assert forall k :: 0 <= k < |steps[1..]| ==> steps[1..][k] == steps[k + 1];
    }
  }

  /** A reopened chain has nothing to decide exactly when no step was open and none is reapprovable. */
  lemma ReopenedStuckExactly(chain: Chain, modified: seq<string>, note: string)
    requires chain.status == Approved && Material(modified)
    ensures Reopen(chain, modified, note).status == Pending
    ensures Count(Reopen(chain, modified, note).steps, PENDING) == 0
            <==> forall k :: 0 <= k < |chain.steps| ==>
                 !chain.steps[k].reapproveOnChange && chain.steps[k].status != PENDING
  {
    var r := Reopen(chain, modified, note);
    CountZero(r.steps, PENDING);
    assert forall k :: 0 <= k < |chain.steps| ==>
      (r.steps[k].status != PENDING <==> !chain.steps[k].reapproveOnChange && chain.steps[k].status != PENDING);
  }
}
