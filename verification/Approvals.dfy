/**
 What one approval buys: counting proposals, approved requests and faults over whole runs of the
 remediation lifecycle, what planning and rejecting do to a proposal, and which analyses are
 proposed at all.
 */
module Approvals {
  import opened Options
  import opened Sorting
  import opened CausalChain
  import opened Grounding
  import opened Remediation

  // -------------------------------------------------------------- at most once

  /** The step sends an approved live request. */
  predicate Dispatches(s: State, step: Step) { step.Approve? && Next(s, step) != s }

  /** The step puts a playbook up for approval. */
  predicate Proposes(s: State, step: Step) {
    step.Correlate? && step.record.rest.Some? &&
    (step.record.rest.value.status == PENDING || Decide(s.policy, step.record.confidence) == PendingApproval)
  }

  /** Both writes of an approval are lost, or the agent answers with the router's own status and that
      is stored. */
  predicate Faulty(step: Step) {
    (step.Approve? && !step.ok1 && !step.ok2)
    || ((step.Approve? || step.Plan? || step.Correlate?) && step.ok2 && step.reply.Answer? && step.reply.status == PENDING)
  }

  function Count(b: bool): nat { if b then 1 else 0 }

  function Dispatched(s: State, steps: seq<Step>): nat {
    if steps == [] then 0
    else var n := |steps| - 1; Dispatched(s, steps[..n]) + Count(Dispatches(Run(s, steps[..n]), steps[n]))
  }

  function Proposed(s: State, steps: seq<Step>): nat {
    if steps == [] then 0
    else var n := |steps| - 1; Proposed(s, steps[..n]) + Count(Proposes(Run(s, steps[..n]), steps[n]))
  }

  function Faults(steps: seq<Step>): nat {
    if steps == [] then 0 else var n := |steps| - 1; Faults(steps[..n]) + Count(Faulty(steps[n]))
  }

  lemma {:induction false} LaunchSettles(s: State, c: Case, pb: Playbook, svc: string, dryRun: bool, reply: Reply, ok1: bool, ok2: bool)
    requires ok1 || ok2
    requires !(ok2 && reply.Answer? && reply.status == PENDING)
    ensures !IsPending(Launch(s, c, pb, svc, dryRun, reply, ok1, ok2).stored)
  {
    StatusesDiffer();
  }

  lemma {:induction false} StatusesDiffer()
    ensures PENDING !in {SUPPRESSED, SUGGESTED, REJECTED, EXECUTING, FAILED}
  {
    assert PENDING[0] == 'P' && SUPPRESSED[0] == 'S' && SUGGESTED[0] == 'S';
    assert REJECTED[0] == 'R' && EXECUTING[0] == 'E' && FAILED[0] == 'F';
  }

  lemma {:induction false} ApproveSpends(s: State, step: Step)
    requires step.Approve?
    ensures Count(Dispatches(s, step)) + Count(IsPending(Next(s, step).stored)) <= Count(IsPending(s.stored)) + Count(Faulty(step))
  {
    if Dispatches(s, step) && !Faulty(step) {
      var c := s.stored.value;
      LaunchSettles(s, c, c.rest.value.(approved := Some(Signature(step.who, step.at))), Primary(c.chain, step.services), false, step.reply, step.ok1, step.ok2);
    }
  }

  /** An approved request leaves its proposal open exactly when the step is faulty. */
  lemma {:induction false} FaultsAreExact(s: State, step: Step)
    requires Dispatches(s, step)
    ensures IsPending(Next(s, step).stored) <==> Faulty(step)
  {
    StatusesDiffer();
  }

  lemma {:induction false} CorrelateSpends(s: State, step: Step)
    requires step.Correlate?
    ensures Count(IsPending(Next(s, step).stored)) <= Count(IsPending(s.stored)) + Count(Proposes(s, step)) + Count(Faulty(step))
  {
    StatusesDiffer();
    hide SUPPRESSED, SUGGESTED, REJECTED, EXECUTING, FAILED, PENDING;
  }

  /** Approvals are spent: a step sends a request or leaves one open only at some cost. */
  lemma {:induction false} StepSpends(s: State, step: Step)
    ensures Count(Dispatches(s, step)) + Count(IsPending(Next(s, step).stored)) <=
      Count(IsPending(s.stored)) + Count(Proposes(s, step)) + Count(Faulty(step))
  {
    match step
    case Approve(_, _, _, _, _, _, _) => ApproveSpends(s, step);
    case Correlate(_, _, _, _, _, _) => CorrelateSpends(s, step);
    case _ => StatusesDiffer();
  }

  /** Conservation over every run: approved requests never outnumber proposals, but for faults. */
  lemma {:induction false} ApprovalsAreSpent(s: State, steps: seq<Step>)
    ensures Dispatched(s, steps) + Count(IsPending(Run(s, steps).stored)) <=
      Count(IsPending(s.stored)) + Proposed(s, steps) + Faults(steps)
  {
    hide Next, IsPending, Dispatches, Proposes, Faulty, Count;
    if steps != [] {
      var n := |steps| - 1;
      ApprovalsAreSpent(s, steps[..n]);
      StepSpends(Run(s, steps[..n]), steps[n]);
    }
  }

  /** A recorded rejection names who rejected, and no live request follows without a fresh proposal. */
  lemma {:induction false} RejectionIsFinal(s: State, reject: Step, later: seq<Step>)
    requires IsPending(s.stored) && reject.Reject? && reject.who != "" && reject.ok1
    requires Proposed(Next(s, reject), later) == 0 && Faults(later) == 0
    ensures var c := Next(s, reject).stored;
      c.Some? && c.value.rest.Some? && c.value.rest.value.status == "REJECTED"
      && c.value.rest.value.rejected == Some(Signature(reject.who, reject.at))
    ensures Dispatched(Next(s, reject), later) == 0
  {
    StatusesDiffer();
    ApprovalsAreSpent(Next(s, reject), later);
  }

  lemma {:induction false} CountedDispatch(s: State, steps: seq<Step>, k: nat)
    requires k < |steps| && Dispatches(Run(s, steps[..k]), steps[k])
    ensures Dispatched(s, steps) >= 1
  {
    hide Run, Dispatches;
    var n := |steps| - 1;
    if k < n {
      assert steps[..n][..k] == steps[..k] && steps[..n][k] == steps[k];
      CountedDispatch(s, steps[..n], k);
    }
  }

  lemma {:induction false} SomeProposal(s: State, steps: seq<Step>) returns (k: nat)
    requires Proposed(s, steps) > 0
    ensures k < |steps| && Proposes(Run(s, steps[..k]), steps[k])
  {
    hide Run, Proposes;
    var n := |steps| - 1;
    if Proposes(Run(s, steps[..n]), steps[n]) {
      k := n;
    } else {
      k := SomeProposal(s, steps[..n]);
      assert steps[..n][..k] == steps[..k] && steps[..n][k] == steps[k];
    }
  }

  /** Between two approved requests of a faultless run there is a fresh proposal. */
  lemma {:induction false} AtMostOncePerProposal(s: State, steps: seq<Step>) returns (k: nat)
    requires |steps| >= 2 && Faults(steps) == 0
    requires Dispatches(s, steps[0]) && Dispatches(Run(s, steps[..|steps| - 1]), steps[|steps| - 1])
    ensures 0 < k < |steps| - 1 && Proposes(Run(s, steps[..k]), steps[k])
  {
    var n := |steps| - 1;
    assert Run(s, steps[..n][..0]) == s && steps[..n][0] == steps[0];
    CountedDispatch(s, steps[..n], 0);
    ApprovalsAreSpent(s, steps);
    hide Run, Next, IsPending;
    k := SomeProposal(s, steps);
    assert steps[k].Correlate? && steps[0].Approve? && steps[n].Approve?;
  }

  lemma {:induction false} RunTwo(s: State, a: Step, b: Step)
    ensures Run(s, [a]) == Next(s, a) && Run(s, [a, b]) == Next(Next(s, a), b)
    ensures Dispatched(s, [a, b]) == Count(Dispatches(s, a)) + Count(Dispatches(Next(s, a), b))
    ensures Proposed(s, [a, b]) == Count(Proposes(s, a)) + Count(Proposes(Next(s, a), b))
    ensures Faults([a, b]) == Count(Faulty(a)) + Count(Faulty(b))
  {
    hide Next, Dispatches, Proposes, Faulty, Count;
    var none: seq<Step> := [];
    assert [a, b][..1] == [a] && [a][..0] == none;
    assert Dispatched(s, none) == 0 && Proposed(s, none) == 0 && Faults(none) == 0 && Run(s, none) == s;
    assert Dispatched(s, [a]) == Count(Dispatches(s, a));
    assert Proposed(s, [a]) == Count(Proposes(s, a));
    assert Faults([a]) == Count(Faulty(a));
  }

  /** Each kind of fault is enough for a second live request under one proposal. */
  lemma {:induction false} FaultsRepeatRequests(s: State, first: Step, second: Step)
    requires IsPending(s.stored) && AllowsExecution(s.policy)
    requires first.Approve? && first.authorised && first.who != "" && Faulty(first)
    requires second.Approve? && second.authorised && second.who != "" && !Faulty(second)
    ensures Dispatched(s, [first, second]) == 2 && Proposed(s, [first, second]) == 0 && Faults([first, second]) == 1
  {
    RunTwo(s, first, second);
    LogGrows(s, first);
    LogGrows(Next(s, first), second);
    hide Run, Dispatched, Proposed, Faults;
    assert IsPending(Next(s, first).stored);
  }

  lemma {:induction false} LogGrows(s: State, step: Step)
    requires IsPending(s.stored) && AllowsExecution(s.policy) && step.Approve? && step.authorised && step.who != ""
    ensures |Next(s, step).log| == |s.log| + 3 && Next(s, step).policy == s.policy && Dispatches(s, step)
  {
  }

  /** Asking for a plan of a pending playbook withdraws the proposal, exactly unless the write is lost
      or the agent echoes the status; and a later approval has an effect exactly when the proposal is
      still there, the policy allows it and the approver is named and authorised. */
  lemma {:induction false} PlanningWithdrawsTheProposal(s: State, plan: Step, approve: Step)
    requires IsPending(s.stored) && plan.Plan? && approve.Approve?
    ensures IsPending(Next(s, plan).stored) <==> !plan.ok2 || Faulty(plan)
    ensures Dispatches(Next(s, plan), approve) <==> (!plan.ok2 || Faulty(plan)) && MayApprove(s.policy, approve)
  {
    PlanSettles(s, plan);
    hide IsPending, Faulty;
    if IsPending(Next(s, plan).stored) && MayApprove(s.policy, approve) { LogGrows(Next(s, plan), approve); }
  }

  predicate MayApprove(p: Policy, step: Step)
    requires step.Approve?
  {
    AllowsExecution(p) && step.who != "" && step.authorised
  }

  lemma {:induction false} PlanSettles(s: State, plan: Step)
    requires IsPending(s.stored) && plan.Plan?
    ensures IsPending(Next(s, plan).stored) <==> !plan.ok2 || Faulty(plan)
    ensures Next(s, plan).policy == s.policy
  {
    StatusesDiffer();
  }

  // -------------------------------------------------------------- end to end

  predicate Quiet(d: Decision) { d == Suppressed || d == Suggested }

  /** Pruning blocks action whatever confidence is claimed, exactly for thresholds above the ceiling. */
  lemma {:induction false} PrunedStaysQuiet(p: Policy, raw: Case, known: set<string>, norm: string -> string)
    requires known != {} && !AllGrounded(raw.chain, known, norm)
    ensures (forall c: real :: Quiet(Decide(p, Ground(raw.(confidence := c), known, norm).confidence)))
      <==> (p.mode == Off || p.threshold > 0.4)
  {
    hide Ground, AllGrounded;
    if p.mode == Off || p.threshold > CEILING {
      forall c: real ensures Quiet(Decide(p, Ground(raw.(confidence := c), known, norm).confidence)) {
        PrunedIsCapped(raw.(confidence := c), known, norm);
      }
    } else {
      var sure := raw.(confidence := 1.0);
      ReachesCeiling(sure, known, norm);
      assert !Quiet(Decide(p, Ground(raw.(confidence := 1.0), known, norm).confidence));
    }
  }

  lemma {:induction false} ReachesCeiling(raw: Case, known: set<string>, norm: string -> string)
    requires known != {} && !AllGrounded(raw.chain, known, norm) && raw.confidence == 1.0
    ensures Ground(raw, known, norm).confidence == CEILING
  {
    KeptSpec(raw.chain, known, norm);
    hide Kept, AllGrounded;
  }

  predicate NothingPosted(log: seq<Event>, from: nat) { forall n :: from <= n < |log| ==> !log[n].Posted? }

  /** A correlation whose analysis lost a link sends nothing and puts nothing up for approval. */
  lemma {:induction false} PrunedNeverActs(s: State, raw: Case, e: Evidence, norm: string -> string,
      reply: Reply, ok0: bool, ok1: bool, ok2: bool)
    requires Known(e, norm) != {} && !AllGrounded(raw.chain, Known(e, norm), norm)
    requires raw.rest.Some? ==> raw.rest.value.status == SUGGESTED
    requires s.policy.threshold > 0.4
    ensures var s' := Next(s, Correlate(Ground(raw, Known(e, norm), norm), e.services, reply, ok0, ok1, ok2));
      NothingPosted(s'.log, |s.log|) && (IsPending(s'.stored) ==> s'.stored == s.stored)
  {
    hide Known, AllGrounded;
    var g := Ground(raw, Known(e, norm), norm);
    PrunedIsCapped(raw, Known(e, norm), norm);
    assert g.rest == raw.rest;
    hide Ground, Target;
    StatusesDiffer();
    assert Quiet(Decide(s.policy, g.confidence));
    hide Decide;
  }

  /** Under the default policy the rule-based analysis is put up for approval exactly when some alert
      preceded an alert of a service that declares it as upstream; otherwise it is only suggested. */
  lemma {:induction false} RulesProposeOnEvidence(e: Evidence, sorted: seq<Alert>, norm: string -> string, pb: Option<Playbook>)
    requires SortOf(TimeLe, e.alerts, sorted)
    ensures var d := Decide(Policy(Manual, 0.7), Ground(RuleBased(sorted, e.deps, pb), Known(e, norm), norm).confidence);
      d == if exists u, v :: Qualifies(sorted, e.deps, u, v) then PendingApproval else Suggested
  {
    hide Ground, Known, ConfidenceOf, ChainOf, Qualifies, AllGrounded, SortOf;
    RuleBasedPasses(e, sorted, norm, pb);
    ConfidenceSteps(ChainOf(sorted, e.deps));
    ChainNonEmpty(sorted, e.deps);
  }
}
