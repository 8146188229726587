/**
 The remediation lifecycle of one incident: policy (shared/remediation/policy.go), router
 (correlation-service/internal/engine/automation_router.go), the human decisions as the handler
 makes them (correlation-service/internal/handler/playbook_handler.go), and the correlation that
 feeds it (correlation-service/internal/engine/correlator.go).  Calls are serial; the agent's
 replies, lost writes and policy changes are arbitrary.
 */
module Remediation {
  import opened Options
  import opened Sorting
  import opened CausalChain
  import opened Grounding

  datatype Mode = Off | PlanOnly | Manual | Auto | Unrecognised(name: string)
  datatype Policy = Policy(mode: Mode, threshold: real)
  datatype Decision = Suppressed | Suggested | DryRun | PendingApproval | Execute

  const SUPPRESSED := "SUPPRESSED"
  const SUGGESTED := "SUGGESTED"
  const PENDING := "PENDING_APPROVAL"
  const REJECTED := "REJECTED"
  const EXECUTING := "EXECUTING"
  const FAILED := "FAILED"

  function Decide(p: Policy, confidence: real): Decision {
    if p.mode == Off then Suppressed
    else if confidence < p.threshold then Suggested
    else if p.mode == PlanOnly then DryRun
    else if p.mode == Auto then Execute
    else PendingApproval
  }

  predicate AllowsExecution(p: Policy) { p.mode == Manual || p.mode == Auto }

  // -------------------------------------------------------------- records and history

  datatype Signature = Signature(who: string, at: int)
  datatype Playbook = Playbook(name: string, status: string, output: string, dryRun: bool,
    approved: Option<Signature>, rejected: Option<Signature>)
  /** An analysis and its playbook; the analyzer may leave the playbook out. */
  type Case = Analysis<Option<Playbook>>

  /** The agent's side of a dispatch: no usable answer, or its own account of what it did. */
  datatype Reply = NoAnswer(why: string) | Answer(status: string, output: string, dryRun: bool)

  /** What the outside world sees, in order. */
  datatype Event =
    | PolicySet(policy: Policy)
    | Saved(record: Case, ok: bool)
    | Posted(name: string, service: string, dryRun: bool)

  datatype State = State(policy: Policy, stored: Option<Case>, log: seq<Event>)

  predicate IsPending(c: Option<Case>) { c.Some? && c.value.rest.Some? && c.value.rest.value.status == PENDING }

  function Save(s: State, c: Case, ok: bool): State {
    State(s.policy, if ok then Some(c) else s.stored, s.log + [Saved(c, ok)])
  }

  function With(c: Case, pb: Playbook): Case { c.(rest := Some(pb)) }

  /** `updateStatus` after a dispatch. */
  function Outcome(pb: Playbook, reply: Reply): Playbook {
    match reply
    case NoAnswer(why) => pb.(status := FAILED, output := why)
    case Answer(status, output, dryRun) => pb.(status := status, output := output, dryRun := dryRun)
  }

  function Dispatch(s: State, c: Case, pb: Playbook, svc: string, dryRun: bool, reply: Reply, ok: bool): State {
    Save(s.(log := s.log + [Posted(pb.name, svc, dryRun)]), With(c, Outcome(pb, reply)), ok)
  }

  function Launch(s: State, c: Case, pb: Playbook, svc: string, dryRun: bool, reply: Reply, ok1: bool, ok2: bool): State {
    var launched := pb.(dryRun := dryRun, status := EXECUTING);
    Dispatch(Save(s, With(c, launched), ok1), c, launched, svc, dryRun, reply, ok2)
  }

  function RouteTo(s: State, c: Case, svc: string, reply: Reply, ok1: bool, ok2: bool): State {
    if c.rest.None? then s else
    var pb := c.rest.value;
    match Decide(s.policy, c.confidence)
    case Suppressed => Save(s, With(c, pb.(status := SUPPRESSED)), ok1)
    case Suggested => Save(s, With(c, pb.(status := SUGGESTED)), ok1)
    case PendingApproval => Save(s, With(c, pb.(status := PENDING)), ok1)
    case DryRun => Launch(s, c, pb, svc, true, reply, ok1, ok2)
    case Execute => Launch(s, c, pb, svc, false, reply, ok1, ok2)
  }

  function Target(chain: seq<Link>, services: seq<string>): string {
    if chain != [] then chain[0].from else if services != [] then services[0] else ""
  }

  /** `primaryService`, which the human decisions use: a blank head of the chain does not count. */
  function Primary(chain: seq<Link>, services: seq<string>): string {
    if chain != [] && chain[0].from != "" then chain[0].from else if services != [] then services[0] else ""
  }

  /** One serial call.  `ok0`, `ok1`, `ok2` say which of its writes reach the database. */
  datatype Step =
    | SetPolicy(policy: Policy)
    | Correlate(record: Case, services: seq<string>, reply: Reply, ok0: bool, ok1: bool, ok2: bool)
    | Approve(who: string, at: int, authorised: bool, services: seq<string>, reply: Reply, ok1: bool, ok2: bool)
    | Reject(who: string, at: int, reason: string, ok1: bool)
    | Plan(services: seq<string>, reply: Reply, ok2: bool)

  function Refusal(pb: Playbook, who: string, at: int, reason: string): Playbook {
    var out := if reason != "" then "Rejected: " + reason else pb.output;
    pb.(rejected := Some(Signature(who, at)), output := out, status := REJECTED)
  }

  function Next(s: State, step: Step): State {
    match step
    case SetPolicy(p) => State(p, s.stored, s.log + [PolicySet(p)])
    case Correlate(c, services, reply, ok0, ok1, ok2) =>
      var recorded := Save(s, c, ok0);
      if ok0 && Target(c.chain, services) != "" then RouteTo(recorded, c, Target(c.chain, services), reply, ok1, ok2) else recorded
    case Approve(who, at, authorised, services, reply, ok1, ok2) =>
      if IsPending(s.stored) && who != "" && authorised && AllowsExecution(s.policy) then
        var c := s.stored.value;
        Launch(s, c, c.rest.value.(approved := Some(Signature(who, at))), Primary(c.chain, services), false, reply, ok1, ok2)
      else s
    case Reject(who, at, reason, ok1) =>
      if IsPending(s.stored) && who != "" then
        var c := s.stored.value;
        Save(s, With(c, Refusal(c.rest.value, who, at, reason)), ok1)
      else s
    case Plan(services, reply, ok2) =>
      if s.stored.Some? && s.stored.value.rest.Some? then
        var c := s.stored.value;
        Dispatch(s, c, c.rest.value.(dryRun := true), Primary(c.chain, services), true, reply, ok2)
      else s
  }

  function Start(p: Policy): State { State(p, None, [PolicySet(p)]) }

  function Run(s: State, steps: seq<Step>): State {
    if steps == [] then s else Next(Run(s, steps[..|steps| - 1]), steps[|steps| - 1])
  }

  // -------------------------------------------------------------- the objects

  /** The router with the incident's row and the wire it writes to. */
  class AutomationRouter {
    var policy: Policy
    var stored: Option<Case>
    var log: seq<Event>

    function View(): State
      reads this
    {
      State(policy, stored, log)
    }

    constructor (p: Policy)
      ensures View() == Start(p)
    {
      policy, stored, log := p, None, [PolicySet(p)];
    }

    method Persist(c: Case, ok: bool)
      modifies this
      ensures View() == Save(old(View()), c, ok)
    {
      if ok {
        stored := Some(c);
      }
      log := log + [Saved(c, ok)];
    }

    method DispatchTo(c: Case, playbook: Playbook, svc: string, dryRun: bool, reply: Reply, ok: bool)
      modifies this
      ensures View() == Dispatch(old(View()), c, playbook, svc, dryRun, reply, ok)
    {
      log := log + [Posted(playbook.name, svc, dryRun)];
      var pb := playbook;
      match reply {
        case NoAnswer(why) =>
          pb := pb.(output := why, status := FAILED);
        case Answer(status, output, didNothing) =>
          pb := pb.(dryRun := didNothing);
          pb := pb.(output := output, status := status);
      }
      Persist(With(c, pb), ok);
    }

    method Route(c: Case, svc: string, reply: Reply, ok1: bool, ok2: bool)
      modifies this
      ensures View() == RouteTo(old(View()), c, svc, reply, ok1, ok2)
    {
      if c.rest.None? {
        return;
      }
      var playbook := c.rest.value;
      match Decide(policy, c.confidence) {
        case Suppressed => Persist(With(c, playbook.(status := SUPPRESSED)), ok1);
        case Suggested => Persist(With(c, playbook.(status := SUGGESTED)), ok1);
        case PendingApproval => Persist(With(c, playbook.(status := PENDING)), ok1);
        case DryRun =>
          playbook := playbook.(dryRun := true);
          playbook := playbook.(status := EXECUTING);
          Persist(With(c, playbook), ok1);
          DispatchTo(c, playbook, svc, true, reply, ok2);
        case Execute =>
          playbook := playbook.(dryRun := false);
          playbook := playbook.(status := EXECUTING);
          Persist(With(c, playbook), ok1);
          DispatchTo(c, playbook, svc, false, reply, ok2);
      }
    }

    method ApproveBy(who: string, at: int, authorised: bool, services: seq<string>, reply: Reply, ok1: bool, ok2: bool) returns (accepted: bool)
      modifies this
      ensures View() == Next(old(View()), Approve(who, at, authorised, services, reply, ok1, ok2))
      ensures accepted <==> View() != old(View())
    {
      accepted := false;
      if stored.None? || stored.value.rest.None? || who == "" || !authorised {
        return;
      }
      var c, playbook := stored.value, stored.value.rest.value;
      if playbook.status != PENDING || !AllowsExecution(policy) {
        return;
      }
      ghost var before := |log|;
      var service := if c.chain != [] && c.chain[0].from != "" then c.chain[0].from else if services != [] then services[0] else "";
      playbook := playbook.(approved := Some(Signature(who, at)));
      playbook := playbook.(dryRun := false);
      playbook := playbook.(status := EXECUTING);
      Persist(With(c, playbook), ok1);
      DispatchTo(c, playbook, service, false, reply, ok2);
      assert |log| == before + 3;
      accepted := true;
    }

    method RejectBy(who: string, at: int, reason: string, ok1: bool) returns (accepted: bool)
      modifies this
      ensures View() == Next(old(View()), Reject(who, at, reason, ok1))
      ensures accepted <==> IsPending(old(stored)) && who != ""
    {
      accepted := false;
      if stored.None? || stored.value.rest.None? || who == "" {
        return;
      }
      var c, playbook := stored.value, stored.value.rest.value;
      if playbook.status != PENDING {
        return;
      }
      playbook := playbook.(rejected := Some(Signature(who, at)));
      if reason != "" {
        playbook := playbook.(output := "Rejected: " + reason);
      }
      Persist(With(c, playbook.(status := REJECTED)), ok1);
      accepted := true;
    }

    method PlanNow(services: seq<string>, reply: Reply, ok2: bool)
      modifies this
      ensures View() == Next(old(View()), Plan(services, reply, ok2))
    {
      if stored.None? || stored.value.rest.None? {
        return;
      }
      DispatchTo(stored.value, stored.value.rest.value.(dryRun := true), Primary(stored.value.chain, services), true, reply, ok2);
    }

    /** `scheduleCausalAnalysis` from the analyzer's answer on: ground, record, route. */
    method CorrelateWith(raw: Case, e: Evidence, norm: string -> string, reply: Reply, ok0: bool, ok1: bool, ok2: bool)
      modifies this
      ensures View() == Next(old(View()), Correlate(Ground(raw, Known(e, norm), norm), e.services, reply, ok0, ok1, ok2))
    {
      var grounded, _ := GroundAnalysis(raw, e, norm);
      hide Ground, ReportSays, RouteTo;
      Persist(grounded, ok0);
      if !ok0 {
        return;
      }
      var target := "";
      if |grounded.chain| > 0 {
        target := grounded.chain[0].from;
      } else if |e.services| > 0 {
        target := e.services[0];
      }
      if target != "" {
        Route(grounded, target, reply, ok1, ok2);
      }
    }
  }

  /** `scheduleCausalAnalysis`: an analyzer that fails is replaced by the rules. */
  method CorrelateIncident(router: AutomationRouter, answer: Option<Case>, suggested: Option<Playbook>, e: Evidence,
      norm: string -> string, reply: Reply, ok0: bool, ok1: bool, ok2: bool) returns (ghost sorted: seq<Alert>)
    modifies router
    ensures SortOf(TimeLe, e.alerts, sorted)
    ensures answer.Some? ==>
      router.View() == Next(old(router.View()), Correlate(Ground(answer.value, Known(e, norm), norm), e.services, reply, ok0, ok1, ok2))
    ensures answer.None? ==>
      router.View() == Next(old(router.View()), Correlate(RuleBased(sorted, e.deps, suggested), e.services, reply, ok0, ok1, ok2))
  {
    hide Next, Ground, Known, SortOf;
    var chain;
    chain, sorted := BuildChain(e.alerts, e.deps);
    hide ChainOf, ConfidenceOf;
    if answer.Some? {
      router.CorrelateWith(answer.value, e, norm, reply, ok0, ok1, ok2);
    } else {
      var confidence := NoopConfidence(chain);
      RuleBasedPasses(e, sorted, norm, suggested);
      router.CorrelateWith(Analysis(chain, confidence, suggested), e, norm, reply, ok0, ok1, ok2);
    }
  }

  function RuleBased(sorted: seq<Alert>, deps: Deps, suggested: Option<Playbook>): Case {
    Analysis(ChainOf(sorted, deps), ConfidenceOf(ChainOf(sorted, deps)), suggested)
  }

  // -------------------------------------------------------------- what the history shows

  /** The policy in force and the stored record, read off the history alone. */
  ghost function PolicyAt(log: seq<Event>): Option<Policy> {
    if log == [] then None
    else if log[|log| - 1].PolicySet? then Some(log[|log| - 1].policy)
    else PolicyAt(log[..|log| - 1])
  }

  ghost function StoredAt(log: seq<Event>): Option<Case> {
    if log == [] then None
    else if log[|log| - 1].Saved? && log[|log| - 1].ok then Some(log[|log| - 1].record)
    else StoredAt(log[..|log| - 1])
  }

  /** A live request in view of everything before it: the write just before it says EXECUTING, not a
      dry run, and either the policy is auto and the confidence clears it, or the record then stored
      was awaiting approval and the write differs from it by a named approver. */
  ghost predicate Authorised(log: seq<Event>, name: string) {
    log != [] && log[|log| - 1].Saved? && PolicyAt(log).Some? &&
    var c := log[|log| - 1].record;
    var policy := PolicyAt(log).value;
    (policy.mode == Manual || policy.mode == Auto) && c.rest.Some? && c.rest.value.name == name
    && c.rest.value.status == EXECUTING && !c.rest.value.dryRun
    && (Cleared(policy, c) || ApprovalOf(StoredAt(log[..|log| - 1]), c))
  }

  predicate Cleared(p: Policy, c: Case) { p.mode == Auto && c.confidence >= p.threshold }

  predicate ApprovalOf(proposed: Option<Case>, c: Case) {
    IsPending(proposed) && c.rest.Some? && c.rest.value.approved.Some? && c.rest.value.approved.value.who != ""
    && c == With(proposed.value, proposed.value.rest.value.(approved := c.rest.value.approved, dryRun := false, status := EXECUTING))
  }

  ghost predicate SafeLog(log: seq<Event>) {
    forall n :: 0 <= n < |log| && log[n].Posted? && !log[n].dryRun ==> Authorised(log[..n], log[n].name)
  }

  ghost predicate Good(s: State) { PolicyAt(s.log) == Some(s.policy) && StoredAt(s.log) == s.stored && SafeLog(s.log) }

  lemma {:induction false} Snoc(log: seq<Event>, e: Event)
    ensures log + [e] != [] && (log + [e])[|log + [e]| - 1] == e && (log + [e])[..|log + [e]| - 1] == log
    ensures PolicyAt(log + [e]) == if e.PolicySet? then Some(e.policy) else PolicyAt(log)
    ensures StoredAt(log + [e]) == if e.Saved? && e.ok then Some(e.record) else StoredAt(log)
  {
    assert (log + [e])[..|log|] == log;
  }

  lemma {:induction false} SafeSnoc(log: seq<Event>, e: Event)
    requires SafeLog(log) && (e.Posted? && !e.dryRun ==> Authorised(log, e.name))
    ensures SafeLog(log + [e])
  {
    hide Authorised;
    var r := log + [e];
    forall n | 0 <= n < |r| && r[n].Posted? && !r[n].dryRun ensures Authorised(r[..n], r[n].name) {
      if n < |log| {
        assert r[..n] == log[..n] && r[n] == log[n];
      } else {
        assert r[..n] == log;
      }
    }
  }

  lemma {:induction false} SaveKeeps(s: State, c: Case, ok: bool)
    requires Good(s)
    ensures Good(Save(s, c, ok))
  {
    hide PolicyAt, StoredAt, SafeLog;
    Snoc(s.log, Saved(c, ok));
    SafeSnoc(s.log, Saved(c, ok));
  }

  lemma {:induction false} DispatchKeeps(s: State, c: Case, pb: Playbook, svc: string, dryRun: bool, reply: Reply, ok: bool)
    requires Good(s) && (!dryRun ==> Authorised(s.log, pb.name))
    ensures Good(Dispatch(s, c, pb, svc, dryRun, reply, ok))
  {
    hide PolicyAt, StoredAt, SafeLog, Authorised, Outcome;
    Snoc(s.log, Posted(pb.name, svc, dryRun));
    SafeSnoc(s.log, Posted(pb.name, svc, dryRun));
    SaveKeeps(s.(log := s.log + [Posted(pb.name, svc, dryRun)]), With(c, Outcome(pb, reply)), ok);
  }

  lemma {:induction false} LaunchKeeps(s: State, c: Case, pb: Playbook, svc: string, dryRun: bool, reply: Reply, ok1: bool, ok2: bool)
    requires Good(s)
    requires !dryRun ==> AllowsExecution(s.policy)
    requires !dryRun ==> Cleared(s.policy, c) || ApprovalOf(s.stored, With(c, pb.(dryRun := false, status := EXECUTING)))
    ensures Good(Launch(s, c, pb, svc, dryRun, reply, ok1, ok2))
  {
    hide PolicyAt, StoredAt, SafeLog, ApprovalOf, Outcome;
    var launched := pb.(dryRun := dryRun, status := EXECUTING);
    var saved := Save(s, With(c, launched), ok1);
    SaveKeeps(s, With(c, launched), ok1);
    Snoc(s.log, Saved(With(c, launched), ok1));
    assert !dryRun ==> Authorised(saved.log, pb.name);
    hide Authorised, Good, AllowsExecution;
    DispatchKeeps(saved, c, launched, svc, dryRun, reply, ok2);
  }

  lemma {:induction false} RouteKeeps(s: State, c: Case, svc: string, reply: Reply, ok1: bool, ok2: bool)
    requires Good(s)
    ensures Good(RouteTo(s, c, svc, reply, ok1, ok2))
  {
    hide Good, Save, Launch, ApprovalOf;
    if c.rest.Some? {
      var pb := c.rest.value;
      match Decide(s.policy, c.confidence)
      case Suppressed => SaveKeeps(s, With(c, pb.(status := SUPPRESSED)), ok1);
      case Suggested => SaveKeeps(s, With(c, pb.(status := SUGGESTED)), ok1);
      case PendingApproval => SaveKeeps(s, With(c, pb.(status := PENDING)), ok1);
      case DryRun => LaunchKeeps(s, c, pb, svc, true, reply, ok1, ok2);
      case Execute => LaunchKeeps(s, c, pb, svc, false, reply, ok1, ok2);
    }
  }

  lemma {:induction false} StepKeeps(s: State, step: Step)
    requires Good(s)
    ensures Good(Next(s, step))
  {
    match step
    case SetPolicy(p) =>
      Snoc(s.log, PolicySet(p));
      SafeSnoc(s.log, PolicySet(p));
    case Correlate(c, services, reply, ok0, ok1, ok2) =>
      hide Good, RouteTo, Target;
      SaveKeeps(s, c, ok0);
      RouteKeeps(Save(s, c, ok0), c, Target(c.chain, services), reply, ok1, ok2);
    case Approve(who, at, authorised, services, reply, ok1, ok2) =>
      hide Good, Launch;
      if IsPending(s.stored) && who != "" && authorised && AllowsExecution(s.policy) {
        var c := s.stored.value;
        LaunchKeeps(s, c, c.rest.value.(approved := Some(Signature(who, at))), Primary(c.chain, services), false, reply, ok1, ok2);
      }
    case Reject(who, at, reason, ok1) =>
      hide Good, Save, Refusal;
      if IsPending(s.stored) && who != "" {
        SaveKeeps(s, With(s.stored.value, Refusal(s.stored.value.rest.value, who, at, reason)), ok1);
      }
    case Plan(services, reply, ok2) =>
      hide Good, Dispatch;
      if s.stored.Some? && s.stored.value.rest.Some? {
        DispatchKeeps(s, s.stored.value, s.stored.value.rest.value.(dryRun := true), Primary(s.stored.value.chain, services), true, reply, ok2);
      }
  }

  lemma {:induction false} RunKeeps(p: Policy, steps: seq<Step>)
    ensures Good(Run(Start(p), steps))
  {
    if steps == [] {
      Snoc([], PolicySet(p));
      assert [] + [PolicySet(p)] == [PolicySet(p)];
    } else {
      hide Good, Next;
      RunKeeps(p, steps[..|steps| - 1]);
      StepKeeps(Run(Start(p), steps[..|steps| - 1]), steps[|steps| - 1]);
    }
  }

  /** In every run, every live request ever sent was authorised by the history before it. */
  lemma {:induction false} LiveRequestsAreAuthorised(p: Policy, steps: seq<Step>, n: nat)
    requires n < |Run(Start(p), steps).log|
    ensures var log := Run(Start(p), steps).log;
      log[n].Posted? && !log[n].dryRun ==> Authorised(log[..n], log[n].name)
  {
    hide Run, Authorised, PolicyAt, StoredAt;
    RunKeeps(p, steps);
  }

  /** Who approved a live request is on record when it is sent exactly if the write before it arrived;
      otherwise the record still awaits approval. */
  lemma {:induction false} ApproverIsOnRecord(log: seq<Event>, name: string)
    requires Authorised(log, name) && ApprovalOf(StoredAt(log[..|log| - 1]), log[|log| - 1].record)
    ensures StoredAt(log) == Some(log[|log| - 1].record) <==> log[|log| - 1].ok
    ensures IsPending(StoredAt(log)) <==> !log[|log| - 1].ok
  {
    Snoc(log[..|log| - 1], log[|log| - 1]);
    assert log[..|log| - 1] + [log[|log| - 1]] == log;
    assert PENDING[0] == 'P' && EXECUTING[0] == 'E';
    hide StoredAt, PolicyAt;
  }

  // -------------------------------------------------------- in plain terms

  /** What routing does, mode by mode: the record it tries to store, and whether it then asks the agent,
      about which service, for a plan or for the change itself. */
  lemma {:induction false} WhatRouteDoes(s: State, c: Case, svc: string, reply: Reply, ok1: bool, ok2: bool)
    requires c.rest.Some?
    ensures var pb := c.rest.value;
      var t := RouteTo(s, c, svc, reply, ok1, ok2);
      var enough := c.confidence >= s.policy.threshold;
      && (s.policy.mode == Off ==> t.log == s.log + [Saved(c.(rest := Some(pb.(status := "SUPPRESSED"))), ok1)])
      && (s.policy.mode != Off && !enough ==> t.log == s.log + [Saved(c.(rest := Some(pb.(status := "SUGGESTED"))), ok1)])
      && (s.policy.mode !in {Off, PlanOnly, Auto} && enough ==>
            t.log == s.log + [Saved(c.(rest := Some(pb.(status := "PENDING_APPROVAL"))), ok1)])
      && var plan := [Saved(c.(rest := Some(pb.(status := "EXECUTING", dryRun := true))), ok1), Posted(pb.name, svc, true)];
         var live := [Saved(c.(rest := Some(pb.(status := "EXECUTING", dryRun := false))), ok1), Posted(pb.name, svc, false)];
      && (s.policy.mode == PlanOnly && enough ==> |t.log| == |s.log| + 3 && t.log[..|s.log| + 2] == s.log + plan)
      && (s.policy.mode == Auto && enough ==> |t.log| == |s.log| + 3 && t.log[..|s.log| + 2] == s.log + live)
  {
    hide Outcome;
    var pb := c.rest.value;
    if s.policy.mode in {PlanOnly, Auto} && c.confidence >= s.policy.threshold {
      LaunchLog(s, c, pb, svc, s.policy.mode == PlanOnly, reply, ok1, ok2);
    }
  }

  lemma {:induction false} LaunchLog(s: State, c: Case, pb: Playbook, svc: string, dryRun: bool, reply: Reply, ok1: bool, ok2: bool)
    ensures var t := Launch(s, c, pb, svc, dryRun, reply, ok1, ok2);
      |t.log| == |s.log| + 3 && t.log[..|s.log| + 2] ==
        s.log + [Saved(c.(rest := Some(pb.(status := "EXECUTING", dryRun := dryRun))), ok1), Posted(pb.name, svc, dryRun)]
  {
  }

  /** After a request the last attempt to store says what the agent says; without a usable answer, FAILED
      and why. */
  lemma {:induction false} AgentHasTheLastWord(s: State, c: Case, pb: Playbook, svc: string, dryRun: bool, reply: Reply, ok: bool)
    ensures var t := Dispatch(s, c, pb, svc, dryRun, reply, ok);
      && |t.log| == |s.log| + 2 && t.log[|s.log|] == Posted(pb.name, svc, dryRun)
      && t.log[|s.log| + 1] == Saved(c.(rest := Some(
            if reply.Answer? then pb.(status := reply.status, output := reply.output, dryRun := reply.dryRun)
            else pb.(status := "FAILED", output := reply.why))), ok)
  {
  }

  /** Correlation routes to the head of the chain, or without a chain to the incident's first service;
      with a blank target, or a record that was not stored, it stops. */
  lemma {:induction false} WhereCorrelationRoutes(s: State, c: Case, services: seq<string>, reply: Reply, ok0: bool, ok1: bool, ok2: bool)
    ensures var t := Next(s, Correlate(c, services, reply, ok0, ok1, ok2));
      && (ok0 && c.chain != [] && c.chain[0].from != "" ==> t == RouteTo(Save(s, c, ok0), c, c.chain[0].from, reply, ok1, ok2))
      && (ok0 && c.chain == [] && services != [] && services[0] != "" ==>
            t == RouteTo(Save(s, c, ok0), c, services[0], reply, ok1, ok2))
      && (!ok0 || (c.chain != [] && c.chain[0].from == "") || (c.chain == [] && (services == [] || services[0] == "")) ==>
            t == Save(s, c, ok0))
  {
    hide RouteTo;
  }
}
