/**
 The cluster operator (action-service/internal/k8s/operator.go): which requests may change the
 cluster, and that a dry run reports the change a live run makes.  The outcome of every API call
 and the parsing of numbers are parameters.
 */
module Operator {
  import opened Options
  import opened Sorting
  import opened Remediation

  datatype Template = Template(spec: string, restartedAt: Option<int>)
  datatype Owner = Owner(kind: string, name: string, uid: string)
  datatype ReplicaSet = ReplicaSet(name: string, owners: seq<Owner>, revision: Option<string>, template: Template)
  /** `revision` is the annotation's text, "" when it is absent. */
  datatype Deployment = Deployment(name: string, uid: string, template: Template, replicas: Option<int>,
    revision: string, rolledBackFrom: Option<string>)

  type Place = (string, string)
  datatype Cluster = Cluster(deployments: map<Place, Deployment>, replicaSets: map<Place, seq<ReplicaSet>>)

  /** strconv: the value it returns, also on failure, and whether it succeeded. */
  datatype Parsed = Parsed(value: int, ok: bool)
  type Parser = string -> Parsed

  /** An update is acknowledged, or its answer is an error and it may have happened all the same. */
  datatype Write = Acknowledged | Lost(applied: bool)

  /** Which calls to the cluster succeed. */
  datatype Api = Api(read: bool, selector: bool, list: bool, write: Write)

  datatype Plan =
    | Unreachable
    | RollBack(from: int, to: int, source: ReplicaSet)
    | Restart(replicas: int)
    | Scale(from: int, to: int)
  datatype Result = Failed | Done(dryRun: bool, plan: Plan)

  datatype Candidate = Candidate(rs: ReplicaSet, revision: int)

  function Int32(x: int): int { (x + 0x8000_0000) % 0x1_0000_0000 - 0x8000_0000 }

  function Param(params: map<string, string>, key: string): string { if key in params then params[key] else "" }

  function Sets(c: Cluster, at: Place): seq<ReplicaSet> { if at in c.replicaSets then c.replicaSets[at] else [] }

  predicate IsCandidate(d: Deployment, sets: seq<ReplicaSet>, parse: Parser, c: Candidate) {
    c.rs in sets && Owner("Deployment", d.name, d.uid) in c.rs.owners
    && c.rs.revision.Some? && parse(c.rs.revision.value) == Parsed(c.revision, true)
  }

  /** What a rollback may choose: the revision asked for, or the newest one that is not current. */
  ghost predicate MayRestore(d: Deployment, sets: seq<ReplicaSet>, wanted: string, parse: Parser, c: Candidate) {
    IsCandidate(d, sets, parse, c) &&
    if wanted != "" then parse(wanted) == Parsed(c.revision, true)
    else c.revision != parse(d.revision).value && forall o :: IsCandidate(d, sets, parse, o) && o.revision > c.revision ==>
      o.revision == parse(d.revision).value
  }

  /** The plan the current cluster calls for. */
  ghost predicate Sanctioned(c: Cluster, action: string, at: Place, params: map<string, string>, parse: Parser, plan: Plan) {
    at in c.deployments &&
    var d := c.deployments[at];
    match plan
    case Unreachable => false
    case RollBack(from, to, source) =>
      action == "ROLLBACK" && from == parse(d.revision).value
      && MayRestore(d, Sets(c, at), Param(params, "revision"), parse, Candidate(source, to))
    case Restart(replicas) => action == "RESTART_PODS" && replicas == (if d.replicas.Some? then d.replicas.value else 1)
    case Scale(from, to) =>
      action == "SCALE" && parse(Param(params, "replicas")) == Parsed(to, true)
      && from == (if d.replicas.Some? then d.replicas.value else 1)
  }

  function Changed(d: Deployment, plan: Plan, now: int): Deployment {
    match plan
    case Unreachable => d
    case RollBack(_, _, source) => d.(template := source.template, rolledBackFrom := Some(d.revision))
    case Restart(_) => d.(template := d.template.(restartedAt := Some(now)))
    case Scale(_, to) => d.(replicas := Some(Int32(to)))
  }

  function Apply(c: Cluster, at: Place, plan: Plan, now: int): Cluster {
    if at in c.deployments then c.(deployments := c.deployments[at := Changed(c.deployments[at], plan, now)]) else c
  }

  predicate NewestFirst(a: Candidate, b: Candidate) { a.revision >= b.revision }

  method Candidates(d: Deployment, sets: seq<ReplicaSet>, parse: Parser) returns (found: seq<Candidate>)
    ensures forall c :: c in found <==> IsCandidate(d, sets, parse, c)
    ensures Sorted(NewestFirst, found)
  {
    var unsorted := [];
    for k := 0 to |sets|
      invariant forall c :: c in unsorted <==> IsCandidate(d, sets[..k], parse, c)
    {
      assert sets[..k + 1] == sets[..k] + [sets[k]];
      var rs := sets[k];
      if Owner("Deployment", d.name, d.uid) in rs.owners && rs.revision.Some? {
        var rev := parse(rs.revision.value);
        if rev.ok {
          unsorted := unsorted + [Candidate(rs, rev.value)];
        }
      }
    }
    assert sets[..|sets|] == sets;
    found := Sort(NewestFirst, unsorted);
    forall c ensures c in found <==> c in unsorted { SameMembers(unsorted, found, c); }
  }

  method ChooseRollback(d: Deployment, sets: seq<ReplicaSet>, wanted: string, parse: Parser) returns (chosen: Option<Candidate>)
    ensures chosen.Some? ==> MayRestore(d, sets, wanted, parse, chosen.value)
    ensures chosen.None? ==> forall c :: !MayRestore(d, sets, wanted, parse, c)
  {
    hide IsCandidate;
    var candidates := Candidates(d, sets, parse);
    var current := parse(d.revision).value;
    var want := parse(wanted);
    chosen := None;
    if wanted != "" && !want.ok {
      return;
    }
    for k := 0 to |candidates|
      invariant forall j :: 0 <= j < k ==>
        if wanted != "" then candidates[j].revision != want.value else candidates[j].revision == current
    {
      assert candidates[k] in candidates;
      if if wanted != "" then candidates[k].revision == want.value else candidates[k].revision != current {
        forall o | IsCandidate(d, sets, parse, o) && o.revision > candidates[k].revision && wanted == ""
          ensures o.revision == current
        {
          var j :| 0 <= j < |candidates| && candidates[j] == o;
          assert k < j ==> NewestFirst(candidates[k], candidates[j]);
        }
        chosen := Some(candidates[k]);
        return;
      }
    }
    forall c ensures !MayRestore(d, sets, wanted, parse, c) {
      if IsCandidate(d, sets, parse, c) {
        var j :| 0 <= j < |candidates| && candidates[j] == c;
      }
    }
  }

  class ClusterOperator {
    var policy: Policy
    var namespace: string
    var reachable: bool
    var cluster: Cluster

    constructor (p: Policy, fallback: string, hasClient: bool, c: Cluster)
      ensures policy == p && namespace == fallback && reachable == hasClient && cluster == c
    {
      policy, namespace, reachable, cluster := p, fallback, hasClient, c;
    }

    function PlaceOf(target: string, ns: string): Place
      reads this`namespace
    {
      (if ns != "" then ns else namespace, target)
    }

    method Resolve(action: string, at: Place, params: map<string, string>, parse: Parser, api: Api) returns (plan: Option<Plan>)
      ensures plan.Some? ==> Sanctioned(cluster, action, at, params, parse, plan.value)
      ensures plan.None? && api.read && api.selector && api.list ==>
        forall p :: !Sanctioned(cluster, action, at, params, parse, p)
    {
      hide MayRestore, IsCandidate;
      plan := None;
      if !api.read || at !in cluster.deployments {
        return;
      }
      var d := cluster.deployments[at];
      if action == "ROLLBACK" {
        if api.selector && api.list {
          var chosen := ChooseRollback(d, Sets(cluster, at), Param(params, "revision"), parse);
          if chosen.Some? {
            plan := Some(RollBack(parse(d.revision).value, chosen.value.revision, chosen.value.rs));
          } else {
            forall p: Plan ensures !Sanctioned(cluster, action, at, params, parse, p) {
              if p.RollBack? {
                assert !MayRestore(d, Sets(cluster, at), Param(params, "revision"), parse, Candidate(p.source, p.to));
              }
            }
          }
        }
      } else if action == "RESTART_PODS" {
        plan := Some(Restart(if d.replicas.Some? then d.replicas.value else 1));
      } else if action == "SCALE" {
        var replicas := parse(Param(params, "replicas"));
        if replicas.ok {
          plan := Some(Scale(if d.replicas.Some? then d.replicas.value else 1, replicas.value));
        }
      }
    }

    /** A dry run, and then the real thing on the cluster just reviewed: with revisions that tell the
        replica sets apart it does what was shown, nothing less and nothing elsewhere. */
    method ReviewThenExecute(action: string, target: string, ns: string, params: map<string, string>,
        parse: Parser, api: Api, now: int) returns (shown: Result, done: Result)
      modifies this`cluster
      ensures shown.Done? ==> shown.dryRun
      ensures shown.Failed? ==> cluster == old(cluster)
      ensures shown.Done? && done.Done? && reachable && DistinctAt(old(cluster), PlaceOf(target, ns), parse) ==>
        done.plan == shown.plan
      ensures done.Done? && !done.dryRun ==>
        OnlyChanges(old(cluster), cluster, (if ns != "" then ns else namespace, target), done.plan)
      ensures done.Done? && !done.dryRun ==>
        DoesChange(old(cluster), cluster, (if ns != "" then ns else namespace, target), done.plan, now)
      ensures done.Done? && !done.dryRun ==> AsAsked(action, params, parse, done.plan)
      ensures done.Done? && !done.dryRun ==> policy.mode == Manual || policy.mode == Auto
      ensures done.Done? && !done.dryRun && done.plan.RollBack? ==> RestoresEarlier(old(cluster), cluster, PlaceOf(target, ns), parse)
    {
      hide MayRestore, DistinctRevisions, IsCandidate, Int32;
      shown := ExecuteRunbook(action, target, ns, params, true, parse, api, now);
      if shown.Failed? {
        return shown, Failed;
      }
      ghost var c := cluster;
      ghost var at := PlaceOf(target, ns);
      done := ExecuteRunbook(action, target, ns, params, false, parse, api, now);
      if done.Done? && reachable {
        if DistinctAt(c, at, parse) {
          PlanIsDetermined(c, action, at, params, parse, shown.plan, done.plan);
        }
        if !done.dryRun && done.plan.RollBack? {
          RollbackRestores(c, at, params, parse, done.plan, now);
        }
        if !done.dryRun {
          PlanChanges(c, at, action, params, parse, done.plan, now);
        }
      }
    }

    method ExecuteRunbook(action: string, target: string, ns: string, params: map<string, string>, dryRun: bool,
        parse: Parser, api: Api, now: int) returns (r: Result)
      modifies this`cluster
      // nothing moves unless the operator's own mode allows it and the caller asked for it
      ensures dryRun || (policy.mode != Manual && policy.mode != Auto) || !reachable ==> cluster == old(cluster)
      ensures r.Done? ==> (r.dryRun <==> dryRun || (policy.mode != Manual && policy.mode != Auto) || !reachable)
      // the plan is the one this cluster calls for, and a live run carries out exactly that
      ensures r.Done? && reachable ==> Sanctioned(old(cluster), action, PlaceOf(target, ns), params, parse, r.plan)
      ensures r.Done? && !r.dryRun ==> cluster == Apply(old(cluster), PlaceOf(target, ns), r.plan, now)
      // a failure has changed nothing, unless the answer to the update itself was lost
      ensures r.Failed? && api.write != Lost(true) ==> cluster == old(cluster)
      ensures r.Failed? && cluster != old(cluster) ==>
        CarriedOut(old(cluster), cluster, action, PlaceOf(target, ns), params, parse, now)
      // with the API answering, a request fails only when there is no such plan
      ensures r.Failed? && api == Api(true, true, true, Acknowledged) ==>
        forall p :: !Sanctioned(old(cluster), action, PlaceOf(target, ns), params, parse, p)
    {
      hide Sanctioned;
      var at := PlaceOf(target, ns);
      var dry := dryRun;
      if !dryRun && !AllowsExecution(policy) {
        dry := true;
      }
      if !reachable {
        return Done(true, Unreachable);
      }
      var plan := Resolve(action, at, params, parse, api);
      if plan.None? {
        return Failed;
      }
      if dry {
        return Done(true, plan.value);
      }
      if api.write.Lost? {
        if api.write.applied {
          cluster := Apply(cluster, at, plan.value, now);
        }
        return Failed;
      }
      cluster := Apply(cluster, at, plan.value, now);
      r := Done(false, plan.value);
    }
  }

  /** The cluster carries out some plan it called for. */
  ghost predicate CarriedOut(c: Cluster, c': Cluster, action: string, at: Place, params: map<string, string>, parse: Parser, now: int) {
    exists plan :: Sanctioned(c, action, at, params, parse, plan) && c' == Apply(c, at, plan, now)
  }

  // -------------------------------------------------------------- plans and effects

  ghost predicate DistinctAt(c: Cluster, at: Place, parse: Parser) {
    at in c.deployments ==> DistinctRevisions(c.deployments[at], Sets(c, at), parse)
  }

  /** Every other deployment, every replica set, and of this one what the plan does not name, stay. */
  predicate OnlyChanges(c: Cluster, c': Cluster, at: Place, plan: Plan) {
    && c'.replicaSets == c.replicaSets && at in c.deployments && c'.deployments.Keys == c.deployments.Keys
    && (forall p :: p in c.deployments && p != at ==> c'.deployments[p] == c.deployments[p])
    && var d, d' := c.deployments[at], c'.deployments[at];
       && d'.uid == d.uid && d'.name == d.name && d'.revision == d.revision
       && (!plan.Scale? ==> d'.replicas == d.replicas)
       && (plan.Scale? ==> d'.template == d.template)
       && (!plan.RollBack? ==> d'.rolledBackFrom == d.rolledBackFrom && d'.template.spec == d.template.spec)
  }

  /** What differs afterwards: the template of the revision restored, the stamp of the restart, or the
      number of replicas, which is the one asked for exactly if that fits 32 bits. */
  predicate DoesChange(c: Cluster, c': Cluster, at: Place, plan: Plan, now: int) {
    && at in c.deployments && at in c'.deployments
    && var d, d' := c.deployments[at], c'.deployments[at];
       && (plan.RollBack? ==> d'.template == plan.source.template && d'.rolledBackFrom == Some(d.revision))
       && (plan.Restart? ==> d'.template.restartedAt == Some(now))
       && (plan.Scale? ==> d'.replicas.Some? && -0x8000_0000 <= d'.replicas.value < 0x8000_0000)
       && (plan.Scale? ==> (d'.replicas.value - plan.to) % 0x1_0000_0000 == 0)
       && (plan.Scale? ==> (d'.replicas == Some(plan.to) <==> -0x8000_0000 <= plan.to < 0x8000_0000))
  }

  /** The plan is of the kind asked for, to the revision or the number of replicas asked for. */
  predicate AsAsked(action: string, params: map<string, string>, parse: Parser, plan: Plan) {
    && (plan.RollBack? <==> action == "ROLLBACK") && (plan.Restart? <==> action == "RESTART_PODS") && (plan.Scale? <==> action == "SCALE")
    && (plan.RollBack? && "revision" in params && params["revision"] != "" ==> parse(params["revision"]) == Parsed(plan.to, true))
    && (plan.RollBack? && "revision" !in params ==> plan.to != plan.from)
    && (plan.Scale? && "replicas" in params ==> parse(params["replicas"]) == Parsed(plan.to, true))
  }

  lemma {:induction false} PlanChanges(c: Cluster, at: Place, action: string, params: map<string, string>, parse: Parser, plan: Plan, now: int)
    requires Sanctioned(c, action, at, params, parse, plan)
    ensures OnlyChanges(c, Apply(c, at, plan, now), at, plan) && DoesChange(c, Apply(c, at, plan, now), at, plan, now)
    ensures AsAsked(action, params, parse, plan)
  {
    if plan.Scale? { WrapIsIdentity(plan.to); }
    hide IsCandidate;
  }

  /** The deployment runs the template of a replica set it owns, and remembers where it came from. */
  predicate RestoresEarlier(c: Cluster, c': Cluster, at: Place, parse: Parser) {
    at in c.deployments && at in c'.deployments &&
    var d := c.deployments[at];
    c'.deployments[at].rolledBackFrom == Some(d.revision)
    && exists rs :: rs in Sets(c, at) && Owner("Deployment", d.name, d.uid) in rs.owners && c'.deployments[at].template == rs.template
  }

  /** Revisions name replica sets: no two different owned sets carry the same number. */
  ghost predicate DistinctRevisions(d: Deployment, sets: seq<ReplicaSet>, parse: Parser) {
    forall a, b :: IsCandidate(d, sets, parse, a) && IsCandidate(d, sets, parse, b) && a.revision == b.revision ==> a == b
  }

  /** Then a request has one plan, so the dry run just reviewed is what the live run would do. */
  lemma {:induction false} PlanIsDetermined(c: Cluster, action: string, at: Place, params: map<string, string>, parse: Parser,
      reviewed: Plan, carriedOut: Plan)
    requires Sanctioned(c, action, at, params, parse, reviewed) && Sanctioned(c, action, at, params, parse, carriedOut)
    requires DistinctRevisions(c.deployments[at], Sets(c, at), parse)
    ensures reviewed == carriedOut
  {
    hide IsCandidate;
    var d := c.deployments[at];
    if action == "ROLLBACK" {
      var a, b := Candidate(reviewed.source, reviewed.to), Candidate(carriedOut.source, carriedOut.to);
      assert IsCandidate(d, Sets(c, at), parse, a) && IsCandidate(d, Sets(c, at), parse, b);
    }
  }

  lemma {:induction false} RollbackRestores(c: Cluster, at: Place, params: map<string, string>, parse: Parser, plan: Plan, now: int)
    requires Sanctioned(c, "ROLLBACK", at, params, parse, plan)
    ensures RestoresEarlier(c, Apply(c, at, plan, now), at, parse)
    ensures Param(params, "revision") == "" ==> plan.to != plan.from
  {
    assert IsCandidate(c.deployments[at], Sets(c, at), parse, Candidate(plan.source, plan.to));
    assert plan.source in Sets(c, at);
  }

  lemma {:induction false} WrapIsIdentity(x: int)
    ensures Int32(x) == x <==> -0x8000_0000 <= x < 0x8000_0000
  {
  }
}
