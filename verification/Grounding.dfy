/**
 The guardrail between an analyzer and everything downstream (shared/causal/grounding.go), and the
 confidence of the rule-based analyzer (shared/causal/graph.go).  Trimming and lower-casing a name
 is a parameter `norm`, so the theorems hold for any normalisation.
 */
module Grounding {
  import opened Sorting
  import opened CausalChain

  const CEILING: real := 0.4

  datatype Evidence = Evidence(services: seq<string>, alerts: seq<Alert>, deps: Deps)
  /** `rest` is what the guardrail carries through: narrative, root cause, model, playbook. */
  datatype Analysis<P> = Analysis(chain: seq<Link>, confidence: real, rest: P)
  datatype Report = Report(grounded: bool, dropped: nat, unknown: seq<string>, penalty: real)

  function Clamp01(f: real): real { if f < 0.0 then 0.0 else if f > 1.0 then 1.0 else f }

  function Names(names: seq<string>): set<string> { set s | s in names }

  /** Every service name the evidence mentions. */
  function Mentioned(e: Evidence): set<string> {
    Names(e.services) + (set a | a in e.alerts :: a.service) + e.deps.Keys + Upstreams(e.deps, e.deps.Keys)
  }

  function Upstreams(deps: Deps, keys: set<string>): set<string> { set s, u | s in keys && u in Declared(deps, s) :: u }

  function Normal(names: set<string>, norm: string -> string): set<string> {
    set x | x in names && norm(x) != "" :: norm(x)
  }

  function Known(e: Evidence, norm: string -> string): set<string> { Normal(Mentioned(e), norm) }

  predicate IsKnown(name: string, known: set<string>, norm: string -> string) { norm(name) == "" || norm(name) in known }

  predicate Grounded(l: Link, known: set<string>, norm: string -> string) {
    IsKnown(l.from, known, norm) && IsKnown(l.to, known, norm)
  }

  // -------------------------------------------------------------- what is kept

  function Kept(chain: seq<Link>, known: set<string>, norm: string -> string): seq<Link> {
    if chain == [] then []
    else
      var n := |chain| - 1;
      Kept(chain[..n], known, norm) + (if Grounded(chain[n], known, norm) then [chain[n]] else [])
  }

  predicate AllGrounded(chain: seq<Link>, known: set<string>, norm: string -> string) {
    forall l :: l in chain ==> Grounded(l, known, norm)
  }

  /** Exactly the grounded links survive, and nothing is dropped only when all are grounded. */
  lemma {:induction false} KeptSpec(chain: seq<Link>, known: set<string>, norm: string -> string)
    ensures forall l :: l in Kept(chain, known, norm) <==> l in chain && Grounded(l, known, norm)
    ensures |Kept(chain, known, norm)| <= |chain|
    ensures |Kept(chain, known, norm)| == |chain| <==> AllGrounded(chain, known, norm)
    ensures AllGrounded(chain, known, norm) ==> Kept(chain, known, norm) == chain
  {
    hide Grounded;
    if chain != [] {
      var n := |chain| - 1;
      KeptSpec(chain[..n], known, norm);
      assert chain == chain[..n] + [chain[n]];
      assert forall l :: l in chain <==> l in chain[..n] || l == chain[n];
    }
  }

  function DroppedFrom(chain: seq<Link>, known: set<string>, norm: string -> string): nat {
    KeptSpec(chain, known, norm);
    |chain| - |Kept(chain, known, norm)|
  }

  function Ground<P>(a: Analysis<P>, known: set<string>, norm: string -> string): Analysis<P> {
    var c := Clamp01(a.confidence);
    if known == {} || DroppedFrom(a.chain, known, norm) == 0 then a.(confidence := c)
    else a.(chain := Kept(a.chain, known, norm), confidence := if c > CEILING then CEILING else c)
  }

  function UnknownOf(chain: seq<Link>, known: set<string>, norm: string -> string): set<string> {
    set l, s | l in chain && s in {l.from, l.to} && !IsKnown(s, known, norm) :: s
  }

  // -------------------------------------------------------------- the loops

  lemma {:induction false} NormalAdd(names: set<string>, x: string, norm: string -> string)
    ensures Normal(names + {x}, norm) == Normal(names, norm) + (if norm(x) == "" then {} else {norm(x)})
  {
  }

  method AddAll(known: set<string>, names: seq<string>, norm: string -> string) returns (r: set<string>)
    ensures r == known + Normal(Names(names), norm)
  {
    r := known;
    for k := 0 to |names|
      invariant r == known + Normal(Names(names[..k]), norm)
    {
      var done := Names(names[..k]);
      NormalAdd(done, names[k], norm);
      assert names[..k + 1] == names[..k] + [names[k]];
      assert Names(names[..k + 1]) == done + {names[k]};
      if norm(names[k]) != "" {
        r := r + {norm(names[k])};
      }
    }
    assert names[..|names|] == names;
  }

  lemma {:induction false} NormalUnion(a: set<string>, b: set<string>, norm: string -> string)
    ensures Normal(a + b, norm) == Normal(a, norm) + Normal(b, norm)
  {
  }

  lemma {:induction false} UpstreamsAdd(deps: Deps, keys: set<string>, k: string)
    ensures Upstreams(deps, keys + {k}) == Upstreams(deps, keys) + Names(Declared(deps, k))
  {
    hide Declared;
  }

  method KnownServices(e: Evidence, norm: string -> string) returns (known: set<string>)
    ensures known == Known(e, norm)
  {
    hide Normal, Upstreams, Names;
    var own := AddAll({}, e.services, norm);
    var alerting := seq(|e.alerts|, k requires 0 <= k < |e.alerts| => e.alerts[k].service);
    AlertNames(e.alerts, alerting);
    var named := AddAll(own, alerting, norm);
    known := AddEdges(named, e.deps, norm);
    ghost var base := Names(e.services) + Names(alerting);
    NormalUnion(Names(e.services), Names(alerting), norm);
    NormalUnion(base, e.deps.Keys, norm);
    NormalUnion(base + e.deps.Keys, Upstreams(e.deps, e.deps.Keys), norm);
  }

  /** Both ends of every declared edge, in whatever order the map is walked. */
  method AddEdges(start: set<string>, deps: Deps, norm: string -> string) returns (known: set<string>)
    ensures known == start + Normal(deps.Keys, norm) + Normal(Upstreams(deps, deps.Keys), norm)
  {
    hide Normal, Upstreams, Names;
    known := start;
    var todo, done := deps.Keys, {};
    UpstreamsNone(deps, norm);
    while todo != {}
      invariant todo <= deps.Keys && done == deps.Keys - todo
      invariant known == start + Normal(done, norm) + Normal(Upstreams(deps, done), norm)
      decreases |todo|
    {
      var svc :| svc in todo;
      NormalAdd(done, svc, norm);
      UpstreamsAdd(deps, done, svc);
      NormalUnion(Upstreams(deps, done), Names(Declared(deps, svc)), norm);
      if norm(svc) != "" {
        known := known + {norm(svc)};
      }
      known := AddAll(known, deps[svc], norm);
      todo, done := todo - {svc}, done + {svc};
    }
    assert done == deps.Keys;
  }

  lemma {:induction false} UpstreamsNone(deps: Deps, norm: string -> string)
    ensures Normal({}, norm) == {} && Normal(Upstreams(deps, {}), norm) == {}
  {
  }

  lemma {:induction false} AlertNames(alerts: seq<Alert>, names: seq<string>)
    requires |names| == |alerts| && forall k :: 0 <= k < |alerts| ==> names[k] == alerts[k].service
    ensures Names(names) == (set a | a in alerts :: a.service)
  {
    forall s | s in names ensures s in (set a | a in alerts :: a.service) {
      var k :| 0 <= k < |names| && names[k] == s;
      assert alerts[k] in alerts;
    }
  }

  lemma {:induction false} UnknownSnoc(chain: seq<Link>, k: nat, known: set<string>, norm: string -> string)
    requires k < |chain|
    ensures UnknownOf(chain[..k + 1], known, norm) ==
      UnknownOf(chain[..k], known, norm) + set s | s in {chain[k].from, chain[k].to} && !IsKnown(s, known, norm)
  {
    hide IsKnown;
    assert forall l :: l in chain[..k + 1] <==> l in chain[..k] || l == chain[k];
  }

  /** `sortedKeys`. */
  method SortedKeys(names: set<string>) returns (r: seq<string>)
    ensures Sorted(StringLe, r) && (forall s :: s in r <==> s in names) && |r| == |names|
  {
    var keys: seq<string>, todo := [], names;
    while todo != {}
      invariant todo <= names && |keys| + |todo| == |names|
      invariant forall s :: s in keys <==> s in names - todo
      decreases |todo|
    {
      var k :| k in todo;
      keys, todo := keys + [k], todo - {k};
    }
    StringOrder();
    r := Sort(StringLe, keys);
    forall s ensures s in r <==> s in names { SameMembers(keys, r, s); }
    assert |multiset(r)| == |r| && |multiset(keys)| == |keys|;
  }

  /** Under an unfalsifiable report (no known service) nothing is checked. */
  ghost predicate ReportSays(r: Report, chain: seq<Link>, confidence: real, after: real, known: set<string>, norm: string -> string) {
    if known == {} then r == Report(true, 0, [], 0.0)
    else
      && r.dropped == DroppedFrom(chain, known, norm)
      && (r.grounded <==> AllGrounded(chain, known, norm))
      && Sorted(StringLe, r.unknown) && |r.unknown| == |UnknownOf(chain, known, norm)|
      && (forall s :: s in r.unknown <==> s in UnknownOf(chain, known, norm))
      && r.penalty == Clamp01(confidence) - after
  }

  method GroundAnalysis<P>(result: Analysis<P>, e: Evidence, norm: string -> string) returns (g: Analysis<P>, r: Report)
    ensures g == Ground(result, Known(e, norm), norm)
    ensures ReportSays(r, result.chain, result.confidence, g.confidence, Known(e, norm), norm)
  {
    hide Known, UnknownOf, IsKnown, Sorted;
    g := result.(confidence := Clamp01(result.confidence));
    var known := KnownServices(e, norm);
    if known == {} {
      r := Report(true, 0, [], 0.0);
      return;
    }
    var chain := result.chain;
    var kept, unknown, dropped := Scan(chain, known, norm);
    KeptSpec(chain, known, norm);
    hide Kept, AllGrounded;
    var names := SortedKeys(unknown);
    r := Report(dropped == 0, dropped, names, 0.0);
    if dropped > 0 {
      g := g.(chain := kept);
      if g.confidence > CEILING {
        r := r.(penalty := g.confidence - CEILING);
        g := g.(confidence := CEILING);
      }
    }
  }

  /** The loop over the links.  A blank name is known, so the emptiness tests on it add nothing. */
  method Scan(chain: seq<Link>, known: set<string>, norm: string -> string)
    returns (kept: seq<Link>, unknown: set<string>, dropped: nat)
    ensures kept == Kept(chain, known, norm) && dropped == |chain| - |kept|
    ensures unknown == UnknownOf(chain, known, norm)
  {
    hide UnknownOf, IsKnown;
    kept, unknown, dropped := [], {}, 0;
    assert UnknownOf(chain[..0], known, norm) == {} by { NoUnknown(known, norm); }
    for k := 0 to |chain|
      invariant kept == Kept(chain[..k], known, norm) && dropped == k - |kept|
      invariant unknown == UnknownOf(chain[..k], known, norm)
    {
      var l := chain[k];
      assert chain[..k + 1][..k] == chain[..k];
      UnknownSnoc(chain, k, known, norm);
      var fromOK, toOK := IsKnown(l.from, known, norm), IsKnown(l.to, known, norm);
      if fromOK && toOK {
        kept := kept + [l];
      } else {
        dropped := dropped + 1;
        if !fromOK {
          unknown := unknown + {l.from};
        }
        if !toOK {
          unknown := unknown + {l.to};
        }
      }
    }
    assert chain[..|chain|] == chain;
  }

  lemma {:induction false} NoUnknown(known: set<string>, norm: string -> string)
    ensures UnknownOf([], known, norm) == {}
  {
  }

  // -------------------------------------------------------------- laws

  /** Grounding twice is grounding once: the survivors are grounded and the cap is not repeated. */
  lemma {:induction false} GroundIdempotent<P>(a: Analysis<P>, known: set<string>, norm: string -> string)
    ensures Ground(Ground(a, known, norm), known, norm) == Ground(a, known, norm)
    ensures known != {} ==> DroppedFrom(Ground(a, known, norm).chain, known, norm) == 0
  {
    KeptSpec(a.chain, known, norm);
    hide Kept, Grounded;
    var kept := Kept(a.chain, known, norm);
    KeptSpec(kept, known, norm);
  }

  /** A pruned analysis never keeps more than the ceiling, whatever the analyzer claimed. */
  lemma {:induction false} PrunedIsCapped<P>(a: Analysis<P>, known: set<string>, norm: string -> string)
    requires known != {} && !AllGrounded(a.chain, known, norm)
    ensures 0.0 <= Ground(a, known, norm).confidence <= 0.4
    ensures 0.0 <= a.confidence <= 0.4 ==> Ground(a, known, norm).confidence == a.confidence
    ensures a.confidence > 0.4 ==> Ground(a, known, norm).confidence == 0.4
    ensures AllGrounded(Ground(a, known, norm).chain, known, norm) && |Ground(a, known, norm).chain| < |a.chain|
  {
    KeptSpec(a.chain, known, norm);
    hide Kept, Grounded;
  }

  /** An analysis that loses no link keeps its chain, and its confidence but for values outside [0, 1]. */
  lemma {:induction false} GroundedIsKept<P>(a: Analysis<P>, known: set<string>, norm: string -> string)
    requires known == {} || AllGrounded(a.chain, known, norm)
    ensures Ground(a, known, norm).chain == a.chain && Ground(a, known, norm).rest == a.rest
    ensures Ground(a, known, norm).confidence == if a.confidence < 0.0 then 0.0 else if a.confidence > 1.0 then 1.0 else a.confidence
  {
    KeptSpec(a.chain, known, norm);
    hide Kept, Grounded;
  }

  /** Some name of the evidence normalises to `n`. */
  predicate NamedBy(e: Evidence, norm: string -> string, n: string) {
    || (exists s :: s in e.services && norm(s) == n)
    || (exists a :: a in e.alerts && norm(a.service) == n)
    || (exists s :: s in e.deps && norm(s) == n)
    || (exists s :: s in e.deps && exists u :: u in e.deps[s] && norm(u) == n)
  }

  lemma {:induction false} KnownIsNamed(e: Evidence, norm: string -> string, n: string)
    requires n != ""
    ensures n in Known(e, norm) <==> NamedBy(e, norm, n)
  {
    if n in Known(e, norm) {
      var x :| x in Mentioned(e) && norm(x) == n;
    }
    if s :| s in e.services && norm(s) == n {
      assert s in Mentioned(e);
    }
    if a :| a in e.alerts && norm(a.service) == n {
      assert a.service in Mentioned(e);
    }
    if s :| s in e.deps && norm(s) == n {
      assert s in Mentioned(e);
    }
    if s :| s in e.deps && exists u :: u in e.deps[s] && norm(u) == n {
      var u :| u in e.deps[s] && norm(u) == n;
      assert s in e.deps.Keys && u in Declared(e.deps, s);
      assert u in Upstreams(e.deps, e.deps.Keys);
      assert u in Mentioned(e);
    }
  }

  /** Which links survive, in terms of the evidence: those whose two ends are each blank or, normalised,
      an incident service, an alerting service or either end of a declared dependency. */
  lemma {:induction false} SurvivorsAreNamed(e: Evidence, norm: string -> string, chain: seq<Link>, l: Link)
    ensures l in Kept(chain, Known(e, norm), norm) <==>
      l in chain && (norm(l.from) == "" || NamedBy(e, norm, norm(l.from))) && (norm(l.to) == "" || NamedBy(e, norm, norm(l.to)))
  {
    KeptSpec(chain, Known(e, norm), norm);
    hide Known, NamedBy, Kept;
    if norm(l.from) != "" { KnownIsNamed(e, norm, norm(l.from)); }
    if norm(l.to) != "" { KnownIsNamed(e, norm, norm(l.to)); }
  }

  function ConfidenceOf(chain: seq<Link>): real {
    var c := 0.4 + (if chain == [] then 0.0 else 0.2) + 0.1 * |Causes(chain)| as real;
    if c > 0.85 then 0.85 else c
  }

  method NoopConfidence(chain: seq<Link>) returns (conf: real)
    ensures conf == ConfidenceOf(chain)
  {
    conf := 0.4;
    if |chain| > 0 {
      conf := conf + 0.2;
    }
    var upstream: set<string> := {};
    for k := 0 to |chain|
      invariant upstream == Causes(chain[..k])
    {
      CausesSnoc(chain, k);
      upstream := upstream + {chain[k].from};
    }
    assert chain[..|chain|] == chain;
    conf := conf + 0.1 * |upstream| as real;
    if conf > 0.85 {
      conf := 0.85;
    }
  }

  /** One inferred link is what separates a bare guess from the default gate of 0.7. */
  lemma {:induction false} ConfidenceSteps(chain: seq<Link>)
    ensures 0.4 <= ConfidenceOf(chain) <= 0.85
    ensures ConfidenceOf(chain) >= 0.7 <==> chain != []
  {
    if chain == [] {
      assert Causes(chain) == {};
    } else {
      assert chain[0] in chain;
      assert chain[0].from in Causes(chain);
      assert |Causes(chain)| >= 1;
    }
  }

  /** One cause gives 0.7, two 0.8, three or more 0.85. */
  lemma {:induction false} ConfidenceByCauses(chain: seq<Link>)
    ensures chain == [] ==> ConfidenceOf(chain) == 0.4
    ensures |Causes(chain)| == 1 ==> ConfidenceOf(chain) == 0.7
    ensures |Causes(chain)| == 2 ==> ConfidenceOf(chain) == 0.8
    ensures |Causes(chain)| >= 3 ==> ConfidenceOf(chain) == 0.85
  {
    if chain == [] { assert Causes(chain) == {}; }
  }

  lemma {:induction false} AlertIsKnown(e: Evidence, a: Alert, norm: string -> string)
    requires a in e.alerts
    ensures IsKnown(a.service, Known(e, norm), norm)
  {
    assert a.service in Mentioned(e);
  }

  /** What the rules infer from the evidence is grounded in that evidence. */
  lemma {:induction false} RuleBasedPasses<P>(e: Evidence, sorted: seq<Alert>, norm: string -> string, rest: P)
    requires SortOf(TimeLe, e.alerts, sorted)
    ensures var chain := ChainOf(sorted, e.deps);
      var a := Analysis(chain, ConfidenceOf(chain), rest);
      Ground(a, Known(e, norm), norm) == a && AllGrounded(chain, Known(e, norm), norm)
  {
    hide ChainOf, Kept, IsKnown, Known, ConfidenceOf;
    var chain := ChainOf(sorted, e.deps);
    ConfidenceSteps(chain);
    forall l | l in chain ensures Grounded(l, Known(e, norm), norm) {
      LinkTimeIsEarliest(e.alerts, sorted, e.deps, l);
      AlertIsKnown(e, Alert(l.from, l.at), norm);
      AlertIsKnown(e, Alert(l.to, l.effectAt), norm);
    }
    KeptSpec(chain, Known(e, norm), norm);
  }
}
