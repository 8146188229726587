/**
 The rule-based causal chain (shared/causal/graph.go) and its root (shared/causal/eval.go).  Of an
 alert only its service and its time matter; a link carries the two times its evidence text prints.
 */
module CausalChain {
  import opened Sorting

  datatype Alert = Alert(service: string, at: int)
  datatype Link = Link(from: string, to: string, at: int, effectAt: int)
  type Deps = map<string, seq<string>>

  predicate TimeLe(a: Alert, b: Alert) { a.at <= b.at }

  /** A missing key of a Go map reads as the empty list. */
  function Declared(deps: Deps, s: string): seq<string> { if s in deps then deps[s] else [] }

  /** The string under which `seen` remembers a pair. */
  function Key(u: string, s: string): string { u + "→" + s }

  function Keys(links: seq<Link>): set<string> { set l | l in links :: Key(l.from, l.to) }

  /** The first alert of `u` at or after position `j`, or the length. */
  function First(sorted: seq<Alert>, u: string, j: nat): (r: nat)
    requires j <= |sorted|
    ensures j <= r <= |sorted|
    ensures r < |sorted| ==> sorted[r].service == u
    ensures forall k :: j <= k < r ==> sorted[k].service != u
    decreases |sorted| - j
  {
    if j == |sorted| || sorted[j].service == u then j else First(sorted, u, j + 1)
  }

  // -------------------------------------------------------------- the loops as a function

  function Visit(sorted: seq<Alert>, i: nat, u: string, links: seq<Link>): seq<Link>
    requires i < |sorted|
  {
    var j := First(sorted, u, 0);
    var s := sorted[i].service;
    if j < i && Key(u, s) !in Keys(links) then links + [Link(u, s, sorted[j].at, sorted[i].at)] else links
  }

  function VisitAll(sorted: seq<Alert>, i: nat, ups: seq<string>, links: seq<Link>): seq<Link>
    requires i < |sorted|
  {
    if ups == [] then links
    else Visit(sorted, i, ups[|ups| - 1], VisitAll(sorted, i, ups[..|ups| - 1], links))
  }

  function ChainTo(sorted: seq<Alert>, deps: Deps, i: nat): seq<Link>
    requires i <= |sorted|
  {
    if i <= 1 then []
    else VisitAll(sorted, i - 1, Declared(deps, sorted[i - 1].service), ChainTo(sorted, deps, i - 1))
  }

  function ChainOf(sorted: seq<Alert>, deps: Deps): seq<Link> { ChainTo(sorted, deps, |sorted|) }

  // -------------------------------------------------------------- what the chain should be

  /** `u` is a declared upstream of `s`, and some alert of `u` sits before some alert of `s`. */
  ghost predicate Qualifies(sorted: seq<Alert>, deps: Deps, u: string, s: string) {
    u in Declared(deps, s) && exists i, j :: 0 <= j < i < |sorted| && sorted[j].service == u && sorted[i].service == s
  }

  /** The link to report: the earliest alert of the cause, and the effect's first one after it. */
  ghost predicate Reports(sorted: seq<Alert>, l: Link) {
    var j := First(sorted, l.from, 0);
    j < |sorted| && l.at == sorted[j].at &&
    var t := First(sorted, l.to, j + 1);
    t < |sorted| && l.effectAt == sorted[t].at
  }

  ghost predicate Sound(sorted: seq<Alert>, deps: Deps, links: seq<Link>) {
    forall l :: l in links ==> Qualifies(sorted, deps, l.from, l.to) && Reports(sorted, l)
  }

  ghost predicate KeysOnce(links: seq<Link>) {
    forall a, b :: 0 <= a < b < |links| ==> Key(links[a].from, links[a].to) != Key(links[b].from, links[b].to)
  }

  ghost predicate Complete(sorted: seq<Alert>, deps: Deps, links: seq<Link>) {
    forall u, s :: Qualifies(sorted, deps, u, s) ==> Key(u, s) in Keys(links)
  }

  /** Every visit of a target before `i` has left its key behind. */
  ghost predicate Covered(sorted: seq<Alert>, deps: Deps, i: nat, links: seq<Link>)
    requires i <= |sorted|
  {
    forall t, u :: 0 <= t < i && u in Declared(deps, sorted[t].service) && First(sorted, u, 0) < t ==>
      Key(u, sorted[t].service) in Keys(links)
  }

  ghost predicate Inv(sorted: seq<Alert>, deps: Deps, i: nat, links: seq<Link>)
    requires i <= |sorted|
  {
    Sound(sorted, deps, links) && KeysOnce(links) && Covered(sorted, deps, i, links)
  }

  lemma {:induction false} KeysSnoc(links: seq<Link>, l: Link)
    ensures Keys(links + [l]) == Keys(links) + {Key(l.from, l.to)}
  {
    forall k | k in Keys(links) + {Key(l.from, l.to)} ensures k in Keys(links + [l]) {
      if k in Keys(links) {
        var m :| m in links && Key(m.from, m.to) == k;
        assert m in links + [l];
      } else {
        assert l in links + [l];
      }
    }
  }

  /** A link appended for target `i` is the one to report: earlier targets would have had it. */
  lemma {:induction false} NewLink(sorted: seq<Alert>, deps: Deps, i: nat, u: string, links: seq<Link>)
    requires i < |sorted| && Covered(sorted, deps, i, links)
    requires u in Declared(deps, sorted[i].service) && First(sorted, u, 0) < i
    requires Key(u, sorted[i].service) !in Keys(links)
    ensures var l := Link(u, sorted[i].service, sorted[First(sorted, u, 0)].at, sorted[i].at);
      Qualifies(sorted, deps, u, l.to) && Reports(sorted, l)
  {
    hide Keys, Key, Declared;
    var j := First(sorted, u, 0);
    var s := sorted[i].service;
    var t := First(sorted, s, j + 1);
    assert t <= i;
  }

  lemma {:induction false} KeysOnceSnoc(links: seq<Link>, l: Link)
    requires KeysOnce(links) && Key(l.from, l.to) !in Keys(links)
    ensures KeysOnce(links + [l])
  {
    hide Key;
    var r := links + [l];
    forall a, b | 0 <= a < b < |r| ensures Key(r[a].from, r[a].to) != Key(r[b].from, r[b].to) {
      assert r[a] == links[a] && links[a] in links;
    }
  }

  lemma {:induction false} SoundSnoc(sorted: seq<Alert>, deps: Deps, links: seq<Link>, l: Link)
    requires Sound(sorted, deps, links) && Qualifies(sorted, deps, l.from, l.to) && Reports(sorted, l)
    ensures Sound(sorted, deps, links + [l])
  {
    hide Qualifies, Reports;
    assert forall m :: m in links + [l] ==> m in links || m == l;
  }

  lemma {:induction false} CoveredMore(sorted: seq<Alert>, deps: Deps, i: nat, links: seq<Link>, more: seq<Link>)
    requires i <= |sorted| && Covered(sorted, deps, i, links) && Keys(links) <= Keys(more)
    ensures Covered(sorted, deps, i, more)
  {
    hide Key, Keys, Declared, First;
  }

  lemma {:induction false} VisitKeeps(sorted: seq<Alert>, deps: Deps, i: nat, u: string, links: seq<Link>)
    requires i < |sorted| && Inv(sorted, deps, i, links) && u in Declared(deps, sorted[i].service)
    ensures Inv(sorted, deps, i, Visit(sorted, i, u, links))
    ensures Keys(links) <= Keys(Visit(sorted, i, u, links))
    ensures First(sorted, u, 0) < i ==> Key(u, sorted[i].service) in Keys(Visit(sorted, i, u, links))
  {
    hide Sound, KeysOnce, Covered, Qualifies, Reports, Declared, Key, Keys;
    var j := First(sorted, u, 0);
    var s := sorted[i].service;
    if j < i && Key(u, s) !in Keys(links) {
      NewLink(sorted, deps, i, u, links);
      var l := Link(u, s, sorted[j].at, sorted[i].at);
      KeysSnoc(links, l);
      KeysOnceSnoc(links, l);
      SoundSnoc(sorted, deps, links, l);
      CoveredMore(sorted, deps, i, links, links + [l]);
    }
  }

  lemma {:induction false} VisitAllKeeps(sorted: seq<Alert>, deps: Deps, i: nat, ups: seq<string>, links: seq<Link>)
    requires i < |sorted| && Inv(sorted, deps, i, links)
    requires forall u :: u in ups ==> u in Declared(deps, sorted[i].service)
    ensures var r := VisitAll(sorted, i, ups, links);
      Inv(sorted, deps, i, r) && Keys(links) <= Keys(r)
      && (forall u :: u in ups && First(sorted, u, 0) < i ==> Key(u, sorted[i].service) in Keys(r))
  {
    hide Inv, Keys, Visit;
    if ups != [] {
      var n := |ups| - 1;
      VisitAllKeeps(sorted, deps, i, ups[..n], links);
      VisitKeeps(sorted, deps, i, ups[n], VisitAll(sorted, i, ups[..n], links));
      assert forall u :: u in ups ==> u in ups[..n] || u == ups[n];
    }
  }

  lemma {:induction false} ChainKeeps(sorted: seq<Alert>, deps: Deps, i: nat)
    requires i <= |sorted|
    ensures Inv(sorted, deps, i, ChainTo(sorted, deps, i))
  {
    if i > 1 {
      var s := sorted[i - 1].service;
      var before := ChainTo(sorted, deps, i - 1);
      ChainKeeps(sorted, deps, i - 1);
      VisitAllKeeps(sorted, deps, i - 1, Declared(deps, s), before);
    }
  }

  /** What `BuildChain` guarantees whatever the names are. */
  lemma {:induction false} ChainSpec(sorted: seq<Alert>, deps: Deps)
    ensures Sound(sorted, deps, ChainOf(sorted, deps))
    ensures KeysOnce(ChainOf(sorted, deps))
    ensures Complete(sorted, deps, ChainOf(sorted, deps))
  {
    hide ChainTo, Key, Keys, Sound, KeysOnce;
    ChainKeeps(sorted, deps, |sorted|);
    var links := ChainOf(sorted, deps);
    forall u, s | Qualifies(sorted, deps, u, s) ensures Key(u, s) in Keys(links) {
      var i, j :| 0 <= j < i < |sorted| && sorted[j].service == u && sorted[i].service == s;
      assert First(sorted, u, 0) <= j;
    }
  }

  /** Some link is found exactly when some pair qualifies. */
  lemma {:induction false} ChainNonEmpty(sorted: seq<Alert>, deps: Deps)
    ensures ChainOf(sorted, deps) != [] <==> exists u, s :: Qualifies(sorted, deps, u, s)
  {
    ChainSpec(sorted, deps);
    hide ChainOf, Qualifies, Reports, KeysOnce, Key;
    var chain := ChainOf(sorted, deps);
    if chain == [] {
      assert Keys(chain) == {};
    } else {
      FirstIsMember(chain);
      assert Qualifies(sorted, deps, chain[0].from, chain[0].to);
    }
  }

  // -------------------------------------------------------------- exactness

  predicate Has(links: seq<Link>, u: string, s: string) { exists l :: l in links && l.from == u && l.to == s }

  /** The links are exactly the qualifying pairs. */
  ghost predicate Exact(sorted: seq<Alert>, deps: Deps, links: seq<Link>) {
    forall u, s :: Has(links, u, s) <==> Qualifies(sorted, deps, u, s)
  }

  /** No two qualifying pairs share a key. */
  ghost predicate KeysSeparate(sorted: seq<Alert>, deps: Deps) {
    forall u, s, v, t :: Qualifies(sorted, deps, u, s) && Qualifies(sorted, deps, v, t) && Key(u, s) == Key(v, t) ==>
      u == v && s == t
  }

  lemma {:induction false} ExactWhenSeparate(sorted: seq<Alert>, deps: Deps)
    requires KeysSeparate(sorted, deps)
    ensures Exact(sorted, deps, ChainOf(sorted, deps))
  {
    ChainSpec(sorted, deps);
    hide ChainOf, Qualifies, Key, Reports;
    var links := ChainOf(sorted, deps);
    forall u, s | Qualifies(sorted, deps, u, s) ensures Has(links, u, s) {
      assert Key(u, s) in Keys(links);
      var l :| l in links && Key(l.from, l.to) == Key(u, s);
      assert Qualifies(sorted, deps, l.from, l.to);
    }
  }

  lemma {:induction false} SeparateWhenExact(sorted: seq<Alert>, deps: Deps)
    requires Exact(sorted, deps, ChainOf(sorted, deps))
    ensures KeysSeparate(sorted, deps)
  {
    ChainSpec(sorted, deps);
    hide ChainOf, Qualifies, Key, Reports;
    var links := ChainOf(sorted, deps);
    forall u, s, v, t | Qualifies(sorted, deps, u, s) && Qualifies(sorted, deps, v, t) && Key(u, s) == Key(v, t)
      ensures u == v && s == t
    {
      assert Has(links, u, s) && Has(links, v, t);
      var a :| 0 <= a < |links| && links[a].from == u && links[a].to == s;
      var b :| 0 <= b < |links| && links[b].from == v && links[b].to == t;
    }
  }

  /** The chain is exact precisely when the remembered keys tell the qualifying pairs apart. */
  lemma {:induction false} ChainExact(sorted: seq<Alert>, deps: Deps)
    ensures Exact(sorted, deps, ChainOf(sorted, deps)) <==> KeysSeparate(sorted, deps)
  {
    if KeysSeparate(sorted, deps) {
      ExactWhenSeparate(sorted, deps);
    }
    if Exact(sorted, deps, ChainOf(sorted, deps)) {
      SeparateWhenExact(sorted, deps);
    }
  }

  predicate NoArrow(s: string) { '→' !in s }

  lemma {:induction false} KeyInjective(u: string, s: string, v: string, t: string)
    requires NoArrow(u) && NoArrow(v) && Key(u, s) == Key(v, t)
    ensures u == v && s == t
  {
    var k := Key(u, s);
    assert k[|u|] == '→' && k[|v|] == '→';
    assert forall i :: 0 <= i < |u| ==> k[i] == u[i];
    assert forall i :: 0 <= i < |v| ==> k[i] == v[i];
    assert |u| == |v|;
    assert u == k[..|u|] && v == k[..|v|];
    assert s == k[|u| + 1..] && t == k[|v| + 1..];
  }

  /** It is enough that no declared upstream has an arrow in its name. */
  lemma {:induction false} PlainNamesAreExact(sorted: seq<Alert>, deps: Deps)
    requires forall s, u :: u in Declared(deps, s) ==> NoArrow(u)
    ensures Exact(sorted, deps, ChainOf(sorted, deps))
  {
    hide NoArrow, Key;
    forall u, s, v, t | Qualifies(sorted, deps, u, s) && Qualifies(sorted, deps, v, t) && Key(u, s) == Key(v, t)
      ensures u == v && s == t
    {
      KeyInjective(u, s, v, t);
    }
    ChainExact(sorted, deps);
  }

  /** With arrows in names a qualifying link can be lost. */
  lemma {:induction false} ArrowsLoseLinks()
    ensures Sorted(TimeLe, ArrowAlerts()) && !Exact(ArrowAlerts(), ArrowDeps(), ChainOf(ArrowAlerts(), ArrowDeps()))
  {
    hide ChainOf, Exact, Key, Qualifies, ArrowDeps;
    ArrowsQualify();
    ArrowKeys();
    ChainExact(ArrowAlerts(), ArrowDeps());
  }

  lemma {:induction false} ArrowKeys()
    ensures Key("a", "b→c") == Key("a→b", "c") && "a" != "a→b"
  {
    assert Key("a", "b→c") == "a→b→c" && Key("a→b", "c") == "a→b→c";
    assert |"a"| != |"a→b"|;
  }

  function ArrowAlerts(): seq<Alert> { [Alert("a", 1), Alert("a→b", 2), Alert("b→c", 3), Alert("c", 4)] }

  function ArrowDeps(): Deps { map["b→c" := ["a"], "c" := ["a→b"]] }

  lemma {:induction false} ArrowsQualify()
    ensures Qualifies(ArrowAlerts(), ArrowDeps(), "a", "b→c") && Qualifies(ArrowAlerts(), ArrowDeps(), "a→b", "c")
  {
    var sorted := ArrowAlerts();
    assert sorted[0].service == "a" && sorted[2].service == "b→c";
    assert sorted[1].service == "a→b" && sorted[3].service == "c";
    assert |"c"| != |"b→c"|;
  }

  // -------------------------------------------------------------- times and input order

  /** A link's time is the earliest alert of its cause, among all the incident's alerts. */
  lemma {:induction false} LinkTimeIsEarliest(alerts: seq<Alert>, sorted: seq<Alert>, deps: Deps, l: Link)
    requires SortOf(TimeLe, alerts, sorted) && l in ChainOf(sorted, deps)
    ensures Alert(l.from, l.at) in alerts && Alert(l.to, l.effectAt) in alerts && l.at <= l.effectAt
    ensures forall a :: a in alerts && a.service == l.from ==> l.at <= a.at
  {
    ChainSpec(sorted, deps);
    hide ChainOf, Qualifies;
    var j := First(sorted, l.from, 0);
    var t := First(sorted, l.to, j + 1);
    assert sorted[j] == Alert(l.from, l.at) && sorted[t] == Alert(l.to, l.effectAt);
    SameMembers(alerts, sorted, sorted[j]);
    SameMembers(alerts, sorted, sorted[t]);
    assert TimeLe(sorted[j], sorted[t]);
    forall a | a in alerts && a.service == l.from ensures l.at <= a.at {
      SameMembers(alerts, sorted, a);
      var k :| 0 <= k < |sorted| && sorted[k] == a;
      assert j <= k;
      assert j < k ==> TimeLe(sorted[j], sorted[k]);
    }
  }

  /** Position in the sorted order against time: strictly earlier suffices, not later is necessary. */
  lemma {:induction false} QualifiesByTime(alerts: seq<Alert>, sorted: seq<Alert>, deps: Deps, a: Alert, b: Alert)
    requires SortOf(TimeLe, alerts, sorted) && a.service in Declared(deps, b.service)
    requires a in alerts && b in alerts && a.at < b.at
    ensures Qualifies(sorted, deps, a.service, b.service)
  {
    SameMembers(alerts, sorted, a);
    SameMembers(alerts, sorted, b);
    var j :| 0 <= j < |sorted| && sorted[j] == a;
    var i :| 0 <= i < |sorted| && sorted[i] == b;
    assert i < j ==> TimeLe(sorted[i], sorted[j]);
  }

  /** Unless two services alert at one instant, the input order cannot matter. */
  lemma {:induction false} ChainIgnoresInputOrder(
      alerts: seq<Alert>, other: seq<Alert>, sorted: seq<Alert>, resorted: seq<Alert>, deps: Deps)
    requires multiset(alerts) == multiset(other)
    requires SortOf(TimeLe, alerts, sorted) && SortOf(TimeLe, other, resorted)
    requires forall a, b :: a in alerts && b in alerts && a.at == b.at ==> a.service == b.service
    ensures ChainOf(sorted, deps) == ChainOf(resorted, deps)
  {
    hide ChainOf;
    forall x, y | x in sorted && y in sorted && TimeLe(x, y) && TimeLe(y, x) ensures x == y {
      SameMembers(alerts, sorted, x);
      SameMembers(alerts, sorted, y);
    }
    SortedUnique(TimeLe, sorted, resorted);
  }

  /** Time first, and among equals an order of the tie-breaker's. */
  function Tiebreak(low: string, high: string): (Alert, Alert) -> bool {
    (a: Alert, b: Alert) => a.at < b.at || (a.at == b.at && Rank(low, high, a) <= Rank(low, high, b))
  }

  function Rank(low: string, high: string, a: Alert): int {
    if a.service == low then 0 else if a.service == high then 2 else 1
  }

  /** One of the time-sorted orders puts every tied alert of `low` before those of `high`. */
  lemma {:induction false} TieOrder(alerts: seq<Alert>, low: string, high: string) returns (sorted: seq<Alert>)
    requires low != high
    ensures SortOf(TimeLe, alerts, sorted)
    ensures forall i, j :: 0 <= i < j < |sorted| && sorted[i].service == high && sorted[j].service == low ==> sorted[i].at < sorted[j].at
  {
    var le := Tiebreak(low, high);
    assert Preorder(le);
    sorted := SortExists(le, alerts);
    forall i, j | 0 <= i < j < |sorted|
      ensures TimeLe(sorted[i], sorted[j])
      ensures sorted[i].service == high && sorted[j].service == low ==> sorted[i].at < sorted[j].at
    {
      assert le(sorted[i], sorted[j]);
    }
  }

  /** Some alert of `u` is earlier than some alert of `s`. */
  predicate Earlier(alerts: seq<Alert>, u: string, s: string) {
    exists a, b :: a in alerts && b in alerts && a.service == u && b.service == s && a.at < b.at
  }

  predicate NotLater(alerts: seq<Alert>, u: string, s: string) {
    exists a, b :: a in alerts && b in alerts && a.service == u && b.service == s && a.at <= b.at
  }

  ghost predicate QualifiesAlways(alerts: seq<Alert>, deps: Deps, u: string, s: string) {
    forall sorted :: SortOf(TimeLe, alerts, sorted) ==> Qualifies(sorted, deps, u, s)
  }

  ghost predicate QualifiesSometimes(alerts: seq<Alert>, deps: Deps, u: string, s: string) {
    exists sorted :: SortOf(TimeLe, alerts, sorted) && Qualifies(sorted, deps, u, s)
  }

  /** In every time-sorted order: exactly when the cause alerted strictly earlier. */
  lemma {:induction false} AlwaysIffEarlier(alerts: seq<Alert>, deps: Deps, u: string, s: string)
    requires u != s
    ensures QualifiesAlways(alerts, deps, u, s) <==> u in Declared(deps, s) && Earlier(alerts, u, s)
  {
    hide Declared;
    if u in Declared(deps, s) && Earlier(alerts, u, s) {
      var a, b :| a in alerts && b in alerts && a.service == u && b.service == s && a.at < b.at;
      forall sorted | SortOf(TimeLe, alerts, sorted) ensures Qualifies(sorted, deps, u, s) {
        QualifiesByTime(alerts, sorted, deps, a, b);
      }
    }
    if QualifiesAlways(alerts, deps, u, s) {
      var sorted := TieOrder(alerts, s, u);
      assert Qualifies(sorted, deps, u, s);
      var i, j :| 0 <= j < i < |sorted| && sorted[j].service == u && sorted[i].service == s;
      SameMembers(alerts, sorted, sorted[j]);
      SameMembers(alerts, sorted, sorted[i]);
    }
  }

  /** In some time-sorted order: exactly when the cause alerted no later. */
  lemma {:induction false} SometimesIffNotLater(alerts: seq<Alert>, deps: Deps, u: string, s: string)
    requires u != s
    ensures QualifiesSometimes(alerts, deps, u, s) <==> u in Declared(deps, s) && NotLater(alerts, u, s)
  {
    hide Declared;
    if u in Declared(deps, s) && NotLater(alerts, u, s) {
      var a, b :| a in alerts && b in alerts && a.service == u && b.service == s && a.at <= b.at;
      var sorted := TieOrder(alerts, u, s);
      SameMembers(alerts, sorted, a);
      SameMembers(alerts, sorted, b);
      var j :| 0 <= j < |sorted| && sorted[j] == a;
      var i :| 0 <= i < |sorted| && sorted[i] == b;
      assert j < i;
    }
    if QualifiesSometimes(alerts, deps, u, s) {
      var sorted: seq<Alert> :| SortOf(TimeLe, alerts, sorted) && Qualifies(sorted, deps, u, s);
      var i, j :| 0 <= j < i < |sorted| && sorted[j].service == u && sorted[i].service == s;
      assert TimeLe(sorted[j], sorted[i]);
      SameMembers(alerts, sorted, sorted[j]);
      SameMembers(alerts, sorted, sorted[i]);
    }
  }

  /** A service that declares itself qualifies once it has two alerts, in whatever order. */
  lemma {:induction false} SelfQualifies(alerts: seq<Alert>, sorted: seq<Alert>, again: seq<Alert>, deps: Deps, u: string)
    requires SortOf(TimeLe, alerts, sorted) && SortOf(TimeLe, alerts, again) && Qualifies(sorted, deps, u, u)
    ensures Qualifies(again, deps, u, u)
  {
    hide Declared;
    var i, j :| 0 <= j < i < |sorted| && sorted[j].service == u && sorted[i].service == u;
    var p, q := TwoPlaces(sorted, again, j, i);
  }

  lemma {:induction false} WithoutPlace<T>(s: seq<T>, k: nat)
    requires k < |s|
    ensures multiset(s[..k] + s[k + 1..]) == multiset(s) - multiset{s[k]}
  {
    assert s == s[..k] + [s[k]] + s[k + 1..];
  }

  /** Two places of one arrangement are two places of the other. */
  lemma {:induction false} TwoPlaces<T>(s: seq<T>, r: seq<T>, j: nat, i: nat) returns (p: nat, q: nat)
    requires multiset(s) == multiset(r) && j < i < |s|
    ensures p < q < |r| && {r[p], r[q]} == {s[j], s[i]}
  {
    SameMembers(s, r, s[j]);
    var x: nat :| x < |r| && r[x] == s[j];
    var rest, left := r[..x] + r[x + 1..], s[..j] + s[j + 1..];
    WithoutPlace(r, x);
    WithoutPlace(s, j);
    assert left[i - 1] == s[i];
    SameMembers(left, rest, s[i]);
    var y: nat :| y < |rest| && rest[y] == s[i];
    if y < x {
      p, q := y, x;
    } else {
      p, q := x, y + 1;
    }
  }

  /** The earliest alert of `u` and the latest of `s` fall on one instant. */
  predicate ExtremesTie(alerts: seq<Alert>, u: string, s: string) {
    NotLater(alerts, u, s) && !Earlier(alerts, u, s)
  }

  ghost predicate SamePairs(alerts: seq<Alert>, deps: Deps) {
    forall sorted, again, u, s :: SortOf(TimeLe, alerts, sorted) && SortOf(TimeLe, alerts, again) ==>
      (Qualifies(sorted, deps, u, s) <==> Qualifies(again, deps, u, s))
  }

  /** What is blamed depends on the input order exactly when the earliest alert of some declared
      upstream ties with the latest alert of the service that declares it. */
  lemma {:induction false} OrderMattersExactly(alerts: seq<Alert>, deps: Deps)
    ensures SamePairs(alerts, deps) <==> forall u, s :: u != s && u in Declared(deps, s) ==> !ExtremesTie(alerts, u, s)
  {
    hide Declared, Qualifies, Earlier, NotLater, SortOf;
    if SamePairs(alerts, deps) {
      forall u, s | u != s && u in Declared(deps, s) ensures !ExtremesTie(alerts, u, s) {
        AlwaysIffEarlier(alerts, deps, u, s);
        SometimesIffNotLater(alerts, deps, u, s);
      }
    }
    if forall u, s :: u != s && u in Declared(deps, s) ==> !ExtremesTie(alerts, u, s) {
      forall sorted, again, u, s | SortOf(TimeLe, alerts, sorted) && SortOf(TimeLe, alerts, again) && Qualifies(sorted, deps, u, s)
        ensures Qualifies(again, deps, u, s)
      {
        if u == s {
          SelfQualifies(alerts, sorted, again, deps, u);
        } else {
          SometimesIffNotLater(alerts, deps, u, s);
          AlwaysIffEarlier(alerts, deps, u, s);
        }
      }
    }
  }

  /** `ExtremesTie` in times. */
  lemma {:induction false} TieMeansMinIsMax(alerts: seq<Alert>, u: string, s: string)
    ensures ExtremesTie(alerts, u, s) <==>
      exists a, b :: a in alerts && b in alerts && a.service == u && b.service == s && a.at == b.at
        && (forall x :: x in alerts && x.service == u ==> a.at <= x.at)
        && (forall y :: y in alerts && y.service == s ==> y.at <= b.at)
  {
    if ExtremesTie(alerts, u, s) {
      var a, b :| a in alerts && b in alerts && a.service == u && b.service == s && a.at <= b.at;
      assert a.at == b.at;
    }
  }

  function TieDeps(): Deps { map["b" := ["a"]] }

  function Tied(first: string, second: string): seq<Alert> { [Alert(first, 1), Alert(second, 1)] }

  lemma {:induction false} TiedQualifies(u: string, s: string)
    ensures !Qualifies(Tied("b", "a"), TieDeps(), u, s)
    ensures Qualifies(Tied("a", "b"), TieDeps(), "a", "b")
  {
    assert Tied("a", "b")[0].service == "a" && Tied("a", "b")[1].service == "b";
    if u in Declared(TieDeps(), s) {
      assert s == "b" && u == "a";
      assert "a"[0] != "b"[0];
    }
  }

  lemma {:induction false} FirstIsMember(links: seq<Link>)
    requires links != []
    ensures links[0] in links
  {
  }

  lemma {:induction false} NothingQualifies(sorted: seq<Alert>, deps: Deps, links: seq<Link>)
    requires Sound(sorted, deps, links) && forall u, s :: !Qualifies(sorted, deps, u, s)
    ensures links == []
  {
    hide Qualifies, Reports;
    if links != [] {
      FirstIsMember(links);
      assert false;
    }
  }

  /** When they do, one input has two time-sorted orders and two different chains. */
  lemma {:induction false} TiesMatter()
    ensures SortOf(TimeLe, Tied("a", "b"), Tied("a", "b")) && SortOf(TimeLe, Tied("a", "b"), Tied("b", "a"))
    ensures Has(ChainOf(Tied("a", "b"), TieDeps()), "a", "b") && ChainOf(Tied("b", "a"), TieDeps()) == []
  {
    hide ChainOf, Qualifies, Has, Complete, KeysOnce, Reports;
    assert NoArrow("a") by { assert forall c :: c in "a" ==> c == 'a'; }
    assert forall s, u :: u in Declared(TieDeps(), s) ==> u == "a";
    PlainNamesAreExact(Tied("a", "b"), TieDeps());
    TiedQualifies("", "");
    ChainSpec(Tied("b", "a"), TieDeps());
    forall u, s ensures !Qualifies(Tied("b", "a"), TieDeps(), u, s) { TiedQualifies(u, s); }
    NothingQualifies(Tied("b", "a"), TieDeps(), ChainOf(Tied("b", "a"), TieDeps()));
  }

  // -------------------------------------------------------------- the loops

  method BuildChain(alerts: seq<Alert>, deps: Deps) returns (links: seq<Link>, ghost sorted: seq<Alert>)
    ensures SortOf(TimeLe, alerts, sorted) && links == ChainOf(sorted, deps)
    ensures Sound(sorted, deps, links) && KeysOnce(links) && Complete(sorted, deps, links)
  {
    hide Sound, KeysOnce, Complete, Key;
    ChainSpec([], deps);
    if alerts == [] {
      return [], [];
    }
    var order := Sort(TimeLe, alerts);
    sorted := order;
    hide SortOf;
    assert |order| == |alerts| by { assert SortOf(TimeLe, alerts, order); SortLength(alerts, order); }
    var seen: set<string> := {};
    links := [];
    for i := 1 to |order|
      invariant links == ChainTo(order, deps, i) && seen == Keys(links)
    {
      var target := order[i];
      var upstream := Declared(deps, target.service);
      ghost var before := links;
      for k := 0 to |upstream|
        invariant links == VisitAll(order, i, upstream[..k], before) && seen == Keys(links)
      {
        assert upstream[..k + 1][..k] == upstream[..k];
        links, seen := VisitUpstream(order, i, upstream[k], links, seen);
      }
      assert upstream[..|upstream|] == upstream;
    }
    ChainSpec(order, deps);
  }

  lemma {:induction false} SortLength(alerts: seq<Alert>, sorted: seq<Alert>)
    requires SortOf(TimeLe, alerts, sorted)
    ensures |sorted| == |alerts|
  {
    assert |multiset(alerts)| == |alerts| && |multiset(sorted)| == |sorted|;
  }

  /** The innermost loop: look for the first alert of `u` before the target. */
  method VisitUpstream(order: seq<Alert>, i: nat, u: string, links: seq<Link>, seen: set<string>)
    returns (links': seq<Link>, seen': set<string>)
    requires i < |order| && seen == Keys(links)
    ensures links' == Visit(order, i, u, links) && seen' == Keys(links')
  {
    links', seen' := links, seen;
    var target := order[i];
    for j := 0 to i
      invariant links' == links && seen' == seen && First(order, u, 0) >= j
    {
      var cand := order[j];
      if cand.service == u {
        var key := cand.service + "→" + target.service;
        assert First(order, u, 0) == j;
        if key in seen {
          return;
        }
        seen' := seen + {key};
        links' := links + [Link(cand.service, target.service, cand.at, target.at)];
        KeysSnoc(links, links'[|links|]);
        return;
      }
    }
  }

  // -------------------------------------------------------------- the root

  function Causes(chain: seq<Link>): set<string> { set l | l in chain :: l.from }
  function Effects(chain: seq<Link>): set<string> { set l | l in chain :: l.to }

  /** A cause that is never an effect. */
  predicate Origin(chain: seq<Link>, s: string) { s in Causes(chain) && s !in Effects(chain) }

  type Edges = set<(string, string)>

  function EdgesOf(chain: seq<Link>): Edges { set l | l in chain :: (l.from, l.to) }
  function DeclaredEdges(deps: Deps): Edges { set s, u | s in deps && u in deps[s] :: (u, s) }

  ghost predicate Path(edges: Edges, path: seq<string>) {
    forall k, m :: 0 <= k < m < |path| && m == k + 1 ==> (path[k], path[m]) in edges
  }

  ghost predicate Cycle(edges: Edges, path: seq<string>) {
    |path| >= 2 && path[0] == path[|path| - 1] && Path(edges, path)
  }

  ghost predicate Acyclic(edges: Edges) { forall path :: !Cycle(edges, path) }

  /** Positions of links, each one's effect being the cause of the one before it. */
  ghost predicate Walk(chain: seq<Link>, w: seq<nat>) {
    && (forall k :: 0 <= k < |w| ==> w[k] < |chain|)
    && (forall k, m :: 0 <= k < m < |w| && m == k + 1 ==> chain[w[m]].to == chain[w[k]].from)
  }

  /** Without an origin the walk towards earlier causes never gets stuck. */
  lemma {:induction false} WalkBack(chain: seq<Link>, n: nat) returns (w: seq<nat>)
    requires chain != [] && Causes(chain) <= Effects(chain)
    ensures Walk(chain, w) && |w| == n + 1
  {
    if n == 0 {
      w := [0];
    } else {
      w := WalkBack(chain, n - 1);
      var l := chain[w[n - 1]];
      assert l.from in Causes(chain);
      var k: nat :| k < |chain| && chain[k].to == l.from;
      w := w + [k];
    }
  }

  lemma {:induction false} Pigeonhole(w: seq<nat>, n: nat) returns (p: nat, q: nat)
    requires |w| > n && forall k :: 0 <= k < |w| ==> w[k] < n
    ensures p < q < |w| && w[p] == w[q]
  {
    if x, y :| 0 <= x < y < |w| && w[x] == w[y] {
      p, q := x, y;
    } else {
      DistinctCount(w, n);
      assert false;
    }
  }

  lemma {:induction false} DistinctCount(w: seq<nat>, n: nat)
    requires forall k :: 0 <= k < |w| ==> w[k] < n
    requires forall x, y :: 0 <= x < y < |w| ==> w[x] != w[y]
    ensures |w| <= n
  {
    if w != [] {
      assert w[0] < n;
      if k :| 0 <= k < |w| && w[k] == n - 1 {
        DistinctCount(w[..k] + w[k + 1..], n - 1);
      } else {
        DistinctCount(w, n - 1);
      }
    }
  }

  /** A chain with no origin contains a directed cycle, and this finds one. */
  lemma {:induction false} NoOriginMeansCycle(chain: seq<Link>) returns (path: seq<string>)
    requires chain != [] && forall s :: !Origin(chain, s)
    ensures Cycle(EdgesOf(chain), path)
  {
    assert Causes(chain) <= Effects(chain) by {
      forall s | s in Causes(chain) ensures s in Effects(chain) { assert !Origin(chain, s); }
    }
    hide Causes, Effects, Origin, Path, EdgesOf;
    var w := WalkBack(chain, |chain|);
    var p, q := Pigeonhole(w, |chain|);
    path := WalkedPath(chain, w, p, q);
  }

  lemma {:induction false} WalkStep(chain: seq<Link>, w: seq<nat>, k: nat)
    requires Walk(chain, w) && k + 1 < |w|
    ensures (chain[w[k + 1]].from, chain[w[k]].from) in EdgesOf(chain)
  {
    var l := chain[w[k + 1]];
    assert l in chain && l.to == chain[w[k]].from;
  }

  /** The part of a walk from `p` to `q`, read forwards, is a path. */
  lemma {:induction false} WalkedPath(chain: seq<Link>, w: seq<nat>, p: nat, q: nat) returns (path: seq<string>)
    requires Walk(chain, w) && p <= q < |w|
    ensures Path(EdgesOf(chain), path) && |path| == q - p + 1
    ensures path[0] == chain[w[q]].from && path[q - p] == chain[w[p]].from
  {
    if p == q {
      path := [chain[w[q]].from];
    } else {
      var rest := WalkedPath(chain, w, p, q - 1);
      WalkStep(chain, w, q - 1);
      hide EdgesOf, Walk;
      path := [chain[w[q]].from] + rest;
      PathCons(EdgesOf(chain), chain[w[q]].from, rest);
    }
  }

  lemma {:induction false} PathCons(edges: Edges, x: string, rest: seq<string>)
    requires Path(edges, rest) && rest != [] && (x, rest[0]) in edges
    ensures Path(edges, [x] + rest)
  {
    var path := [x] + rest;
    forall k, m | 0 <= k < m < |path| && m == k + 1 ensures (path[k], path[m]) in edges {
      if k > 0 {
        assert path[k] == rest[k - 1] && path[m] == rest[m - 1];
      }
    }
  }

  method RootService(chain: seq<Link>) returns (root: string)
    ensures chain == [] ==> root == ""
    ensures forall s :: Origin(chain, s) ==> Origin(chain, root) && StringLe(root, s)
    ensures chain != [] && (forall s :: !Origin(chain, s)) ==> root == chain[0].from
  {
    if chain == [] {
      return "";
    }
    var effects: set<string> := {};
    for k := 0 to |chain|
      invariant effects == Effects(chain[..k])
    {
      EffectsSnoc(chain, k);
      effects := effects + {chain[k].to};
    }
    assert chain[..|chain|] == chain;
    var roots: seq<string> := [];
    var seen: set<string> := {};
    for k := 0 to |chain|
      invariant seen == (set s | s in roots)
      invariant seen == Causes(chain[..k]) - effects
    {
      CausesSnoc(chain, k);
      if chain[k].from !in effects && chain[k].from !in seen {
        roots := roots + [chain[k].from];
        seen := seen + {chain[k].from};
      }
    }
    assert seen == Causes(chain) - Effects(chain);
    forall s ensures Origin(chain, s) <==> s in roots { assert s in roots <==> s in seen; }
    hide Origin;
    if |roots| == 1 {
      StringOrder();
      return roots[0];
    }
    if |roots| == 0 {
      return chain[0].from;
    }
    StringOrder();
    var ordered := Sort(StringLe, roots);
    assert |multiset(ordered)| == |ordered| && |multiset(roots)| == |roots|;
    root := ordered[0];
    SameMembers(roots, ordered, root);
    forall s | s in roots ensures StringLe(root, s) {
      SameMembers(roots, ordered, s);
      var k :| 0 <= k < |ordered| && ordered[k] == s;
    }
  }

  lemma {:induction false} EffectsSnoc(chain: seq<Link>, k: nat)
    requires k < |chain|
    ensures Effects(chain[..k + 1]) == Effects(chain[..k]) + {chain[k].to}
  {
    assert chain[..k + 1] == chain[..k] + [chain[k]];
    assert forall l :: l in chain[..k + 1] <==> l in chain[..k] || l == chain[k];
  }

  lemma {:induction false} CausesSnoc(chain: seq<Link>, k: nat)
    requires k < |chain|
    ensures Causes(chain[..k + 1]) == Causes(chain[..k]) + {chain[k].from}
  {
    assert chain[..k + 1] == chain[..k] + [chain[k]];
    assert forall l :: l in chain[..k + 1] <==> l in chain[..k] || l == chain[k];
  }

  /** Every link of the chain is a declared edge, so a chain cycle is a dependency cycle. */
  lemma {:induction false} ChainCycleIsDeclared(sorted: seq<Alert>, deps: Deps, path: seq<string>)
    requires Cycle(EdgesOf(ChainOf(sorted, deps)), path)
    ensures Cycle(DeclaredEdges(deps), path)
  {
    ChainSpec(sorted, deps);
    hide ChainOf, Reports;
    forall k, m | 0 <= k < m < |path| && m == k + 1 ensures (path[k], path[m]) in DeclaredEdges(deps) {
      assert (path[k], path[m]) in EdgesOf(ChainOf(sorted, deps));
      var l :| l in ChainOf(sorted, deps) && (l.from, l.to) == (path[k], path[m]);
      assert Qualifies(sorted, deps, l.from, l.to);
    }
  }

  /** Over an acyclic dependency graph every chain that has a link has an origin. */
  lemma {:induction false} AcyclicHasOrigin(sorted: seq<Alert>, deps: Deps)
    requires Acyclic(DeclaredEdges(deps)) && ChainOf(sorted, deps) != []
    ensures exists s :: Origin(ChainOf(sorted, deps), s)
  {
    hide ChainOf, Origin;
    if forall s :: !Origin(ChainOf(sorted, deps), s) {
      var path := NoOriginMeansCycle(ChainOf(sorted, deps));
      ChainCycleIsDeclared(sorted, deps, path);
    }
  }

  /** Chain and root together: blame lands on a service that alerted and that nothing explains. */
  method RootOfIncident(alerts: seq<Alert>, deps: Deps) returns (root: string, links: seq<Link>)
    ensures exists sorted :: SortOf(TimeLe, alerts, sorted) && links == ChainOf(sorted, deps)
    ensures links == [] ==> root == ""
    ensures links != [] && Acyclic(DeclaredEdges(deps)) ==> Origin(links, root)
    ensures links != [] && !Origin(links, root) ==> exists path :: Cycle(EdgesOf(links), path)
  {
    ghost var sorted;
    links, sorted := BuildChain(alerts, deps);
    root := RootService(links);
    hide ChainOf, Origin;
    if links != [] && !Origin(links, root) {
      var path := NoOriginMeansCycle(links);
      ChainCycleIsDeclared(sorted, deps, path);
    }
  }
}
