/**
 Attribute-based policies (gateway-service/internal/auth/rbac.go): loaded in whatever order the
 database returns them, sorted by (priority, name, id), and evaluated first match first.  What a
 condition evaluates to for the request at hand is a parameter; `None` is an evaluation error.
 */
module Abac {
  import opened Options
  import opened Sorting

  datatype Policy = Policy(id: string, name: string, effect: string, resource: string, condition: string, priority: int)

  predicate PolicyLe(a: Policy, b: Policy) {
    if a.priority != b.priority then a.priority < b.priority
    else if a.name != b.name then StringLe(a.name, b.name)
    else StringLe(a.id, b.id)
  }

  lemma {:induction false} PolicyTotal(a: Policy, b: Policy)
    ensures PolicyLe(a, b) || PolicyLe(b, a)
    ensures PolicyLe(a, b) && PolicyLe(b, a) ==> a.id == b.id && a.name == b.name && a.priority == b.priority
  {
    StringTotal(a.name, b.name);
    StringTotal(a.id, b.id);
  }

  lemma {:induction false} PolicyTransitive(a: Policy, b: Policy, c: Policy)
    requires PolicyLe(a, b) && PolicyLe(b, c)
    ensures PolicyLe(a, c)
  {
    hide StringLe;
    StringTotal(a.name, b.name);
    StringTotal(b.name, c.name);
    if StringLe(a.name, b.name) && StringLe(b.name, c.name) {
      StringTransitive(a.name, b.name, c.name);
    }
    if StringLe(a.id, b.id) && StringLe(b.id, c.id) {
      StringTransitive(a.id, b.id, c.id);
    }
  }

  lemma {:induction false} PolicyOrder()
    ensures Preorder(PolicyLe)
  {
    forall a, b ensures PolicyLe(a, b) || PolicyLe(b, a) { PolicyTotal(a, b); }
    forall a, b, c | PolicyLe(a, b) && PolicyLe(b, c) ensures PolicyLe(a, c) { PolicyTransitive(a, b, c); }
  }

  /** Ids are the table's primary key. */
  ghost predicate UniqueIds(rows: seq<Policy>) {
    forall a, b :: a in rows && b in rows && a.id == b.id ==> a == b
  }

  /** strings.EqualFold against "deny": no other letter folds to these four. */
  predicate IsDeny(effect: string) {
    |effect| == 4 && effect[0] in "dD" && effect[1] in "eE" && effect[2] in "nN" && effect[3] in "yY"
  }

  predicate Applies(p: Policy, resource: string, eval: string -> Option<bool>) {
    (p.resource == "*" || p.resource == resource) && eval(p.condition) == Some(true)
  }

  /** `p` is the least policy among the rows that applies. */
  ghost predicate Least(rows: seq<Policy>, resource: string, eval: string -> Option<bool>, p: Policy) {
    && p in rows && Applies(p, resource, eval)
    && forall q :: q in rows && Applies(q, resource, eval) ==> PolicyLe(p, q)
  }

  ghost predicate NoneApplies(rows: seq<Policy>, resource: string, eval: string -> Option<bool>) {
    forall q :: q in rows ==> !Applies(q, resource, eval)
  }

  /** The decision the rows call for, whatever their order. */
  ghost predicate Decision(rows: seq<Policy>, resource: string, eval: string -> Option<bool>, allow: bool, decidedBy: string) {
    if NoneApplies(rows, resource, eval) then allow && decidedBy == ""
    else exists p :: Least(rows, resource, eval, p) && allow == !IsDeny(p.effect) && decidedBy == p.name
  }

  class RBACEngine {
    var policies: seq<Policy>

    ghost predicate Valid()
      reads this
    {
      Sorted(PolicyLe, policies)
    }

    constructor ()
      ensures Valid() && policies == []
    {
      policies := [];
    }

    /** A query that fails leaves an empty list, not the previous one.  `rows` is what was read: rows that
        cannot be scanned, and those after a broken connection, are skipped without an error. */
    method Refresh(rows: Option<seq<Policy>>)
      modifies this
      ensures Valid() && SortOf(PolicyLe, if rows.Some? then rows.value else [], policies)
    {
      PolicyOrder();
      policies := [];
      if rows.Some? {
        policies := Sort(PolicyLe, rows.value);
      }
    }

    method EvaluateABAC(resource: string, eval: string -> Option<bool>) returns (allow: bool, decidedBy: string)
      requires Valid()
      ensures Decision(policies, resource, eval, allow, decidedBy)
    {
      hide PolicyLe, IsDeny;
      for k := 0 to |policies|
        invariant forall j :: 0 <= j < k ==> !Applies(policies[j], resource, eval)
      {
        var p := policies[k];
        if p.resource != "*" && p.resource != resource {
          continue;
        }
        var matched := eval(p.condition);
        if matched.None? || !matched.value {
          continue;
        }
        assert Least(policies, resource, eval, p) by { FirstIsLeast(policies, resource, eval, k); }
        if IsDeny(p.effect) {
          return false, p.name;
        }
        return true, p.name;
      }
      return true, "";
    }
  }

  lemma {:induction false} FirstIsLeast(policies: seq<Policy>, resource: string, eval: string -> Option<bool>, k: nat)
    requires Sorted(PolicyLe, policies) && k < |policies| && Applies(policies[k], resource, eval)
    requires forall j :: 0 <= j < k ==> !Applies(policies[j], resource, eval)
    ensures Least(policies, resource, eval, policies[k])
  {
    hide Applies;
    var p := policies[k];
    forall q | q in policies && Applies(q, resource, eval) ensures PolicyLe(p, q) {
      var j :| 0 <= j < |policies| && policies[j] == q;
      if j == k {
        PolicyTotal(p, p);
      } else {
        assert PolicyLe(policies[k], policies[j]);
      }
    }
  }

  /** Whatever order the rows come in, the cached list is the same. */
  lemma {:induction false} RowOrderIsForgotten(rows: seq<Policy>, again: seq<Policy>, first: seq<Policy>, second: seq<Policy>)
    requires multiset(rows) == multiset(again) && UniqueIds(rows)
    requires SortOf(PolicyLe, rows, first) && SortOf(PolicyLe, again, second)
    ensures first == second
  {
    hide PolicyLe;
    forall x, y | x in first && y in first && PolicyLe(x, y) && PolicyLe(y, x) ensures x == y {
      PolicyTotal(x, y);
      SameMembers(rows, first, x);
      SameMembers(rows, first, y);
    }
    SortedUnique(PolicyLe, first, second);
  }

  /** A decision over the sorted cache is the decision the unsorted rows call for. */
  lemma {:induction false} CacheDecidesAsRows(rows: seq<Policy>, cached: seq<Policy>, resource: string, eval: string -> Option<bool>,
      allow: bool, decidedBy: string)
    requires SortOf(PolicyLe, rows, cached)
    ensures Decision(cached, resource, eval, allow, decidedBy) <==> Decision(rows, resource, eval, allow, decidedBy)
  {
    hide PolicyLe, Applies, IsDeny;
    forall p ensures p in rows <==> p in cached { SameMembers(rows, cached, p); }
    assert NoneApplies(rows, resource, eval) <==> NoneApplies(cached, resource, eval);
    assert forall p :: Least(rows, resource, eval, p) <==> Least(cached, resource, eval, p);
  }

  /** With unique ids the rows call for one decision only. */
  lemma {:induction false} OneDecision(rows: seq<Policy>, resource: string, eval: string -> Option<bool>,
      allow: bool, name: string, allow': bool, name': string)
    requires UniqueIds(rows)
    requires Decision(rows, resource, eval, allow, name) && Decision(rows, resource, eval, allow', name')
    ensures allow == allow' && name == name'
  {
    hide PolicyLe, Applies, IsDeny;
    if !NoneApplies(rows, resource, eval) {
      var p :| Least(rows, resource, eval, p) && allow == !IsDeny(p.effect) && name == p.name;
      var q :| Least(rows, resource, eval, q) && allow' == !IsDeny(q.effect) && name' == q.name;
      PolicyTotal(p, q);
    }
  }

  /** A partial read decides as the table does if nothing applies, or if it has the deciding row. */
  lemma {:induction false} PartialReadDecides(rows: seq<Policy>, read: seq<Policy>, resource: string, eval: string -> Option<bool>,
      allow: bool, name: string)
    requires UniqueIds(rows) && forall q :: q in read ==> q in rows
    requires NoneApplies(rows, resource, eval) || exists p :: Least(rows, resource, eval, p) && p in read
    ensures Decision(read, resource, eval, allow, name) <==> Decision(rows, resource, eval, allow, name)
  {
    hide PolicyLe, Applies, IsDeny;
    if !NoneApplies(rows, resource, eval) {
      var p :| Least(rows, resource, eval, p) && p in read;
      assert Least(read, resource, eval, p);
      assert !NoneApplies(read, resource, eval);
      assert Decision(rows, resource, eval, !IsDeny(p.effect), p.name);
      assert Decision(read, resource, eval, !IsDeny(p.effect), p.name);
      if Decision(read, resource, eval, allow, name) {
        OneDecision(read, resource, eval, allow, name, !IsDeny(p.effect), p.name);
      }
      if Decision(rows, resource, eval, allow, name) {
        OneDecision(rows, resource, eval, allow, name, !IsDeny(p.effect), p.name);
      }
    }
  }

  /** Losing the row matters: where it alone applies, a lost deny becomes an allow. */
  lemma {:induction false} LostDenyAllows(rows: seq<Policy>, read: seq<Policy>, resource: string, eval: string -> Option<bool>, p: Policy)
    requires (forall q :: q in read ==> q in rows) && p in rows && p !in read && IsDeny(p.effect)
    requires Applies(p, resource, eval) && forall q :: q in rows && Applies(q, resource, eval) ==> q == p
    ensures Decision(rows, resource, eval, false, p.name) && Decision(read, resource, eval, true, "")
  {
    hide Applies, IsDeny;
    PolicyTotal(p, p);
    assert Least(rows, resource, eval, p);
  }

  // -------------------------------------------------------- in plain terms

  function LowerCase(s: string): string {
    seq(|s|, k requires 0 <= k < |s| => if 'A' <= s[k] <= 'Z' then (s[k] as int + 32) as char else s[k])
  }

  lemma {:induction false} DenyInAnyCase(effect: string)
    ensures IsDeny(effect) <==> LowerCase(effect) == "deny"
  {
    var l := LowerCase(effect);
    if |effect| == 4 {
      assert l == "deny" <==> l[0] == 'd' && l[1] == 'e' && l[2] == 'n' && l[3] == 'y';
    }
  }

  /** `p` comes first: the smaller priority number, then the name, then the id. */
  predicate Before(p: Policy, q: Policy) {
    && p.priority <= q.priority
    && (p.priority == q.priority ==> NotAfter(p.name, q.name) && (p.name == q.name ==> NotAfter(p.id, q.id)))
  }

  lemma {:induction false} OrderInNumbers(p: Policy, q: Policy)
    requires PolicyLe(p, q)
    ensures Before(p, q)
  {
    hide StringLe, NotAfter;
    StringTotal(p.name, q.name);
    StringLeIsDictionary(p.name, q.name);
    StringLeIsDictionary(p.id, q.id);
    StringLeIsDictionary(p.name, p.name);
    StringTotal(p.name, p.name);
  }

  /** The policy concerns the resource and its condition holds. */
  predicate Concerns(p: Policy, resource: string, eval: string -> Option<bool>) {
    (p.resource == "*" || p.resource == resource) && eval(p.condition).Some? && eval(p.condition).value
  }

  /** What a decision means: with no policy concerned, allow; otherwise the concerned policy with the
      smallest priority number decides, ties going to the name and then the id. */
  lemma {:induction false} DecisionInNumbers(rows: seq<Policy>, resource: string, eval: string -> Option<bool>, allow: bool, name: string)
    requires Decision(rows, resource, eval, allow, name)
    ensures (forall q :: q in rows ==> !Concerns(q, resource, eval)) ==> allow && name == ""
    ensures (exists q :: q in rows && Concerns(q, resource, eval)) ==>
      exists p :: p in rows && Concerns(p, resource, eval) && allow == (LowerCase(p.effect) != "deny") && name == p.name
        && forall q :: q in rows && Concerns(q, resource, eval) ==> Before(p, q)
  {
    assert forall q :: Applies(q, resource, eval) <==> Concerns(q, resource, eval);
    hide PolicyLe, Applies, Concerns, IsDeny, LowerCase, Before;
    if exists q :: q in rows && Concerns(q, resource, eval) {
      var p :| Least(rows, resource, eval, p) && allow == !IsDeny(p.effect) && name == p.name;
      DenyInAnyCase(p.effect);
      forall q | q in rows && Concerns(q, resource, eval) ensures Before(p, q) { OrderInNumbers(p, q); }
    }
  }
}
