/**
 The distributed fixed-window limiter (shared/middleware/ratelimit.go): any number of gateway
 replicas over one Redis, INCR and EXPIRE being two commands that others may come between.  Times
 are nanoseconds on one clock; reading the bucket and incrementing its counter are one step.
 */
module RateLimit {
  import opened Options

  const SECOND: int := 1_000_000_000
  const MINUTE: int := 60 * SECOND

  datatype Rule = Rule(name: string, prefixes: seq<string>, limit: int, window: int)
  datatype Key = Key(scope: string, bucket: int)
  datatype Counter = Counter(count: nat, expires: Option<int>)
  type Store = map<Key, Counter>

  /** What came back from INCR: the count; or an error, with the increment applied or not. */
  datatype Wire = Answered | Lost(applied: bool)
  datatype Request = Request(scope: string, limit: int, now: int, wire: Wire)

  /** `windowBucket`; a positive window below a second divides by zero. */
  function Bucket(window: int, now: int): Option<int> {
    var w := if window <= 0 then MINUTE else window;
    if w < SECOND then None else Some(now / SECOND / (w / SECOND))
  }

  predicate Live(store: Store, key: Key, now: int) {
    key in store && (store[key].expires.None? || now < store[key].expires.value)
  }

  function CountOf(store: Store, key: Key, now: int): nat { if Live(store, key, now) then store[key].count else 0 }

  /** INCR keeps the expiry of a live key and starts an expired one afresh. */
  function Bumped(store: Store, key: Key, now: int): Store {
    store[key := Counter(CountOf(store, key, now) + 1, if Live(store, key, now) then store[key].expires else None)]
  }

  /** EXPIRE takes whole seconds, deletes the key when they are not positive, and does nothing to a
      key that is gone. */
  function Expiring(store: Store, key: Key, window: int, now: int): Store {
    if window <= 0 then store - {key}
    else if Live(store, key, now) then store[key := store[key].(expires := Some(now + window / SECOND * SECOND))]
    else store
  }

  /** An EXPIRE that has been sent, after a first count, and has not arrived. */
  datatype Sent = Sent(key: Key, at: int)

  datatype State = State(store: Store, flight: seq<Sent>)

  /** One command reaching Redis, or an EXPIRE that never will. */
  datatype Step = Hit(r: Request) | Arrive(k: nat, now: int) | Drop(k: nat)

  function Without(flight: seq<Sent>, k: nat): seq<Sent>
    requires k < |flight|
  {
    flight[..k] + flight[k + 1..]
  }

  function Counted(s: State, key: Key, r: Request): State {
    match r.wire
    case Lost(applied) => if applied then s.(store := Bumped(s.store, key, r.now)) else s
    case Answered =>
      State(Bumped(s.store, key, r.now), s.flight + (if CountOf(s.store, key, r.now) == 0 then [Sent(key, r.now)] else []))
  }

  /** An EXPIRE arrives no earlier than it was sent; a step that is not possible changes nothing. */
  function Next(s: State, window: int, step: Step): State {
    match step
    case Hit(r) => if Bucket(window, r.now).None? then s else Counted(s, Key(r.scope, Bucket(window, r.now).value), r)
    case Arrive(k, now) =>
      if k < |s.flight| && s.flight[k].at <= now then
        State(Expiring(s.store, s.flight[k].key, window, now), Without(s.flight, k))
      else s
    case Drop(k) => if k < |s.flight| then s.(flight := Without(s.flight, k)) else s
  }

  /** Served; a Redis error fails open, a panicking handler serves nothing. */
  predicate Serves(store: Store, window: int, r: Request) {
    match Bucket(window, r.now)
    case None => false
    case Some(b) => r.wire.Lost? || CountOf(store, Key(r.scope, b), r.now) + 1 <= r.limit
  }

  // -------------------------------------------------------------- the objects

  class Redis {
    var counters: Store

    constructor ()
      ensures counters == map[]
    {
      counters := map[];
    }

    method Incr(key: Key, now: int) returns (count: nat)
      modifies this
      ensures counters == Bumped(old(counters), key, now) && count == CountOf(old(counters), key, now) + 1
    {
      if key in counters && (counters[key].expires.None? || now < counters[key].expires.value) {
        count := counters[key].count + 1;
        counters := counters[key := counters[key].(count := count)];
      } else {
        count := 1;
        counters := counters[key := Counter(1, None)];
      }
    }

    method Expire(key: Key, window: int, now: int)
      modifies this
      ensures counters == Expiring(old(counters), key, window, now)
    {
      if window <= 0 {
        counters := counters - {key};
      } else if key in counters && (counters[key].expires.None? || now < counters[key].expires.value) {
        counters := counters[key := counters[key].(expires := Some(now + window / SECOND * SECOND))];
      }
    }
  }

  predicate IsPrefix(p: string, s: string) { |p| <= |s| && s[..|p|] == p }

  predicate Matches(rule: Rule, path: string) { exists p :: p in rule.prefixes && IsPrefix(p, path) }

  /** A rule is for the paths that begin with one of its prefixes. */
  lemma {:induction false} MatchesByPrefix(rule: Rule, path: string)
    ensures Matches(rule, path) <==> exists k :: 0 <= k < |rule.prefixes| && exists rest :: path == rule.prefixes[k] + rest
  {
    if Matches(rule, path) {
      var p :| p in rule.prefixes && IsPrefix(p, path);
      var k :| 0 <= k < |rule.prefixes| && rule.prefixes[k] == p;
      assert path == rule.prefixes[k] + path[|p|..];
    }
    if k :| 0 <= k < |rule.prefixes| && exists rest :: path == rule.prefixes[k] + rest {
      var rest :| path == rule.prefixes[k] + rest;
      assert IsPrefix(rule.prefixes[k], path);
    }
  }

  const FALLBACK := Rule("default-fallback", [], 300, MINUTE)

  function RouteClass(r: Rule): string {
    if r.name != "" then r.name else if r.prefixes == [] then "default" else r.prefixes[0]
  }

  class RateLimiter {
    var rules: seq<Rule>

    constructor (rs: seq<Rule>)
      ensures rules == rs
    {
      rules := rs;
    }

    method RuleFor(path: string) returns (rule: Rule)
      ensures (exists k :: 0 <= k < |rules| && rule == rules[k] && Matches(rules[k], path) && forall j :: 0 <= j < k ==> !Matches(rules[j], path))
        || (rule == Rule("default-fallback", [], 300, 60_000_000_000) && forall j :: 0 <= j < |rules| ==> !Matches(rules[j], path))
    {
      for k := 0 to |rules|
        invariant forall j :: 0 <= j < k ==> !Matches(rules[j], path)
      {
        var r := rules[k];
        for m := 0 to |r.prefixes|
          invariant forall j :: 0 <= j < m ==> !IsPrefix(r.prefixes[j], path)
        {
          if IsPrefix(r.prefixes[m], path) {
            return r;
          }
        }
      }
      return FALLBACK;
    }

    /** The middleware, with nobody else at Redis: choose the rule, then count against it.  `delay` is
        how long an EXPIRE takes to arrive, `None` if it is lost. */
    method RateLimit(redis: Redis, path: string, identity: string, premium: bool, now: int, wire: Wire, delay: Option<nat>)
      returns (served: bool, rule: Rule)
      modifies redis
      ensures rule == Rule("default-fallback", [], 300, 60_000_000_000) || (rule in rules && Matches(rule, path))
      ensures var r := Request(identity + ":" + RouteClass(rule), if premium then rule.limit * 5 else rule.limit, now, wire);
        served == Serves(old(redis.counters), rule.window, r)
        && redis.counters == Alone(old(redis.counters), rule.window, r, delay)
    {
      rule := RuleFor(path);
      served := Limit(redis, rule, identity, premium, now, wire, delay);
    }

    method Limit(redis: Redis, rule: Rule, identity: string, premium: bool, now: int, wire: Wire, delay: Option<nat>)
      returns (served: bool)
      modifies redis
      ensures var r := Request(identity + ":" + RouteClass(rule), if premium then rule.limit * 5 else rule.limit, now, wire);
        served == Serves(old(redis.counters), rule.window, r)
        && redis.counters == Alone(old(redis.counters), rule.window, r, delay)
    {
      var limit := rule.limit;
      if premium {
        limit := limit * 5;
      }
      var bucket := Bucket(rule.window, now);
      if bucket.None? {
        return false;
      }
      var key := Key(identity + ":" + RouteClass(rule), bucket.value);
      match wire {
        case Lost(applied) =>
          if applied {
            var _ := redis.Incr(key, now);
          }
          return true;
        case Answered =>
          var count := redis.Incr(key, now);
          if count == 1 && delay.Some? {
            redis.Expire(key, rule.window, now + delay.value);
          }
          return count <= limit;
      }
    }
  }

  /** A request's own two commands, one after the other. */
  function Alone(store: Store, window: int, r: Request, delay: Option<nat>): Store {
    Next(Next(State(store, []), window, Hit(r)), window, if delay.Some? then Arrive(0, r.now + delay.value) else Drop(0)).store
  }

  // -------------------------------------------------------------- runs

  /** Any number of requests, with EXPIREs arriving or lost at any later moment. */
  function Run(window: int, steps: seq<Step>): State {
    if steps == [] then State(map[], []) else Next(Run(window, steps[..|steps| - 1]), window, steps[|steps| - 1])
  }

  predicate In(window: int, r: Request, scope: string, b: int) { r.scope == scope && Bucket(window, r.now) == Some(b) }

  function One(b: bool): nat { if b then 1 else 0 }

  /** The step really increments the counter of this bucket. */
  predicate Counts(window: int, step: Step, scope: string, b: int) {
    step.Hit? && In(window, step.r, scope, b) && (step.r.wire.Answered? || step.r.wire.applied)
  }

  function Hits(window: int, steps: seq<Step>, scope: string, b: int): nat {
    if steps == [] then 0
    else var n := |steps| - 1; Hits(window, steps[..n], scope, b) + One(Counts(window, steps[n], scope, b))
  }

  /** The step lets a request through on a count. */
  predicate Admits(s: State, window: int, step: Step) {
    step.Hit? && step.r.wire.Answered? && Serves(s.store, window, step.r)
  }

  function Admitted(window: int, steps: seq<Step>, scope: string, b: int): nat {
    if steps == [] then 0
    else var n := |steps| - 1;
      Admitted(window, steps[..n], scope, b)
      + One(steps[n].Hit? && In(window, steps[n].r, scope, b) && Admits(Run(window, steps[..n]), window, steps[n]))
  }

  /** The end of a bucket, in nanoseconds. */
  function EndOf(window: int, b: int): int { (b + 1) * (window / SECOND) * SECOND }

  /** A counter holds its bucket's hits, and whatever expiry it has or will get is not before the end
      of the bucket. */
  ghost predicate Faithful(window: int, s: State, steps: seq<Step>, key: Key) {
    var n := Hits(window, steps, key.scope, key.bucket);
    && (key in s.store <==> n > 0)
    && (key in s.store ==> s.store[key].count == n)
    && (key in s.store && s.store[key].expires.Some? ==> s.store[key].expires.value >= EndOf(window, key.bucket))
    && (forall f :: f in s.flight && f.key == key ==> f.at + window / SECOND * SECOND >= EndOf(window, key.bucket))
  }

  lemma {:induction false} DivisionBounds(x: int, w: int)
    requires w > 0
    ensures x / w * w <= x < x / w * w + w
  {
  }

  lemma {:induction false} InsideBucket(window: int, now: int, b: int)
    requires window >= SECOND && Bucket(window, now) == Some(b)
    ensures EndOf(window, b) - window / SECOND * SECOND <= now < EndOf(window, b)
  {
    var w := window / SECOND;
    var secs := now / SECOND;
    DivisionBounds(secs, w);
    DivisionBounds(now, SECOND);
    assert EndOf(window, b) == (secs / w * w + w) * SECOND;
  }

  /** No counter expires inside its bucket: at any moment of the bucket it shows every hit so far. */
  lemma {:induction false} CounterLastsItsBucket(window: int, steps: seq<Step>, key: Key, now: int)
    requires window >= SECOND && Bucket(window, now) == Some(key.bucket)
    ensures CountOf(Run(window, steps).store, key, now) == Hits(window, steps, key.scope, key.bucket)
  {
    RunFaithful(window, steps, key);
    InsideBucket(window, now, key.bucket);
    hide Run, Hits, EndOf, Bucket;
  }

  lemma {:induction false} RunFaithful(window: int, steps: seq<Step>, key: Key)
    requires window >= SECOND
    ensures Faithful(window, Run(window, steps), steps, key)
  {
    if steps != [] {
      hide Faithful, Next;
      var n := |steps| - 1;
      RunFaithful(window, steps[..n], key);
      StepFaithful(window, Run(window, steps[..n]), steps, key);
    } else {
      hide EndOf;
    }
  }

  lemma {:induction false} StepFaithful(window: int, s: State, steps: seq<Step>, key: Key)
    requires window >= SECOND && steps != [] && Faithful(window, s, steps[..|steps| - 1], key)
    ensures Faithful(window, Next(s, window, steps[|steps| - 1]), steps, key)
  {
    match steps[|steps| - 1]
    case Hit(r) => HitFaithful(window, s, steps, key);
    case Arrive(k, now) =>
      hide Bucket, EndOf;
      if k < |s.flight| && s.flight[k].at <= now {
        WithoutMembers(s.flight, k);
        assert s.flight[k] in s.flight;
        hide Without, Counted;
      }
    case Drop(k) =>
      hide Bucket, EndOf;
      if k < |s.flight| {
        WithoutMembers(s.flight, k);
        hide Without, Counted;
      }
  }

  lemma {:induction false} HitFaithful(window: int, s: State, steps: seq<Step>, key: Key)
    requires window >= SECOND && steps != [] && Faithful(window, s, steps[..|steps| - 1], key) && steps[|steps| - 1].Hit?
    ensures Faithful(window, Next(s, window, steps[|steps| - 1]), steps, key)
  {
    var r := steps[|steps| - 1].r;
    if In(window, r, key.scope, key.bucket) {
      InsideBucket(window, r.now, key.bucket);
      hide Bucket, EndOf;
    } else {
      hide Bucket, EndOf, Live;
    }
  }

  lemma {:induction false} WithoutMembers(flight: seq<Sent>, k: nat)
    requires k < |flight|
    ensures forall f :: f in Without(flight, k) ==> f in flight
  {
  }

  /** With one limit per bucket, exactly the first `limit` counted requests are let through. */
  lemma {:induction false} ExactlyTheFirstAreServed(window: int, steps: seq<Step>, scope: string, b: int, limit: nat)
    requires window >= SECOND
    requires forall step :: step in steps && step.Hit? && In(window, step.r, scope, b) ==>
      step.r.limit == limit && step.r.wire.Answered?
    ensures var n := Hits(window, steps, scope, b);
      Admitted(window, steps, scope, b) == if n <= limit then n else limit
  {
    hide Run, Bucket;
    if steps != [] {
      var n := |steps| - 1;
      assert forall step :: step in steps[..n] ==> step in steps;
      assert steps[n] in steps;
      ExactlyTheFirstAreServed(window, steps[..n], scope, b, limit);
      if steps[n].Hit? && In(window, steps[n].r, scope, b) {
        CounterLastsItsBucket(window, steps[..n], Key(scope, b), steps[n].r.now);
      }
    }
  }

  /** Rules and tiers may change from request to request: no bucket ever exceeds the largest limit. */
  lemma {:induction false} BucketNeverExceeds(window: int, steps: seq<Step>, scope: string, b: int, limit: nat)
    requires window >= SECOND
    requires forall step :: step in steps && step.Hit? && In(window, step.r, scope, b) ==> step.r.limit <= limit
    ensures Admitted(window, steps, scope, b) <= limit && Admitted(window, steps, scope, b) <= Hits(window, steps, scope, b)
  {
    hide Run, Bucket;
    if steps != [] {
      var n := |steps| - 1;
      assert forall step :: step in steps[..n] ==> step in steps;
      assert steps[n] in steps;
      BucketNeverExceeds(window, steps[..n], scope, b, limit);
      if steps[n].Hit? && In(window, steps[n].r, scope, b) {
        CounterLastsItsBucket(window, steps[..n], Key(scope, b), steps[n].r.now);
      }
    }
  }

  /** Buckets are cut every whole number of seconds of the window, a minute if it is not positive. */
  lemma {:induction false} BucketsAreCut(window: int, now: int, b: int)
    ensures 0 < window < 1_000_000_000 ==> Bucket(window, now) == None
    ensures window >= 1_000_000_000 ==>
      (Bucket(window, now) == Some(b) <==>
        b * (window / 1_000_000_000) * 1_000_000_000 <= now < (b + 1) * (window / 1_000_000_000) * 1_000_000_000)
    ensures window <= 0 ==> (Bucket(window, now) == Some(b) <==> b * 60_000_000_000 <= now < (b + 1) * 60_000_000_000)
  {
    if window >= SECOND { CutWithin(window, now, b); }
    if window <= 0 {
      CutWithin(MINUTE, now, b);
      assert Bucket(window, now) == Bucket(MINUTE, now);
    }
  }

  lemma {:induction false} CutWithin(window: int, now: int, b: int)
    requires window >= SECOND
    ensures Bucket(window, now) == Some(b) <==> EndOf(window, b) - window / SECOND * SECOND <= now < EndOf(window, b)
    ensures EndOf(window, b) - window / SECOND * SECOND == b * (window / SECOND) * SECOND
  {
    var c := Bucket(window, now).value;
    InsideBucket(window, now, c);
    assert (b + 1) * (window / SECOND) == b * (window / SECOND) + window / SECOND;
    if EndOf(window, b) - window / SECOND * SECOND <= now < EndOf(window, b) {
      hide Bucket;
      SameBucket(window, c, b, now);
    }
  }

  /** Rules count apart: a request under one named rule leaves the counters of another alone, whoever
      makes it, as long as the two requests come from one identity. */
  lemma {:induction false} RulesCountApart(s: State, window: int, identity: string, one: Rule, other: Rule, limit: int, now: int, wire: Wire, b: int)
    requires one.name != other.name && one.name != "" && other.name != ""
    ensures var key := Key(identity + ":" + other.name, b);
      RouteClass(other) == other.name
      && (key in Next(s, window, Hit(Request(identity + ":" + RouteClass(one), limit, now, wire))).store <==> key in s.store)
      && (key in s.store ==> Next(s, window, Hit(Request(identity + ":" + RouteClass(one), limit, now, wire))).store[key] == s.store[key])
  {
    hide Bucket;
    var x, y := identity + ":" + one.name, identity + ":" + other.name;
    assert x[|identity| + 1..] == one.name && y[|identity| + 1..] == other.name;
  }

  // -------------------------------------------------------------- any span of one window

  predicate Within(step: Step, scope: string, from: int, to: int) { step.Hit? && step.r.scope == scope && from <= step.r.now < to }

  function AdmittedBetween(window: int, steps: seq<Step>, scope: string, from: int, to: int): nat {
    if steps == [] then 0
    else var n := |steps| - 1;
      AdmittedBetween(window, steps[..n], scope, from, to)
      + One(Within(steps[n], scope, from, to) && Admits(Run(window, steps[..n]), window, steps[n]))
  }

  lemma {:induction false} SpanMeetsTwo(window: int, from: int, now: int)
    requires window >= SECOND && from <= now < from + window / SECOND * SECOND
    ensures var b := Bucket(window, from).value; Bucket(window, now) == Some(b) || Bucket(window, now) == Some(b + 1)
  {
    var b, c := Bucket(window, from).value, Bucket(window, now).value;
    InsideBucket(window, from, b);
    InsideBucket(window, now, c);
    hide Bucket;
    EndsGrow(window, b, b + 1);
    if c < b {
      EndsGrow(window, c, c + 1);
      EndsGrow(window, c + 1, b);
    } else if c > b + 1 {
      EndsGrow(window, b + 1, c - 1);
      EndsGrow(window, c - 1, c);
    }
    hide EndOf;
  }

  lemma {:induction false} EndsGrow(window: int, x: int, y: int)
    requires x <= y && window >= SECOND
    ensures EndOf(window, x) <= EndOf(window, y)
    ensures EndOf(window, x + 1) == EndOf(window, x) + window / SECOND * SECOND
  {
    Scaled(x + 1, y + 1, window / SECOND);
    var w := window / SECOND;
    assert (x + 2) * w == (x + 1) * w + w;
  }

  lemma {:induction false} Scaled(x: int, y: int, w: int)
    requires x <= y && w > 0
    ensures x * w * SECOND <= y * w * SECOND
  {
    assert (y - x) * w >= 0;
  }

  lemma {:induction false} SpanSplits(window: int, steps: seq<Step>, scope: string, from: int)
    requires window >= SECOND
    ensures var b := Bucket(window, from).value;
      AdmittedBetween(window, steps, scope, from, from + window / SECOND * SECOND) <=
        Admitted(window, steps, scope, b) + Admitted(window, steps, scope, b + 1)
  {
    hide Run, Admits;
    if steps != [] {
      var n := |steps| - 1;
      SpanSplits(window, steps[..n], scope, from);
      if Within(steps[n], scope, from, from + window / SECOND * SECOND) {
        SpanMeetsTwo(window, from, steps[n].r.now);
      }
      hide Bucket;
    }
  }

  /** At most twice the limit in any half-open span of one window, wherever the span starts. */
  lemma {:induction false} SpanNeverExceedsTwice(window: int, steps: seq<Step>, scope: string, from: int, limit: nat)
    requires window >= SECOND
    requires forall step :: step in steps && step.Hit? && step.r.scope == scope ==> step.r.limit <= limit
    ensures AdmittedBetween(window, steps, scope, from, from + window / SECOND * SECOND) <= 2 * limit
  {
    var b := Bucket(window, from).value;
    hide Run, Bucket, AdmittedBetween, Admitted;
    SpanSplits(window, steps, scope, from);
    BucketNeverExceeds(window, steps, scope, b, limit);
    BucketNeverExceeds(window, steps, scope, b + 1, limit);
  }

  /** `n` equal requests. */
  function Burst(r: Request, n: nat): seq<Step> { if n == 0 then [] else Burst(r, n - 1) + [Hit(r)] }

  lemma {:induction false} BurstMembers(r: Request, n: nat)
    ensures forall q :: q in Burst(r, n) ==> q == Hit(r)
  {
    if n > 0 {
      BurstMembers(r, n - 1);
    }
  }

  lemma {:induction false} HitsAfterBurst(window: int, before: seq<Step>, r: Request, n: nat, b: int)
    requires r.wire.Answered?
    ensures Hits(window, before + Burst(r, n), r.scope, b) ==
      Hits(window, before, r.scope, b) + if Bucket(window, r.now) == Some(b) then n else 0
  {
    hide Bucket;
    if n == 0 {
      assert before + [] == before;
    } else {
      HitsAfterBurst(window, before, r, n - 1, b);
      var shorter := before + Burst(r, n - 1);
      assert before + Burst(r, n) == shorter + [Hit(r)];
      assert (shorter + [Hit(r)])[..|shorter|] == shorter;
    }
  }

  /** All requests lie in two buckets inside the span: nothing admitted there is missed. */
  lemma {:induction false} SpanGathers(window: int, steps: seq<Step>, scope: string, b: int, from: int, to: int)
    requires forall step :: step in steps ==> Within(step, scope, from, to)
    requires forall step :: step in steps ==> step.Hit? && (In(window, step.r, scope, b) || In(window, step.r, scope, b + 1))
    ensures AdmittedBetween(window, steps, scope, from, to) == Admitted(window, steps, scope, b) + Admitted(window, steps, scope, b + 1)
  {
    hide Run, Admits, Bucket;
    if steps != [] {
      var n := |steps| - 1;
      assert steps[n] in steps && forall step :: step in steps[..n] ==> step in steps;
      SpanGathers(window, steps[..n], scope, b, from, to);
    }
  }

  function TwoBursts(scope: string, limit: nat, end: int): seq<Step> {
    Burst(Request(scope, limit, end - 1, Answered), limit) + Burst(Request(scope, limit, end, Answered), limit)
  }

  predicate AroundEnd(step: Step, scope: string, limit: nat, end: int) {
    step.Hit? && step.r.scope == scope && step.r.limit == limit && step.r.wire == Answered && (step.r.now == end - 1 || step.r.now == end)
  }

  lemma {:induction false} TwoBurstsMembers(scope: string, limit: nat, end: int, step: Step)
    requires step in TwoBursts(scope, limit, end)
    ensures AroundEnd(step, scope, limit, end)
  {
    BurstMembers(Request(scope, limit, end - 1, Answered), limit);
    BurstMembers(Request(scope, limit, end, Answered), limit);
    hide Burst;
  }

  lemma {:induction false} TwoBurstsHits(window: int, scope: string, limit: nat, end: int, b: int)
    requires Bucket(window, end - 1) == Some(b) && Bucket(window, end) == Some(b + 1)
    ensures Hits(window, TwoBursts(scope, limit, end), scope, b) == limit
    ensures Hits(window, TwoBursts(scope, limit, end), scope, b + 1) == limit
  {
    hide Bucket, Burst, Hits;
    var early, late := Request(scope, limit, end - 1, Answered), Request(scope, limit, end, Answered);
    assert [] + Burst(early, limit) == Burst(early, limit);
    NoHits(window, scope, b);
    NoHits(window, scope, b + 1);
    HitsAfterBurst(window, [], early, limit, b);
    HitsAfterBurst(window, [], early, limit, b + 1);
    HitsAfterBurst(window, Burst(early, limit), late, limit, b);
    HitsAfterBurst(window, Burst(early, limit), late, limit, b + 1);
  }

  /** The factor two is reached: for every limit, twice as many requests get through within two
      nanoseconds around the end of a bucket. */
  lemma {:induction false} TwiceIsReached(scope: string, window: int, b: int, limit: nat)
    requires window >= SECOND
    ensures var end := EndOf(window, b);
      AdmittedBetween(window, TwoBursts(scope, limit, end), scope, end - 1, end + 1) == 2 * limit
  {
    AcrossTheEnd(window, b);
    hide EndOf, Bucket, TwoBursts, Hits, Admitted, AdmittedBetween;
    var end := EndOf(window, b);
    var steps := TwoBursts(scope, limit, end);
    TwoBurstsHits(window, scope, limit, end, b);
    forall step | step in steps ensures AroundEnd(step, scope, limit, end) { TwoBurstsMembers(scope, limit, end, step); }
    SpanGathers(window, steps, scope, b, end - 1, end + 1);
    ExactlyTheFirstAreServed(window, steps, scope, b, limit);
    ExactlyTheFirstAreServed(window, steps, scope, b + 1, limit);
  }

  lemma {:induction false} NoHits(window: int, scope: string, b: int)
    ensures Hits(window, [], scope, b) == 0
  {
  }

  lemma {:induction false} AcrossTheEnd(window: int, b: int)
    requires window >= SECOND
    ensures Bucket(window, EndOf(window, b) - 1) == Some(b) && Bucket(window, EndOf(window, b)) == Some(b + 1)
  {
    var end := EndOf(window, b);
    var c, d := Bucket(window, end - 1).value, Bucket(window, end).value;
    InsideBucket(window, end - 1, c);
    InsideBucket(window, end, d);
    hide Bucket;
    SameBucket(window, c, b, end - 1);
    SameBucket(window, d, b + 1, end);
  }

  lemma {:induction false} SameBucket(window: int, c: int, b: int, now: int)
    requires window >= SECOND
    requires EndOf(window, c) - window / SECOND * SECOND <= now < EndOf(window, c)
    requires EndOf(window, b) - window / SECOND * SECOND <= now < EndOf(window, b)
    ensures c == b
  {
    EndsGrow(window, c, c + 1);
    EndsGrow(window, b, b + 1);
    if c < b {
      EndsGrow(window, c, b - 1);
      EndsGrow(window, b - 1, b);
    } else if b < c {
      EndsGrow(window, b, c - 1);
      EndsGrow(window, c - 1, c);
    }
    hide EndOf;
  }

  // ------------------------------------------------- windows that are not positive

  /** The step leaves a counter that no EXPIRE will ever delete: the first INCR of a key whose answer
      is lost, or an EXPIRE that is. */
  predicate Orphans(s: State, window: int, step: Step) {
    match step
    case Hit(r) =>
      r.wire == Lost(true) && Bucket(window, r.now).Some? && CountOf(s.store, Key(r.scope, Bucket(window, r.now).value), r.now) == 0
    case Arrive(_, _) => false
    case Drop(k) => k < |s.flight|
  }

  function Orphaned(window: int, steps: seq<Step>): nat {
    if steps == [] then 0
    else var n := |steps| - 1; Orphaned(window, steps[..n]) + One(Orphans(Run(window, steps[..n]), window, steps[n]))
  }

  ghost predicate NoExpiry(store: Store) {
    forall key :: key in store ==> store[key].count >= 1 && store[key].expires.None?
  }

  ghost predicate OneEach(flight: seq<Sent>) { forall i, j :: 0 <= i < j < |flight| ==> flight[i].key != flight[j].key }

  /** No counter has an expiry, and each EXPIRE in flight belongs to a counter of its own. */
  ghost predicate Lasting(s: State) {
    NoExpiry(s.store) && OneEach(s.flight) && forall f :: f in s.flight ==> f.key in s.store
  }

  lemma {:induction false} BumpLasts(store: Store, key: Key, now: int)
    requires NoExpiry(store)
    ensures NoExpiry(Bumped(store, key, now)) && Bumped(store, key, now).Keys == store.Keys + {key}
    ensures CountOf(store, key, now) == 0 <==> key !in store
    ensures |Bumped(store, key, now)| == |store| + One(key !in store)
  {
    var t := Bumped(store, key, now);
    assert t.Keys == store.Keys + {key};
    assert |t| == |t.Keys| && |store| == |store.Keys|;
    assert key in store ==> store.Keys + {key} == store.Keys;
  }

  lemma {:induction false} HitLasts(s: State, window: int, r: Request)
    requires window <= 0 && Lasting(s)
    ensures var t := Next(s, window, Hit(r));
      Lasting(t) && |t.store| + |s.flight| == |s.store| + |t.flight| + One(Orphans(s, window, Hit(r)))
  {
    assert Bucket(window, r.now).Some?;
    var key := Key(r.scope, Bucket(window, r.now).value);
    BumpLasts(s.store, key, r.now);
    hide Bucket, Bumped, CountOf, NoExpiry;
    if r.wire.Answered? && key !in s.store {
      AddOne(s, key, r.now);
    }
  }

  lemma {:induction false} AddOne(s: State, key: Key, at: int)
    requires OneEach(s.flight) && (forall f :: f in s.flight ==> f.key in s.store) && key !in s.store
    ensures OneEach(s.flight + [Sent(key, at)])
  {
    forall i | 0 <= i < |s.flight| ensures s.flight[i].key != key { assert s.flight[i] in s.flight; }
  }

  lemma {:induction false} RemoveOne(flight: seq<Sent>, k: nat)
    requires k < |flight| && OneEach(flight)
    ensures OneEach(Without(flight, k)) && |Without(flight, k)| == |flight| - 1
    ensures forall f :: f in Without(flight, k) ==> f in flight && f.key != flight[k].key
  {
    var rest := Without(flight, k);
    forall i | 0 <= i < |rest| ensures rest[i] == flight[if i < k then i else i + 1] {}
    forall f | f in rest ensures f in flight && f.key != flight[k].key {
      var i :| 0 <= i < |rest| && rest[i] == f;
      assert f == flight[if i < k then i else i + 1];
    }
  }

  lemma {:induction false} RemovalLasts(s: State, k: nat)
    requires Lasting(s) && k < |s.flight|
    ensures Lasting(s.(flight := Without(s.flight, k))) && |Without(s.flight, k)| == |s.flight| - 1
    ensures Lasting(State(s.store - {s.flight[k].key}, Without(s.flight, k)))
    ensures |s.store - {s.flight[k].key}| == |s.store| - 1
  {
    var key := s.flight[k].key;
    assert s.flight[k] in s.flight;
    RemoveOne(s.flight, k);
    hide Without, OneEach;
    var less := s.store - {key};
    assert less.Keys == s.store.Keys - {key};
    assert |less| == |less.Keys| && |s.store| == |s.store.Keys|;
  }

  lemma {:induction false} StepLasts(s: State, window: int, step: Step)
    requires window <= 0 && Lasting(s)
    ensures var t := Next(s, window, step);
      Lasting(t) && |t.store| + |s.flight| == |s.store| + |t.flight| + One(Orphans(s, window, step))
  {
    hide Lasting, Bucket, Without;
    match step
    case Hit(r) => HitLasts(s, window, r);
    case Arrive(k, now) => if k < |s.flight| { RemovalLasts(s, k); }
    case Drop(k) => if k < |s.flight| { RemovalLasts(s, k); }
  }

  /** Conservation: the counters left are the EXPIREs in flight and those that were orphaned. */
  lemma {:induction false} CountersAreAccountedFor(window: int, steps: seq<Step>)
    requires window <= 0
    ensures Lasting(Run(window, steps))
    ensures |Run(window, steps).store| == |Run(window, steps).flight| + Orphaned(window, steps)
  {
    if steps != [] {
      hide Next, Orphans, Lasting;
      var n := |steps| - 1;
      CountersAreAccountedFor(window, steps[..n]);
      StepLasts(Run(window, steps[..n]), window, steps[n]);
    }
  }

  lemma {:induction false} MinuteStart(window: int, b: int)
    requires window <= 0
    ensures Bucket(window, b * MINUTE) == Some(b)
  {
    assert b * MINUTE == (b * 60) * SECOND;
  }

  /** Every next request with a positive limit would be served. */
  ghost predicate ServesAll(s: State, window: int) { forall r: Request :: r.limit >= 1 ==> Serves(s.store, window, r) }

  lemma {:induction false} ServesAllWhenEmpty(s: State, window: int)
    requires window <= 0 && Lasting(s)
    ensures ServesAll(s, window) <==> s.store == map[]
  {
    if s.store == map[] {
      forall r: Request | r.limit >= 1 ensures Serves(s.store, window, r) { assert Bucket(window, r.now).Some?; }
    } else {
      var key :| key in s.store;
      MinuteStart(window, key.bucket);
      hide Bucket;
      var r := Request(key.scope, 1, key.bucket * MINUTE, Answered);
      assert Key(r.scope, key.bucket) == key;
      assert !Serves(s.store, window, r);
    }
  }

  /** A window that is not positive deletes each counter when its EXPIRE arrives.  In every run, all
      requests with a positive limit are served exactly when no EXPIRE is in flight and no counter was
      orphaned. */
  lemma {:induction false} NonPositiveWindowNeverLimits(window: int, steps: seq<Step>)
    requires window <= 0
    ensures ServesAll(Run(window, steps), window) <==> Run(window, steps).flight == [] && Orphaned(window, steps) == 0
  {
    hide Lasting, Run, Orphaned, ServesAll;
    CountersAreAccountedFor(window, steps);
    ServesAllWhenEmpty(Run(window, steps), window);
  }

  /** With a limit of one a request between another's INCR and its EXPIRE is refused, though nothing is
      lost: the EXPIRE then arrives and no counter is left. */
  lemma {:induction false} BetweenIncrAndExpire(window: int, scope: string, now: int)
    requires window <= 0
    ensures var r := Request(scope, 1, now, Answered);
      && !Serves(Run(window, [Hit(r)]).store, window, r)
      && Run(window, [Hit(r), Hit(r), Arrive(0, now)]) == State(map[], [])
      && Orphaned(window, [Hit(r), Hit(r), Arrive(0, now)]) == 0
  {
    var r := Request(scope, 1, now, Answered);
    var key := Key(scope, Bucket(window, now).value);
    assert Bucket(window, now).Some?;
    hide Bucket;
    var none: seq<Step> := [];
    var one, two, three := [Hit(r)], [Hit(r), Hit(r)], [Hit(r), Hit(r), Arrive(0, now)];
    assert one[..0] == none && two[..1] == one && three[..2] == two;
    assert Run(window, none) == State(map[], []) && Orphaned(window, none) == 0;
    assert Run(window, one) == State(map[key := Counter(1, None)], [Sent(key, now)]) && Orphaned(window, one) == 0;
    assert Run(window, two) == State(map[key := Counter(2, None)], [Sent(key, now)]) && Orphaned(window, two) == 0;
    assert map[key := Counter(2, None)] - {key} == map[];
    assert Without([Sent(key, now)], 0) == [];
  }
}
