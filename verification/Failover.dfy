/**
 Failover with backoff: one machine, written twice in the source, over causal analyzers
 (shared/causal/fallback.go) and over chat providers (correlation-service/internal/llm/router.go).
 It is generic in what a link answers.  Times are nanoseconds.
 */
module Failover {
  import opened Options

  const SECOND: int := 1_000_000_000
  const COOLDOWN: int := 30 * SECOND
  const MAX_SHIFT: nat := 5

  /** `downUntil` is `None` for Go's zero time, which no clock is before. */
  datatype Link = Link(failures: nat, downUntil: Option<int>)
  datatype Outcome<R> = Answer(result: R) | Error
  datatype Result<R> = Done(result: R) | AllFailed | Aborted

  function Pow2(n: nat): nat { if n == 0 then 1 else 2 * Pow2(n - 1) }

  /** The pause after the k-th failure in a row. */
  function Pause(k: nat): int { COOLDOWN * Pow2(if k > MAX_SHIFT then MAX_SHIFT else if k == 0 then 0 else k - 1) }

  predicate Eligible(l: Link, now: int) { l.downUntil.None? || now >= l.downUntil.value }

  function Succeeded(l: Link): Link { Link(0, None) }

  function FailedAt(l: Link, now: int): Link { Link(l.failures + 1, Some(now + Pause(l.failures + 1))) }

  function Recorded(l: Link, ok: bool, now: int): Link { if ok then Succeeded(l) else FailedAt(l, now) }

  // -------------------------------------------------------------- candidates

  function Positions(n: nat): seq<nat> { seq(n, k => k) }

  function LiveOf(links: seq<Link>, now: int): seq<nat> {
    if links == [] then []
    else var n := |links| - 1; LiveOf(links[..n], now) + (if Eligible(links[n], now) then [n] else [])
  }

  function CandidatesOf(links: seq<Link>, now: int): seq<nat> {
    if LiveOf(links, now) == [] then Positions(|links|) else LiveOf(links, now)
  }

  ghost predicate Ascending(c: seq<nat>, n: nat) {
    (forall k :: 0 <= k < |c| ==> c[k] < n) && forall j, k :: 0 <= j < k < |c| ==> c[j] < c[k]
  }

  lemma {:induction false} LiveSpec(links: seq<Link>, now: int)
    ensures Ascending(LiveOf(links, now), |links|)
    ensures forall i: nat :: i in LiveOf(links, now) <==> i < |links| && Eligible(links[i], now)
  {
    hide Eligible;
    if links != [] {
      var n := |links| - 1;
      LiveSpec(links[..n], now);
      forall i: nat ensures i in LiveOf(links, now) <==> i < |links| && Eligible(links[i], now) {
        if i < n {
          assert links[..n][i] == links[i];
        }
      }
    }
  }

  /** Never empty, in priority order, exactly the eligible links unless there are none. */
  lemma {:induction false} CandidatesSpec(links: seq<Link>, now: int)
    requires links != []
    ensures var c := CandidatesOf(links, now);
      c != [] && Ascending(c, |links|) && |c| <= |links|
    ensures (exists i :: 0 <= i < |links| && Eligible(links[i], now)) ==>
      forall i: nat :: i in CandidatesOf(links, now) <==> i < |links| && Eligible(links[i], now)
    ensures (forall i :: 0 <= i < |links| ==> !Eligible(links[i], now)) ==> CandidatesOf(links, now) == Positions(|links|)
  {
    LiveSpec(links, now);
    hide Eligible, LiveOf, Ascending, Positions;
    var live := LiveOf(links, now);
    PositionsAscend(|links|);
    if live == [] {
      assert forall i: nat :: i < |links| ==> i !in live;
    } else {
      assert live[0] in live;
    }
    AscendingLength(CandidatesOf(links, now), |links|);
  }

  lemma {:induction false} PositionsAscend(n: nat)
    ensures Ascending(Positions(n), n) && |Positions(n)| == n
  {
  }

  lemma {:induction false} AscendingLength(c: seq<nat>, n: nat)
    requires Ascending(c, n)
    ensures |c| <= n
  {
    if c != [] {
      var m := |c| - 1;
      AscendingLength(c[..m], c[m]);
    }
  }

  // -------------------------------------------------------------- the object

  /** Links as updated by a call that tries `c[..p]` in order. */
  function Tried<R>(links: seq<Link>, c: seq<nat>, p: nat, ask: nat -> Outcome<R>, clock: nat -> int): seq<Link>
    requires p <= |c|
  {
    if p == 0 then links
    else
      var before := Tried(links, c, p - 1, ask, clock);
      var i := c[p - 1];
      if i < |before| then before[i := Recorded(before[i], ask(i).Answer?, clock(p))] else before
  }

  lemma {:induction false} AscendingWithin(c: seq<nat>, n: nat)
    requires Ascending(c, n)
    ensures forall k :: 0 <= k < |c| ==> c[k] < n
  {
  }

  lemma {:induction false} TriedNone<R>(links: seq<Link>, c: seq<nat>, ask: nat -> Outcome<R>, clock: nat -> int)
    ensures Tried(links, c, 0, ask, clock) == links
  {
  }

  lemma {:induction false} TriedNext<R>(links: seq<Link>, c: seq<nat>, p: nat, ask: nat -> Outcome<R>, clock: nat -> int)
    requires p < |c| && c[p] < |links|
    ensures |Tried(links, c, p, ask, clock)| == |links|
    ensures var before := Tried(links, c, p, ask, clock);
      Tried(links, c, p + 1, ask, clock) == before[c[p] := Recorded(before[c[p]], ask(c[p]).Answer?, clock(p + 1))]
  {
    hide Recorded;
    TriedLength(links, c, p, ask, clock);
  }

  lemma {:induction false} TriedLength<R>(links: seq<Link>, c: seq<nat>, p: nat, ask: nat -> Outcome<R>, clock: nat -> int)
    requires p <= |c|
    ensures |Tried(links, c, p, ask, clock)| == |links|
  {
    if p > 0 {
      TriedLength(links, c, p - 1, ask, clock);
    }
  }

  /** The first `k` candidates were asked, with the context still open, and each failed. */
  ghost predicate AllFail<R>(c: seq<nat>, ask: nat -> Outcome<R>, over: nat -> bool, k: nat) {
    k <= |c| && forall j: nat :: j < k ==> !over(j) && ask(c[j]).Error?
  }

  /** What one call on its own answers: the first candidate that succeeds, unless the context ends
      first or every candidate fails. */
  ghost predicate FirstSuccess<R>(c: seq<nat>, ask: nat -> Outcome<R>, over: nat -> bool, p: nat, r: Result<R>) {
    p <= |c| &&
    match r
    case Done(x) => p > 0 && AllFail(c, ask, over, p - 1) && !over(p - 1) && ask(c[p - 1]) == Answer(x)
    case AllFailed => p == |c| && AllFail(c, ask, over, p)
    case Aborted => p < |c| && AllFail(c, ask, over, p) && over(p)
  }

  lemma {:induction false} OneMoreFails<R>(c: seq<nat>, ask: nat -> Outcome<R>, over: nat -> bool, k: nat)
    requires k < |c| && AllFail(c, ask, over, k) && !over(k) && ask(c[k]).Error?
    ensures AllFail(c, ask, over, k + 1)
  {
  }

  class FallbackChain<R> {
    var links: seq<Link>

    predicate Valid()
      reads this
    {
      links != []
    }

    constructor (n: nat)
      requires n > 0
      ensures Valid() && links == seq(n, k => Link(0, None))
    {
      links := seq(n, k => Link(0, None));
    }

    method Candidates(now: int) returns (c: seq<nat>)
      requires Valid()
      ensures c == CandidatesOf(links, now) && c != [] && Ascending(c, |links|)
    {
      CandidatesSpec(links, now);
      hide Eligible;
      var live := [];
      for k := 0 to |links|
        invariant live == LiveOf(links[..k], now)
      {
        assert links[..k + 1][..k] == links[..k];
        if Eligible(links[k], now) {
          live := live + [k];
        }
      }
      assert links[..|links|] == links;
      c := if |live| == 0 then Positions(|links|) else live;
    }

    method RecordSuccess(i: nat)
      requires i < |links|
      modifies this
      ensures links == old(links)[i := Succeeded(old(links)[i])]
    {
      links := links[i := links[i].(failures := 0, downUntil := None)];
    }

    method RecordFailure(i: nat, now: int) returns (cooldown: int)
      requires i < |links|
      modifies this
      ensures links == old(links)[i := FailedAt(old(links)[i], now)] && cooldown == Pause(links[i].failures)
    {
      var failures := links[i].failures + 1;
      var shift := failures - 1;
      if shift > MAX_SHIFT {
        shift := MAX_SHIFT;
      }
      cooldown := COOLDOWN * Pow2(shift);
      assert cooldown == Pause(failures);
      links := links[i := Link(failures, Some(now + cooldown))];
    }

    /** One attempt and its bookkeeping. */
    method Try(i: nat, ask: nat -> Outcome<R>, now: int) returns (o: Outcome<R>)
      requires i < |links|
      modifies this
      ensures o == ask(i) && links == old(links)[i := Recorded(old(links)[i], o.Answer?, now)]
    {
      o := ask(i);
      if o.Answer? {
        RecordSuccess(i);
      } else {
        var _ := RecordFailure(i, now);
      }
    }

    /** One call with nothing else running: `over(k)` is the context before attempt k, `clock(k + 1)` the
        time when that attempt is recorded, and `clock(0)` when the candidates are chosen. */
    method Analyze(ask: nat -> Outcome<R>, over: nat -> bool, clock: nat -> int) returns (r: Result<R>, p: nat)
      requires Valid()
      modifies this
      ensures FirstSuccess(CandidatesOf(old(links), clock(0)), ask, over, p, r)
      ensures links == Tried(old(links), CandidatesOf(old(links), clock(0)), p, ask, clock) && Valid()
    {
      hide CandidatesOf, Recorded, Ascending, Tried, AllFail;
      var c := Candidates(clock(0));
      AscendingWithin(c, |links|);
      r, p := TryInOrder(c, ask, over, clock);
    }

    method TryInOrder(c: seq<nat>, ask: nat -> Outcome<R>, over: nat -> bool, clock: nat -> int) returns (r: Result<R>, p: nat)
      requires forall k :: 0 <= k < |c| ==> c[k] < |links|
      modifies this
      ensures FirstSuccess(c, ask, over, p, r) && |links| == |old(links)|
      ensures links == Tried(old(links), c, p, ask, clock)
    {
      hide Recorded, Tried, AllFail;
      TriedNone(links, c, ask, clock);
      NoneFail(c, ask, over);
      p := 0;
      while p < |c|
        invariant p <= |c| && AllFail(c, ask, over, p)
        invariant links == Tried(old(links), c, p, ask, clock) && |links| == |old(links)|
        decreases |c| - p
      {
        if over(p) {
          return Aborted, p;
        }
        TriedNext(old(links), c, p, ask, clock);
        var o := Try(c[p], ask, clock(p + 1));
        if o.Answer? {
          return Done(o.result), p + 1;
        }
        OneMoreFails(c, ask, over, p);
        p := p + 1;
      }
      r := AllFailed;
    }
  }

  lemma {:induction false} NoneFail<R>(c: seq<nat>, ask: nat -> Outcome<R>, over: nat -> bool)
    ensures AllFail(c, ask, over, 0)
  {
  }

  function Present<A>(given: seq<Option<A>>): seq<A> {
    if given == [] then []
    else var n := |given| - 1; Present(given[..n]) + (if given[n].Some? then [given[n].value] else [])
  }

  /** The constructors: nil links are dropped, and a chain with no link left is an error. */
  method NewFallback<R, A>(given: seq<Option<A>>) returns (chain: Option<FallbackChain<R>>, kept: seq<A>)
    ensures chain.None? <==> forall k :: 0 <= k < |given| ==> given[k].None?
    ensures chain.Some? ==> chain.value.Valid() && chain.value.links == seq(|kept|, k => Link(0, None))
    ensures kept == Present(given)
  {
    kept := [];
    for k := 0 to |given|
      invariant kept == Present(given[..k])
      invariant kept == [] <==> forall j :: 0 <= j < k ==> given[j].None?
    {
      if given[k].Some? {
        kept := kept + [given[k].value];
      }
      assert given[..k + 1][..k] == given[..k];
    }
    assert given[..|given|] == given;
    if |kept| == 0 {
      chain := None;
    } else {
      var c := new FallbackChain<R>(|kept|);
      chain := Some(c);
    }
  }

  // -------------------------------------------------------------- concurrent calls

  datatype Status = Active | Returned(link: nat) | Exhausted | Cancelled
  datatype Call = Call(cands: seq<nat>, tried: nat, status: Status)
  /** A recorded attempt. */
  datatype Event = Event(call: nat, link: nat, ok: bool, at: int)
  datatype State = State(links: seq<Link>, calls: seq<Call>, log: seq<Event>)

  /** Each critical section, by any call in any order; the clock reading is the step's own. */
  datatype Step = Begin(now: int) | Attempt(call: nat, ok: bool, now: int) | Cancel(call: nat)

  function Advanced(c: Call, ok: bool): Call
    requires c.tried < |c.cands|
  {
    var status := if ok then Returned(c.cands[c.tried]) else if c.tried + 1 == |c.cands| then Exhausted else Active;
    Call(c.cands, c.tried + 1, status)
  }

  predicate CanAttempt(s: State, k: nat) {
    k < |s.calls| && s.calls[k].status == Active && s.calls[k].tried < |s.calls[k].cands|
    && s.calls[k].cands[s.calls[k].tried] < |s.links|
  }

  function Next(s: State, step: Step): State {
    match step
    case Begin(now) => s.(calls := s.calls + [Call(CandidatesOf(s.links, now), 0, Active)])
    case Attempt(k, ok, now) =>
      if !CanAttempt(s, k) then s else
      var i := s.calls[k].cands[s.calls[k].tried];
      State(s.links[i := Recorded(s.links[i], ok, now)], s.calls[k := Advanced(s.calls[k], ok)], s.log + [Event(k, i, ok, now)])
    case Cancel(k) =>
      if k < |s.calls| && s.calls[k].status == Active then s.(calls := s.calls[k := s.calls[k].(status := Cancelled)]) else s
  }

  function Start(n: nat): State { State(seq(n, k => Link(0, None)), [], []) }

  function Run(n: nat, steps: seq<Step>): State {
    if steps == [] then Start(n) else Next(Run(n, steps[..|steps| - 1]), steps[|steps| - 1])
  }

  /** How many attempts in a row the link has failed, counting back from the end of the history. */
  function Streak(log: seq<Event>, i: nat): nat {
    if log == [] then 0
    else
      var e := log[|log| - 1];
      if e.link != i then Streak(log[..|log| - 1], i) else if e.ok then 0 else 1 + Streak(log[..|log| - 1], i)
  }

  /** When the link last recorded anything. */
  function LastAt(log: seq<Event>, i: nat): Option<int> {
    if log == [] then None
    else if log[|log| - 1].link == i then Some(log[|log| - 1].at)
    else LastAt(log[..|log| - 1], i)
  }

  /** The link's fields as its history dictates. */
  predicate Tracks(l: Link, log: seq<Event>, i: nat) {
    l.failures == Streak(log, i) &&
    if Streak(log, i) == 0 then l.downUntil == None
    else LastAt(log, i).Some? && l.downUntil == Some(LastAt(log, i).value + Pause(Streak(log, i)))
  }

  function AttemptsOf(log: seq<Event>, k: nat): seq<Event> {
    if log == [] then []
    else AttemptsOf(log[..|log| - 1], k) + (if log[|log| - 1].call == k then [log[|log| - 1]] else [])
  }

  /** The call has tried its candidates in order, and stopped at the first success. */
  ghost predicate InOrder(c: Call, tries: seq<Event>, n: nat) {
    && c.cands != [] && Ascending(c.cands, n)
    && |tries| == c.tried <= |c.cands|
    && (forall j :: 0 <= j < c.tried ==> tries[j].link == c.cands[j])
    && (forall j :: 0 <= j < c.tried ==> (tries[j].ok <==> j == c.tried - 1 && c.status.Returned?))
    && (c.status.Returned? ==> c.tried > 0 && c.status.link == c.cands[c.tried - 1])
    && (c.status == Exhausted ==> c.tried == |c.cands|)
    && (c.status == Active ==> c.tried < |c.cands|)
  }

  ghost predicate LinksTrack(s: State) { forall i :: 0 <= i < |s.links| ==> Tracks(s.links[i], s.log, i) }
  ghost predicate CallsInOrder(s: State) {
    forall k :: 0 <= k < |s.calls| ==> InOrder(s.calls[k], AttemptsOf(s.log, k), |s.links|)
  }
  ghost predicate NoStrangers(s: State) { forall e :: e in s.log ==> e.call < |s.calls| }
  ghost predicate Good(s: State, n: nat) { |s.links| == n && LinksTrack(s) && CallsInOrder(s) && NoStrangers(s) }

  lemma {:induction false} StrangerTries(log: seq<Event>, k: nat)
    requires forall e :: e in log ==> e.call != k
    ensures AttemptsOf(log, k) == []
  {
    if log != [] {
      assert log[|log| - 1] in log;
      StrangerTries(log[..|log| - 1], k);
    }
  }

  lemma {:induction false} LogSnoc(log: seq<Event>, e: Event, i: nat, k: nat)
    ensures Streak(log + [e], i) == if e.link != i then Streak(log, i) else if e.ok then 0 else 1 + Streak(log, i)
    ensures LastAt(log + [e], i) == if e.link == i then Some(e.at) else LastAt(log, i)
    ensures AttemptsOf(log + [e], k) == AttemptsOf(log, k) + (if e.call == k then [e] else [])
  {
    assert (log + [e])[..|log|] == log;
  }

  lemma {:induction false} AttemptTracks(s: State, k: nat, ok: bool, now: int)
    requires LinksTrack(s) && CanAttempt(s, k)
    ensures LinksTrack(Next(s, Attempt(k, ok, now)))
  {
    var i := s.calls[k].cands[s.calls[k].tried];
    var e := Event(k, i, ok, now);
    hide Streak, LastAt, Pause;
    forall j: nat | j < |s.links| ensures Tracks(Next(s, Attempt(k, ok, now)).links[j], s.log + [e], j) {
      LogSnoc(s.log, e, j, k);
      assert Tracks(s.links[j], s.log, j);
    }
  }

  lemma {:induction false} AdvancedInOrder(c: Call, tries: seq<Event>, n: nat, e: Event)
    requires InOrder(c, tries, n) && c.status == Active && e.link == c.cands[c.tried]
    ensures InOrder(Advanced(c, e.ok), tries + [e], n)
  {
    hide Ascending;
    var d, more := Advanced(c, e.ok), tries + [e];
    forall j | 0 <= j < d.tried ensures more[j].link == d.cands[j] && (more[j].ok <==> j == d.tried - 1 && d.status.Returned?) {
      if j < c.tried {
        assert more[j] == tries[j] && !tries[j].ok;
      }
    }
  }

  lemma {:induction false} AttemptInOrder(s: State, k: nat, ok: bool, now: int)
    requires CallsInOrder(s) && CanAttempt(s, k)
    ensures CallsInOrder(Next(s, Attempt(k, ok, now)))
  {
    var i := s.calls[k].cands[s.calls[k].tried];
    var e := Event(k, i, ok, now);
    hide AttemptsOf, Recorded, InOrder;
    var t := Next(s, Attempt(k, ok, now));
    forall j: nat | j < |s.calls| ensures InOrder(t.calls[j], AttemptsOf(t.log, j), |t.links|) {
      LogSnoc(s.log, e, i, j);
      assert InOrder(s.calls[j], AttemptsOf(s.log, j), |s.links|);
      if j == k {
        AdvancedInOrder(s.calls[k], AttemptsOf(s.log, k), |s.links|, e);
      }
    }
  }

  lemma {:induction false} StepKeeps(s: State, n: nat, step: Step)
    requires n > 0 && Good(s, n)
    ensures Good(Next(s, step), n)
  {
    match step
    case Begin(now) =>
      CandidatesSpec(s.links, now);
      StrangerTries(s.log, |s.calls|);
      hide CandidatesOf, Tracks, AttemptsOf, Ascending;
    case Attempt(k, ok, now) =>
      if CanAttempt(s, k) {
        AttemptTracks(s, k, ok, now);
        AttemptInOrder(s, k, ok, now);
        hide LinksTrack, CallsInOrder, CanAttempt;
      }
    case Cancel(k) =>
      hide Tracks, AttemptsOf, Ascending;
  }

  lemma {:induction false} RunGood(n: nat, steps: seq<Step>)
    requires n > 0
    ensures Good(Run(n, steps), n)
  {
    if steps != [] {
      RunGood(n, steps[..|steps| - 1]);
      hide Good, Next;
      StepKeeps(Run(n, steps[..|steps| - 1]), n, steps[|steps| - 1]);
    }
  }

  /** Step `j` of the run begins call `k`. */
  predicate Begins(n: nat, steps: seq<Step>, j: nat, k: nat) {
    j < |steps| && steps[j].Begin? && |Run(n, steps[..j]).calls| == k
  }

  /** A call keeps the candidates it chose when it began. */
  lemma {:induction false} ChosenAtBegin(n: nat, steps: seq<Step>, k: nat) returns (j: nat)
    requires k < |Run(n, steps).calls|
    ensures Begins(n, steps, j, k) && Run(n, steps).calls[k].cands == CandidatesOf(Run(n, steps[..j]).links, steps[j].now)
  {
    hide CandidatesOf, Recorded;
    var m := |steps| - 1;
    if k < |Run(n, steps[..m]).calls| {
      j := ChosenAtBegin(n, steps[..m], k);
      assert steps[..m][..j] == steps[..j] && steps[..m][j] == steps[j];
    } else {
      j := m;
    }
  }

  /** In every interleaving a call tries the links that were eligible when it began, in priority order,
      and answers with the first that succeeds; one that fails has seen all of them fail. */
  lemma {:induction false} CallsReturnTheFirstSuccess(n: nat, steps: seq<Step>, k: nat) returns (j: nat)
    requires n > 0 && k < |Run(n, steps).calls|
    ensures InOrder(Run(n, steps).calls[k], AttemptsOf(Run(n, steps).log, k), n)
    ensures Begins(n, steps, j, k) && Run(n, steps).calls[k].cands == CandidatesOf(Run(n, steps[..j]).links, steps[j].now)
  {
    j := ChosenAtBegin(n, steps, k);
    RunGood(n, steps);
    hide Run, InOrder;
  }

  lemma {:induction false} PauseBounds(k: nat)
    ensures 30_000_000_000 <= Pause(k) <= 960_000_000_000 && Pause(1) == 30_000_000_000
    ensures k >= 6 ==> Pause(k) == 960_000_000_000
    ensures 1 <= k < 6 ==> Pause(k + 1) == 2 * Pause(k)
  {
    assert Pow2(0) == 1 && Pow2(1) == 2 && Pow2(2) == 4 && Pow2(3) == 8 && Pow2(4) == 16 && Pow2(5) == 32;
  }

  /** A link sits out exactly from its last failure until the pause for its current streak is over. */
  lemma {:induction false} SitsOutExactly(n: nat, steps: seq<Step>, i: nat, now: int)
    requires i < n
    ensures var s := Run(n, steps);
      var k := Streak(s.log, i);
      |s.links| == n && (Eligible(s.links[i], now) <==>
        (k > 0 ==> LastAt(s.log, i).Some? && now >= LastAt(s.log, i).value + Pause(k)))
  {
    RunGood(n, steps);
    hide Run, Streak, LastAt, Pause, CallsInOrder;
    var s := Run(n, steps);
    assert Tracks(s.links[i], s.log, i);
  }

  /** Every link is a candidate again sixteen minutes after its last failure at the latest. */
  lemma {:induction false} BackWithinSixteenMinutes(n: nat, steps: seq<Step>, i: nat, now: int)
    requires i < n
    requires var log := Run(n, steps).log;
      Streak(log, i) > 0 && LastAt(log, i).Some? ==> now >= LastAt(log, i).value + 960_000_000_000
    ensures i in CandidatesOf(Run(n, steps).links, now)
  {
    SitsOutExactly(n, steps, i, now);
    hide Run, Streak, LastAt, Pause;
    var s := Run(n, steps);
    PauseBounds(Streak(s.log, i));
    RunGood(n, steps);
    CandidatesSpec(s.links, now);
    assert Eligible(s.links[i], now) by { assert Tracks(s.links[i], s.log, i); }
  }
}
