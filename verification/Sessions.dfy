/**
 Revocable sessions (gateway-service/internal/auth/sessions.go): one gateway replica's cache of
 revoked token ids over the database, in every timed interleaving of requests, refreshes and
 revocations.  Times are nanoseconds on one clock.
 */
module Sessions {
  import opened Options

  const SECOND: int := 1_000_000_000
  const TTL: int := 30 * SECOND
  const TOKEN_LIFE: int := 24 * 3600 * SECOND
  /** How far back a refresh loads revocations: the token life and an hour. */
  const RETENTION: int := TOKEN_LIFE + 3600 * SECOND

  /** The cached set, and when it was installed (`None`: never). */
  datatype Cache = Cache(revoked: set<string>, lastRefresh: Option<int>)

  predicate Stale(c: Cache, now: int) { c.lastRefresh.None? || now - c.lastRefresh.value > TTL }

  /** SELECT id … WHERE revoked_at > now() - retention */
  function Snapshot(revokedAt: map<string, int>, now: int): set<string> {
    set j | j in revokedAt && revokedAt[j] > now - RETENTION
  }

  function Named(jtis: seq<string>): set<string> { set j | j in jtis && j != "" }

  /** The object behind the mutex; every method is one critical section. */
  class SessionStore {
    var revoked: set<string>
    var lastRefresh: Option<int>

    function View(): Cache
      reads this
    {
      Cache(revoked, lastRefresh)
    }

    constructor ()
      ensures View() == Cache({}, None)
    {
      revoked, lastRefresh := {}, None;
    }

    /** The end of `refresh`: the queried rows replace the whole set, stamped now. */
    method Install(rows: set<string>, now: int)
      modifies this
      ensures View() == Cache(rows, Some(now))
    {
      revoked := rows;
      lastRefresh := Some(now);
    }

    method IsStale(now: int) returns (stale: bool)
      ensures stale == Stale(View(), now)
    {
      stale := lastRefresh.None? || now - lastRefresh.value > TTL;
    }

    method MarkRevokedLocal(jtis: seq<string>)
      modifies this`revoked
      ensures View() == old(View()).(revoked := old(revoked) + Named(jtis))
    {
      for k := 0 to |jtis|
        invariant revoked == old(revoked) + Named(jtis[..k])
      {
        assert jtis[..k + 1] == jtis[..k] + [jtis[k]];
        if jtis[k] != "" {
          revoked := revoked + {jtis[k]};
        }
      }
      assert jtis[..|jtis|] == jtis;
    }

    method Lookup(jti: string) returns (yes: bool)
      ensures yes == (jti in View().revoked)
    {
      yes := jti in revoked;
    }

    /** `IsRevoked` with nobody else running: `rows` is what a refresh would read, `None` a failed query,
        and `installed` the time it would be installed. */
    method IsRevoked(jti: string, now: int, rows: Option<set<string>>, installed: int) returns (yes: bool)
      modifies this
      ensures jti == "" ==> !yes && View() == old(View())
      ensures var stale := old(lastRefresh).None? || now - old(lastRefresh).value > 30_000_000_000;
        && (jti != "" && stale && rows.Some? ==> yes == (jti in rows.value) && View() == Cache(rows.value, Some(installed)))
        && (jti != "" && !(stale && rows.Some?) ==> yes == (jti in old(revoked)) && View() == old(View()))
    {
      if jti == "" {
        return false;
      }
      var stale := IsStale(now);
      if stale && rows.Some? {
        Install(rows.value, installed);
      }
      yes := Lookup(jti);
    }
  }

  // ------------------------------------------------------------ interleaving

  /** Where a request stands inside `IsRevoked`; `start` is when it came in.  A refresh entered at
      `begun` reads the database at `at`.  `ok` is false when the request's own refresh failed. */
  datatype Request =
    | Idle
    | Asked(jti: string, start: int)
    | Refreshing(jti: string, start: int, begun: int)
    | Queried(jti: string, start: int, begun: int, at: int, rows: set<string>)
    | Ready(jti: string, start: int, ok: bool)

  /** `asOf` is the database instant the installed set was read at. */
  datatype State = State(now: int, revokedAt: map<string, int>, cache: Cache, asOf: int, requests: seq<Request>)

  datatype Step =
    | Tick(d: nat)
    | Revoke(jti: string)
    | MarkLocal(jti: string)
    | Ask(r: nat, jti: string)
    | Check(r: nat)
    | Query(r: nat, read: set<string>)
    | QueryFails(r: nat)
    | Install(r: nat)
    | Answer(r: nat, revoked: bool)

  /** `longest` bounds how long a refresh takes from entry to install. */
  predicate Enabled(s: State, longest: nat, step: Step) {
    match step
    case Tick(_) => true
    case Revoke(jti) => jti !in s.revokedAt
    case MarkLocal(jti) => jti in s.revokedAt && jti != ""
    case Ask(r, jti) => r < |s.requests| && s.requests[r].Idle? && jti != ""
    case Check(r) => r < |s.requests| && s.requests[r].Asked?
    case Query(r, read) => r < |s.requests| && s.requests[r].Refreshing? && read <= Snapshot(s.revokedAt, s.now)
    case QueryFails(r) => r < |s.requests| && s.requests[r].Refreshing?
    case Install(r) => r < |s.requests| && s.requests[r].Queried? && s.now - s.requests[r].begun <= longest
    case Answer(r, revoked) => r < |s.requests| && s.requests[r].Ready? && revoked == (s.requests[r].jti in s.cache.revoked)
  }

  function Moved(s: State, r: nat, q: Request): State
    requires r < |s.requests|
  {
    s.(requests := s.requests[r := q])
  }

  function Next(s: State, longest: nat, step: Step): State
    requires Enabled(s, longest, step)
  {
    match step
    case Tick(d) => s.(now := s.now + d)
    case Revoke(jti) => s.(revokedAt := s.revokedAt[jti := s.now])
    case MarkLocal(jti) => s.(cache := s.cache.(revoked := s.cache.revoked + {jti}))
    case Ask(r, jti) => Moved(s, r, Asked(jti, s.now))
    case Check(r) =>
      var q := s.requests[r];
      Moved(s, r, if Stale(s.cache, s.now) then Refreshing(q.jti, q.start, s.now) else Ready(q.jti, q.start, true))
    case Query(r, read) =>
      var q := s.requests[r];
      Moved(s, r, Queried(q.jti, q.start, q.begun, s.now, read))
    case QueryFails(r) => Moved(s, r, Ready(s.requests[r].jti, s.requests[r].start, false))
    case Install(r) =>
      var q := s.requests[r];
      Moved(s, r, Ready(q.jti, q.start, true)).(cache := Cache(q.rows, Some(s.now)), asOf := q.at)
    case Answer(r, _) => Moved(s, r, Idle)
  }

  /** If the token was revoked before `at`, and recently enough to be loaded, it is in `rows`. */
  predicate Covers(revokedAt: map<string, int>, at: int, rows: set<string>, jti: string) {
    jti in revokedAt && at - RETENTION < revokedAt[jti] < at ==> jti in rows
  }

  /** A read that does not lose the token's row; rows that cannot be scanned, and those after the
      connection breaks, are skipped without an error. */
  predicate Sees(s: State, step: Step, jti: string) {
    step.Query? && jti in Snapshot(s.revokedAt, s.now) ==> jti in step.read
  }

  predicate RequestOk(s: State, q: Request, jti: string) {
    match q
    case Idle => true
    case Asked(_, start) => start <= s.now
    case Refreshing(_, start, begun) => start <= begun <= s.now
    case Queried(_, start, begun, at, rows) => start <= begun <= at <= s.now && Covers(s.revokedAt, at, rows, jti)
    case Ready(_, start, ok) => ok ==> s.cache.lastRefresh.Some? && start - TTL <= s.cache.lastRefresh.value
  }

  predicate Inv(s: State, longest: nat, jti: string) {
    && (s.cache.lastRefresh.Some? ==>
          s.cache.lastRefresh.value - longest <= s.asOf <= s.cache.lastRefresh.value <= s.now
          && Covers(s.revokedAt, s.asOf, s.cache.revoked, jti))
    && (forall j :: j in s.revokedAt ==> s.revokedAt[j] <= s.now)
    && (forall r :: 0 <= r < |s.requests| ==> RequestOk(s, s.requests[r], jti))
  }

  lemma {:induction false} MoveKeeps(s: State, longest: nat, jti: string, r: nat, q: Request)
    requires Inv(s, longest, jti) && r < |s.requests| && RequestOk(s, q, jti)
    ensures Inv(Moved(s, r, q), longest, jti)
  {
    hide Covers;
    var s' := Moved(s, r, q);
    forall k | 0 <= k < |s'.requests|
      ensures RequestOk(s', s'.requests[k], jti)
    {
      assert RequestOk(s, s.requests[k], jti);
    }
  }

  lemma {:induction false} WorldKeeps(s: State, longest: nat, jti: string, step: Step)
    requires Inv(s, longest, jti) && (step.Tick? || step.Revoke? || step.MarkLocal?) && Enabled(s, longest, step)
    ensures Inv(Next(s, longest, step), longest, jti)
  {
    var s' := Next(s, longest, step);
    forall r | 0 <= r < |s'.requests|
      ensures RequestOk(s', s'.requests[r], jti)
    {
      assert RequestOk(s, s.requests[r], jti);
    }
  }

  lemma {:induction false} InstallKeeps(s: State, longest: nat, jti: string, r: nat)
    requires Inv(s, longest, jti) && Enabled(s, longest, Install(r))
    ensures Inv(Next(s, longest, Install(r)), longest, jti)
  {
    hide Covers;
    var s' := Next(s, longest, Install(r));
    assert RequestOk(s, s.requests[r], jti);
    forall k | 0 <= k < |s'.requests|
      ensures RequestOk(s', s'.requests[k], jti)
    {
      assert RequestOk(s, s.requests[k], jti);
    }
  }

  lemma {:induction false} StepKeeps(s: State, longest: nat, jti: string, step: Step)
    requires Inv(s, longest, jti) && Enabled(s, longest, step) && Sees(s, step, jti)
    ensures Inv(Next(s, longest, step), longest, jti)
  {
    if step.Tick? || step.Revoke? || step.MarkLocal? {
      hide Inv, Next, Enabled;
      WorldKeeps(s, longest, jti, step);
    } else if step.Install? {
      hide Inv, Next, Enabled;
      InstallKeeps(s, longest, jti, step.r);
    } else {
      assert RequestOk(s, s.requests[step.r], jti);
      hide Inv;
      MoveKeeps(s, longest, jti, step.r, Next(s, longest, step).requests[step.r]);
    }
  }

  predicate Runs(s: State, longest: nat, steps: seq<Step>)
    decreases |steps|
  {
    steps == [] || (Enabled(s, longest, steps[0]) && Runs(Next(s, longest, steps[0]), longest, steps[1..]))
  }

  function After(s: State, longest: nat, steps: seq<Step>): State
    requires Runs(s, longest, steps)
    decreases |steps|
  {
    if steps == [] then s else After(Next(s, longest, steps[0]), longest, steps[1..])
  }

  /** No read of the run loses the token's row. */
  predicate AllSee(s: State, longest: nat, steps: seq<Step>, jti: string)
    requires Runs(s, longest, steps)
    decreases |steps|
  {
    steps == [] || (Sees(s, steps[0], jti) && AllSee(Next(s, longest, steps[0]), longest, steps[1..], jti))
  }

  lemma {:induction false} RunKeeps(s: State, longest: nat, jti: string, steps: seq<Step>)
    requires Inv(s, longest, jti) && Runs(s, longest, steps) && AllSee(s, longest, steps, jti)
    ensures Inv(After(s, longest, steps), longest, jti)
    decreases |steps|
  {
    if steps != [] {
      hide Inv, Enabled, Next, Sees;
      StepKeeps(s, longest, jti, steps[0]);
      RunKeeps(Next(s, longest, steps[0]), longest, jti, steps[1..]);
    }
  }

  /** A replica that has just started: nothing cached, nothing in flight. */
  predicate Fresh(s: State) {
    && s.cache == Cache({}, None)
    && (forall j :: j in s.revokedAt ==> s.revokedAt[j] <= s.now)
    && (forall r :: 0 <= r < |s.requests| ==> s.requests[r].Idle?)
  }

  /** A revoked token is rejected, for the 24 hours of its life and the hour of slack after them, on every
      request that came in more than 30 seconds plus the longest refresh after the revocation,
      in every interleaving, unless that request's own refresh failed or a read lost the row. */
  lemma {:induction false} RevocationTakesHold(s: State, longest: nat, steps: seq<Step>, r: nat, issued: int)
    requires Fresh(s) && Runs(s, longest, steps)
    requires var s' := After(s, longest, steps);
      && r < |s'.requests| && s'.requests[r].Ready? && s'.requests[r].ok
      && var jti := s'.requests[r].jti;
         && jti in s'.revokedAt && issued <= s'.revokedAt[jti] && s'.now < issued + 86_400_000_000_000 + 3_600_000_000_000
         && s'.requests[r].start > s'.revokedAt[jti] + 30_000_000_000 + longest
         && AllSee(s, longest, steps, jti)
    ensures var s' := After(s, longest, steps);
      s'.requests[r].jti in s'.cache.revoked && !Enabled(s', longest, Answer(r, false))
  {
    var s' := After(s, longest, steps);
    var jti := s'.requests[r].jti;
    RunKeeps(s, longest, jti, steps);
    hide Runs, After, AllSee;
    assert RequestOk(s', s'.requests[r], jti);
  }

  /** A refresh loads the revocations of the last 25 hours and no older ones. */
  lemma {:induction false} OldRowsAreNotLoaded(revokedAt: map<string, int>, now: int, jti: string)
    ensures jti in Snapshot(revokedAt, now) <==> jti in revokedAt && now - revokedAt[jti] < 90_000_000_000_000
  {
  }

  // ------------------------------------------------------- the bound is exact

  /** A refresh that read the database just before a revocation, and is installed `longest` later. */
  function SlowRefresh(jti: string, longest: nat): seq<Step> {
    [Ask(0, jti), Check(0), Query(0, {}), Revoke(jti), MarkLocal(jti), Tick(longest), Install(0), Answer(0, false),
     Tick(30_000_000_000), Ask(0, jti), Check(0), Answer(0, false)]
  }

  lemma {:induction false} RunStep(s: State, longest: nat, steps: seq<Step>)
    requires steps != [] && Enabled(s, longest, steps[0])
    ensures Runs(s, longest, steps) == Runs(Next(s, longest, steps[0]), longest, steps[1..])
    ensures Runs(s, longest, steps) ==>
      After(s, longest, steps) == After(Next(s, longest, steps[0]), longest, steps[1..])
  {
    hide Enabled, Next;
  }

  /** The states that run goes through. */
  function SlowState(jti: string, longest: nat, i: nat): State {
    var end: int := longest as int;
    var now := if i < 6 then 0 else if i < 9 then end else end + TTL;
    State(now,
      if i < 4 then map[] else map[jti := 0],
      Cache(if 5 <= i < 7 then {jti} else {}, if i < 7 then None else Some(end)),
      0,
      [if i == 0 then Idle else if i == 1 then Asked(jti, 0) else if i == 2 then Refreshing(jti, 0, 0)
       else if i < 7 then Queried(jti, 0, 0, 0, {}) else if i == 7 then Ready(jti, 0, true)
       else if i < 10 then Idle else if i == 10 then Asked(jti, end + TTL)
       else if i == 11 then Ready(jti, end + TTL, true) else Idle])
  }

  lemma {:induction false} SlowStep(jti: string, longest: nat, i: nat)
    requires i < 12 && jti != ""
    ensures Enabled(SlowState(jti, longest, i), longest, SlowRefresh(jti, longest)[i])
    ensures Next(SlowState(jti, longest, i), longest, SlowRefresh(jti, longest)[i]) == SlowState(jti, longest, i + 1)
  {
    var s, step := SlowState(jti, longest, i), SlowRefresh(jti, longest)[i];
    assert Snapshot(map[], 0) == {};
    var got, want := Next(s, longest, step), SlowState(jti, longest, i + 1);
    assert got.requests == want.requests;
    assert got.cache.revoked == want.cache.revoked;
  }

  lemma {:induction false} SlowRun(jti: string, longest: nat, i: nat)
    requires i <= 12 && jti != ""
    ensures Runs(SlowState(jti, longest, i), longest, SlowRefresh(jti, longest)[i..])
    ensures After(SlowState(jti, longest, i), longest, SlowRefresh(jti, longest)[i..]) == SlowState(jti, longest, 12)
    decreases 12 - i
  {
    if i < 12 {
      hide Enabled, Next, SlowState, SlowRefresh;
      SlowSize(jti, longest);
      SlowStep(jti, longest, i);
      SlowRun(jti, longest, i + 1);
      var steps := SlowRefresh(jti, longest);
      assert steps[i..][0] == steps[i] && steps[i..][1..] == steps[i + 1..];
      RunStep(SlowState(jti, longest, i), longest, steps[i..]);
    }
  }

  lemma {:induction false} SlowSize(jti: string, longest: nat)
    ensures |SlowRefresh(jti, longest)| == 12
  {
  }

  /** The cache TTL alone is not a bound, and a local mark is not durable: for every refresh duration
      there is a run in which a token revoked at time 0 and marked locally is still accepted by a
      request that starts exactly TTL plus that duration later. */
  lemma {:induction false} BoundIsExact(jti: string, longest: nat)
    requires jti != ""
    ensures var s := State(0, map[], Cache({}, None), 0, [Idle]);
      && Fresh(s) && Runs(s, longest, SlowRefresh(jti, longest))
      && After(s, longest, SlowRefresh(jti, longest)).now == 30_000_000_000 + longest
      && After(s, longest, SlowRefresh(jti, longest)).revokedAt == map[jti := 0]
  {
    SlowRun(jti, longest, 0);
    var steps := SlowRefresh(jti, longest);
    assert steps[0..] == steps;
  }

  // ------------------------------------------------------- a read cut short

  /** A refresh whose read breaks off before the token's row, well after the bound. */
  function CutShort(jti: string, longest: nat): seq<Step> {
    [Revoke(jti), Tick(TTL + longest + 1), Ask(0, jti), Check(0), Query(0, {}), Install(0), Answer(0, false)]
  }

  function CutState(jti: string, longest: nat, i: nat): State {
    var late: int := TTL + longest + 1;
    State(if i < 2 then 0 else late, if i < 1 then map[] else map[jti := 0],
      Cache({}, if i < 6 then None else Some(late)),
      if i < 6 then 0 else late,
      [if i < 3 then Idle else if i == 3 then Asked(jti, late) else if i == 4 then Refreshing(jti, late, late)
       else if i == 5 then Queried(jti, late, late, late, {}) else if i == 6 then Ready(jti, late, true) else Idle])
  }

  lemma {:induction false} CutStep(jti: string, longest: nat, i: nat)
    requires i < 7 && jti != ""
    ensures Enabled(CutState(jti, longest, i), longest, CutShort(jti, longest)[i])
    ensures Next(CutState(jti, longest, i), longest, CutShort(jti, longest)[i]) == CutState(jti, longest, i + 1)
  {
    var s, step := CutState(jti, longest, i), CutShort(jti, longest)[i];
    var got, want := Next(s, longest, step), CutState(jti, longest, i + 1);
    assert got.requests == want.requests;
  }

  lemma {:induction false} CutSize(jti: string, longest: nat)
    ensures |CutShort(jti, longest)| == 7
  {
  }

  lemma {:induction false} CutRun(jti: string, longest: nat, i: nat)
    requires i <= 7 && jti != ""
    ensures Runs(CutState(jti, longest, i), longest, CutShort(jti, longest)[i..])
    ensures After(CutState(jti, longest, i), longest, CutShort(jti, longest)[i..]) == CutState(jti, longest, 7)
    decreases 7 - i
  {
    hide Enabled, Next, CutState, CutShort;
    CutSize(jti, longest);
    if i < 7 {
      CutStep(jti, longest, i);
      CutRun(jti, longest, i + 1);
      var steps := CutShort(jti, longest);
      assert steps[i..][0] == steps[i] && steps[i..][1..] == steps[i + 1..];
      RunStep(CutState(jti, longest, i), longest, steps[i..]);
    }
  }

  /** Reading every row is needed: a read cut short is installed and stamped as fresh, and a token
      revoked at time 0 is accepted by a request that starts after any bound. */
  lemma {:induction false} LostRowsForget(jti: string, longest: nat)
    requires jti != ""
    ensures var s := State(0, map[], Cache({}, None), 0, [Idle]);
      && Fresh(s) && Runs(s, longest, CutShort(jti, longest))
      && After(s, longest, CutShort(jti, longest)).now == 30_000_000_000 + longest + 1
      && After(s, longest, CutShort(jti, longest)).revokedAt == map[jti := 0]
  {
    CutRun(jti, longest, 0);
    var steps := CutShort(jti, longest);
    assert steps[0..] == steps;
  }

  // -------------------------------------------------- a refresh that fails

  /** The request's own refresh fails, and it is judged by what is cached. */
  function FailedRefresh(jti: string): seq<Step> { [Ask(0, jti), Check(0), QueryFails(0), Answer(0, false)] }

  function FailedState(jti: string, revoked: int, now: int, i: nat): State {
    State(now, map[jti := revoked], Cache({}, None), 0,
      [if i == 1 then Asked(jti, now) else if i == 2 then Refreshing(jti, now, now) else if i == 3 then Ready(jti, now, false) else Idle])
  }

  lemma {:induction false} FailedStep(jti: string, revoked: int, now: int, longest: nat, i: nat)
    requires i < 4 && jti != ""
    ensures Enabled(FailedState(jti, revoked, now, i), longest, FailedRefresh(jti)[i])
    ensures Next(FailedState(jti, revoked, now, i), longest, FailedRefresh(jti)[i]) == FailedState(jti, revoked, now, i + 1)
  {
  }

  lemma {:induction false} FailedRun(jti: string, revoked: int, now: int, longest: nat, i: nat)
    requires i <= 4 && jti != ""
    ensures Runs(FailedState(jti, revoked, now, i), longest, FailedRefresh(jti)[i..])
    decreases 4 - i
  {
    hide Enabled, Next, FailedState, FailedRefresh;
    FailedSize(jti);
    if i < 4 {
      FailedStep(jti, revoked, now, longest, i);
      FailedRun(jti, revoked, now, longest, i + 1);
      var steps := FailedRefresh(jti);
      assert steps[i..][0] == steps[i] && steps[i..][1..] == steps[i + 1..];
      RunStep(FailedState(jti, revoked, now, i), longest, steps[i..]);
    }
  }

  lemma {:induction false} FailedSize(jti: string)
    ensures |FailedRefresh(jti)| == 4
  {
  }

  /** A refresh that succeeds is needed: after one that fails, a replica that has just started accepts a
      token however long ago it was revoked, though no read lost a row. */
  lemma {:induction false} FailedRefreshAccepts(jti: string, revoked: int, now: int, longest: nat)
    requires jti != "" && revoked <= now
    ensures var s := State(now, map[jti := revoked], Cache({}, None), 0, [Idle]);
      Fresh(s) && Runs(s, longest, FailedRefresh(jti)) && AllSee(s, longest, FailedRefresh(jti), jti)
  {
    FailedRun(jti, revoked, now, longest, 0);
    var steps := FailedRefresh(jti);
    assert steps[0..] == steps;
    var s := State(now, map[jti := revoked], Cache({}, None), 0, [Idle]);
    NoQuerySees(s, longest, steps, jti);
  }

  /** A run without reads loses no row. */
  lemma {:induction false} NoQuerySees(s: State, longest: nat, steps: seq<Step>, jti: string)
    requires Runs(s, longest, steps) && forall step :: step in steps ==> !step.Query?
    ensures AllSee(s, longest, steps, jti)
    decreases |steps|
  {
    if steps != [] {
      hide Enabled, Next;
      assert steps[0] in steps && forall step :: step in steps[1..] ==> step in steps;
      NoQuerySees(Next(s, longest, steps[0]), longest, steps[1..], jti);
    }
  }
}
