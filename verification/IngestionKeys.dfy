/**
 Ingestion-key resolution (gateway-service/internal/auth/ingestion_keys.go): a TTL cache over
 the key table, in every timed interleaving with key creation, revocation, rotation and cache
 invalidation.  Times are nanoseconds on one clock; a key is named by its hash.
 */
module IngestionKeys {
  import opened Options

  const SECOND: int := 1_000_000_000
  const TTL: int := 30 * SECOND
  const MAX_GRACE: int := 30 * 24 * 3600 * SECOND

  datatype Grant = Grant(tenant: string, tier: string, scope: string)

  /** `revokedAt` may lie in the future: the grace window of a rotation. */
  datatype Key = Key(grant: Grant, revokedAt: Option<int>)

  type Db = map<string, Key>

  /** revoked_at IS NULL OR revoked_at > now() */
  predicate Live(k: Key, now: int) { k.revokedAt.None? || k.revokedAt.value > now }

  /** The database's own answer. */
  function Ask(db: Db, now: int, hash: string): Option<Grant> {
    if hash in db && Live(db[hash], now) then Some(db[hash].grant) else None
  }

  datatype Entry = Entry(answer: Option<Grant>, cachedAt: int)

  class IngestionKeyStore {
    var cache: map<string, Entry>

    constructor ()
      ensures cache == map[]
    {
      cache := map[];
    }

    /** `Resolve` with nobody else running: `now` is the call's time, `fails` a database error. */
    method Resolve(plaintext: string, hash: string, db: Db, now: int, fails: bool) returns (answer: Option<Grant>)
      modifies this
      ensures plaintext == "" ==> answer == None && cache == old(cache)
      ensures plaintext != "" && hash in old(cache) && now - old(cache)[hash].cachedAt < 30_000_000_000 ==>
        answer == old(cache)[hash].answer && cache == old(cache)
      ensures plaintext != "" && !(hash in old(cache) && now - old(cache)[hash].cachedAt < 30_000_000_000) ==>
        if fails then answer == None && cache == old(cache)
        else answer == Ask(db, now, hash) && cache == old(cache)[hash := Entry(answer, now)]
    {
      if plaintext == "" {
        return None;
      }
      if hash in cache && now - cache[hash].cachedAt < TTL {
        return cache[hash].answer;
      }
      if fails {
        return None;
      }
      answer := Ask(db, now, hash);
      cache := cache[hash := Entry(answer, now)];
    }

    method InvalidateCache()
      modifies this
      ensures cache == map[]
    {
      cache := map[];
    }
  }

  // ------------------------------------------------------------ interleaving

  /** Where a call stands inside `Resolve`: it reads the cache entry, judges its age, stamps itself
      before querying, and stores what the query said. */
  datatype Call =
    | Idle
    | Asked(hash: string, start: int)
    | Looked(hash: string, start: int, entry: Option<Entry>)
    | Missed(hash: string, start: int, cachedAt: int)
    | Fetched(hash: string, start: int, cachedAt: int, answer: Option<Grant>)
    | Done(hash: string, start: int, answer: Option<Grant>)

  /** `RotateIngestionKey` loads a live key, then schedules its revocation in a later statement. */
  datatype Rotation = NoRotation | Loaded(hash: string, grant: Grant)

  /** The database at an instant of the run. */
  datatype Moment = Moment(time: int, db: Db)

  datatype State = State(now: int, db: Db, cache: map<string, Entry>, calls: seq<Call>, rotations: seq<Rotation>,
    history: seq<Moment>)

  datatype Step =
    | Tick(d: nat)
    | Create(hash: string, grant: Grant)
    | Revoke(hash: string)
    | RotateLoad(k: nat, hash: string)
    | RotateApply(k: nat, newHash: string, grace: nat)
    | Invalidate
    | Begin(c: nat, hash: string)
    | ReadCache(c: nat)
    | Judge(c: nat)
    | Query(c: nat)
    | QueryFails(c: nat)
    | Store(c: nat)
    | Return(c: nat)

  predicate At(s: State, c: nat, phase: Call -> bool) { c < |s.calls| && phase(s.calls[c]) }

  predicate Enabled(s: State, step: Step) {
    match step
    case Tick(_) => true
    case Create(hash, _) => hash !in s.db
    case Revoke(hash) => hash in s.db && Live(s.db[hash], s.now)
    case RotateLoad(k, hash) => k < |s.rotations| && s.rotations[k].NoRotation? && hash in s.db && Live(s.db[hash], s.now)
    case RotateApply(k, newHash, grace) =>
      k < |s.rotations| && s.rotations[k].Loaded? && s.rotations[k].hash in s.db && newHash !in s.db && grace <= MAX_GRACE
    case Invalidate => true
    case Begin(c, _) => At(s, c, (p: Call) => p.Idle?)
    case ReadCache(c) => At(s, c, (p: Call) => p.Asked?)
    case Judge(c) => At(s, c, (p: Call) => p.Looked?)
    case Query(c) => At(s, c, (p: Call) => p.Missed?)
    case QueryFails(c) => At(s, c, (p: Call) => p.Missed?)
    case Store(c) => At(s, c, (p: Call) => p.Fetched?)
    case Return(c) => At(s, c, (p: Call) => p.Done?)
  }

  function Moved(s: State, c: nat, p: Call): State
    requires c < |s.calls|
  {
    s.(calls := s.calls[c := p])
  }

  /** The age test on what the cache gave: a hit answers, a miss stamps the call now. */
  function Judged(p: Call, now: int): Call
    requires p.Looked?
  {
    if p.entry.Some? && now - p.entry.value.cachedAt < TTL then Done(p.hash, p.start, p.entry.value.answer)
    else Missed(p.hash, p.start, now)
  }

  function Move(s: State, step: Step): State
    requires Enabled(s, step)
  {
    match step
    case Tick(d) => s.(now := s.now + d)
    case Create(hash, grant) => s.(db := s.db[hash := Key(grant, None)])
    case Revoke(hash) => s.(db := s.db[hash := s.db[hash].(revokedAt := Some(s.now))])
    case RotateLoad(k, hash) => s.(rotations := s.rotations[k := Loaded(hash, s.db[hash].grant)])
    case RotateApply(k, newHash, grace) =>
      var r := s.rotations[k];
      s.(db := s.db[newHash := Key(r.grant, None)][r.hash := s.db[r.hash].(revokedAt := Some(s.now + grace))],
         rotations := s.rotations[k := NoRotation])
    case Invalidate => s.(cache := map[])
    case Begin(c, hash) => Moved(s, c, Asked(hash, s.now))
    case ReadCache(c) =>
      var p := s.calls[c];
      Moved(s, c, Looked(p.hash, p.start, if p.hash in s.cache then Some(s.cache[p.hash]) else None))
    case Judge(c) => Moved(s, c, Judged(s.calls[c], s.now))
    case Query(c) =>
      var p := s.calls[c];
      Moved(s, c, Fetched(p.hash, p.start, p.cachedAt, Ask(s.db, s.now, p.hash)))
    case QueryFails(c) => Moved(s, c, Idle)
    case Store(c) =>
      var p := s.calls[c];
      Moved(s, c, Done(p.hash, p.start, p.answer)).(cache := s.cache[p.hash := Entry(p.answer, p.cachedAt)])
    case Return(c) => Moved(s, c, Idle)
  }

  /** A step, and the new instant it leads to. */
  function Next(s: State, step: Step): State
    requires Enabled(s, step)
  {
    var t := Move(s, step);
    t.(history := s.history + [Moment(t.now, t.db)])
  }

  // -------------------------------------------------------------- invariant

  /** The database itself gave this answer at an instant no earlier than `from`. */
  ghost predicate Said(s: State, hash: string, answer: Option<Grant>, from: int) {
    exists k :: 0 <= k < |s.history| && from <= s.history[k].time <= s.now
      && answer == Ask(s.history[k].db, s.history[k].time, hash)
  }

  ghost predicate CallOk(s: State, p: Call) {
    match p
    case Idle => true
    case Asked(_, start) => start <= s.now
    case Looked(hash, start, entry) => start <= s.now && (entry.Some? ==> Said(s, hash, entry.value.answer, entry.value.cachedAt))
    case Missed(_, start, cachedAt) => start <= cachedAt <= s.now
    case Fetched(hash, start, cachedAt, answer) => start <= cachedAt && Said(s, hash, answer, cachedAt)
    case Done(hash, start, answer) => Said(s, hash, answer, start - TTL + 1)
  }

  /** The newest instant recorded is the present. */
  predicate Present(s: State) {
    s.history != [] && s.history[|s.history| - 1] == Moment(s.now, s.db)
  }

  ghost predicate Inv(s: State) {
    && Present(s)
    && (forall k :: 0 <= k < |s.history| ==> s.history[k].time <= s.now)
    && (forall h :: h in s.cache ==> Said(s, h, s.cache[h].answer, s.cache[h].cachedAt))
    && (forall c :: 0 <= c < |s.calls| ==> CallOk(s, s.calls[c]))
  }

  lemma {:induction false} SaidStays(s: State, t: State, hash: string, answer: Option<Grant>, from: int, from': int)
    requires Said(s, hash, answer, from) && from' <= from && s.now <= t.now && s.history <= t.history
    ensures Said(t, hash, answer, from')
  {
    hide Ask;
    var k :| 0 <= k < |s.history| && from <= s.history[k].time <= s.now
      && answer == Ask(s.history[k].db, s.history[k].time, hash);
    assert t.history[k] == s.history[k];
  }

  lemma {:induction false} CallStays(s: State, t: State, p: Call)
    requires CallOk(s, p) && s.now <= t.now && s.history <= t.history
    ensures CallOk(t, p)
  {
    hide Said;
    match p
    case Looked(hash, _, entry) =>
      if entry.Some? { SaidStays(s, t, hash, entry.value.answer, entry.value.cachedAt, entry.value.cachedAt); }
    case Fetched(hash, _, cachedAt, answer) => SaidStays(s, t, hash, answer, cachedAt, cachedAt);
    case Done(hash, start, answer) => SaidStays(s, t, hash, answer, start - TTL + 1, start - TTL + 1);
    case _ =>
  }

  lemma {:induction false} CacheStays(s: State, t: State, h: string)
    requires Inv(s) && h in s.cache && s.now <= t.now && s.history <= t.history
    ensures Said(t, h, s.cache[h].answer, s.cache[h].cachedAt)
  {
    hide Said;
    SaidStays(s, t, h, s.cache[h].answer, s.cache[h].cachedAt, s.cache[h].cachedAt);
  }

  lemma {:induction false} SaidNow(s: State, hash: string, from: int)
    requires Present(s) && from <= s.now
    ensures Said(s, hash, Ask(s.db, s.now, hash), from)
  {
    hide Ask;
    assert s.history[|s.history| - 1] == Moment(s.now, s.db);
  }

  /** The moving call reaches its next phase with an answer the database gave in time. */
  lemma {:induction false} MoverOk(s: State, step: Step)
    requires Inv(s) && Enabled(s, step)
    requires step.Begin? || step.ReadCache? || step.Judge? || step.Query? || step.QueryFails? || step.Store? || step.Return?
    ensures CallOk(Next(s, step), Next(s, step).calls[step.c])
  {
    hide Said, Ask;
    var t := Next(s, step);
    var c := step.c;
    var p := s.calls[c];
    assert CallOk(s, p);
    CallStays(s, t, p);
    match step
    case ReadCache(_) =>
      if p.hash in s.cache { CacheStays(s, t, p.hash); }
    case Judge(_) =>
      if t.calls[c].Done? {
        SaidStays(s, t, p.hash, p.entry.value.answer, p.entry.value.cachedAt, p.start - TTL + 1);
      }
    case Query(_) =>
      SaidNow(s, p.hash, p.cachedAt);
      SaidStays(s, t, p.hash, Ask(s.db, s.now, p.hash), p.cachedAt, p.cachedAt);
    case Store(_) =>
      SaidStays(s, t, p.hash, p.answer, p.cachedAt, p.start - TTL + 1);
    case _ =>
  }

  lemma {:induction false} Grows(s: State, step: Step)
    requires Enabled(s, step)
    ensures s.now <= Next(s, step).now && s.history <= Next(s, step).history && Present(Next(s, step))
  {
  }

  lemma {:induction false} OthersStand(s: State, step: Step, c: nat)
    requires Enabled(s, step) && c < |s.calls|
    requires step.Tick? || step.Create? || step.Revoke? || step.RotateLoad? || step.RotateApply? || step.Invalidate? || step.c != c
    ensures c < |Next(s, step).calls| && Next(s, step).calls[c] == s.calls[c]
  {
  }

  lemma {:induction false} CacheOk(s: State, step: Step, h: string)
    requires Inv(s) && Enabled(s, step) && h in Next(s, step).cache
    ensures Said(Next(s, step), h, Next(s, step).cache[h].answer, Next(s, step).cache[h].cachedAt)
  {
    hide Said, Ask;
    var t := Next(s, step);
    Grows(s, step);
    if step.Store? && h == s.calls[step.c].hash {
      assert CallOk(s, s.calls[step.c]);
      CallStays(s, t, s.calls[step.c]);
    } else {
      CacheStays(s, t, h);
    }
  }

  lemma {:induction false} StepKeeps(s: State, step: Step)
    requires Inv(s) && Enabled(s, step)
    ensures Inv(Next(s, step))
  {
    var t := Next(s, step);
    Grows(s, step);
    forall h | h in t.cache
      ensures Said(t, h, t.cache[h].answer, t.cache[h].cachedAt)
    {
      CacheOk(s, step, h);
    }
    SameCalls(s, step);
    forall c | 0 <= c < |t.calls|
      ensures CallOk(t, t.calls[c])
    {
      hide Next, Enabled, CallOk, Said;
      assert CallOk(s, s.calls[c]);
      if step.Tick? || step.Create? || step.Revoke? || step.RotateLoad? || step.RotateApply? || step.Invalidate? || step.c != c {
        OthersStand(s, step, c);
        CallStays(s, t, s.calls[c]);
      } else {
        MoverOk(s, step);
      }
    }
  }

  lemma {:induction false} SameCalls(s: State, step: Step)
    requires Enabled(s, step)
    ensures |Next(s, step).calls| == |s.calls|
  {
  }

  predicate Runs(s: State, steps: seq<Step>)
    decreases |steps|
  {
    steps == [] || (Enabled(s, steps[0]) && Runs(Next(s, steps[0]), steps[1..]))
  }

  function After(s: State, steps: seq<Step>): State
    requires Runs(s, steps)
    decreases |steps|
  {
    if steps == [] then s else After(Next(s, steps[0]), steps[1..])
  }

  lemma {:induction false} RunKeeps(s: State, steps: seq<Step>)
    requires Inv(s) && Runs(s, steps)
    ensures Inv(After(s, steps))
    decreases |steps|
  {
    if steps != [] {
      hide Inv, Enabled, Next;
      StepKeeps(s, steps[0]);
      RunKeeps(Next(s, steps[0]), steps[1..]);
    }
  }

  /** A gateway that has just started. */
  predicate Fresh(s: State) {
    s.cache == map[] && s.history == [Moment(s.now, s.db)] && forall c :: 0 <= c < |s.calls| ==> s.calls[c].Idle?
  }

  /** In every interleaving, a call that ends without a database error answers what the database
      itself answered at some instant less than 30 seconds before the call began, or during it. */
  lemma {:induction false} AnswersAreRecent(s: State, steps: seq<Step>, c: nat)
    requires Fresh(s) && Runs(s, steps) && c < |After(s, steps).calls| && After(s, steps).calls[c].Done?
    ensures var t := After(s, steps);
      Said(t, t.calls[c].hash, t.calls[c].answer, t.calls[c].start - 30_000_000_000 + 1)
  {
    RunKeeps(s, steps);
    hide Runs, After, Said;
    assert CallOk(After(s, steps), After(s, steps).calls[c]);
  }

  // ------------------------------------------------------------- revocation

  /** The key's revocation time is at most `r`, and no instant after `r` found it live. */
  predicate Shut(s: State, hash: string, r: int) {
    && hash in s.db && s.db[hash].revokedAt.Some? && s.db[hash].revokedAt.value <= r
    && forall k :: 0 <= k < |s.history| && s.history[k].time > r ==> Ask(s.history[k].db, s.history[k].time, hash) == None
  }

  /** A rotation's second statement on this key. */
  predicate Reschedules(s: State, step: Step, hash: string) {
    step.RotateApply? && step.k < |s.rotations| && s.rotations[step.k].Loaded? && s.rotations[step.k].hash == hash
  }

  lemma {:induction false} ShutStays(s: State, step: Step, hash: string, r: int)
    requires Enabled(s, step) && Shut(s, hash, r) && !Reschedules(s, step, hash)
    ensures Shut(Next(s, step), hash, r)
  {
    var t := Next(s, step);
    assert hash in t.db && t.db[hash].revokedAt.Some? && t.db[hash].revokedAt.value <= r by {
      if step.Revoke? && step.hash == hash { assert s.now < s.db[hash].revokedAt.value; }
    }
  }

  /** No step of the run reschedules the key. */
  predicate NeverRescheduled(s: State, steps: seq<Step>, hash: string)
    requires Runs(s, steps)
    decreases |steps|
  {
    steps == [] || (!Reschedules(s, steps[0], hash) && NeverRescheduled(Next(s, steps[0]), steps[1..], hash))
  }

  lemma {:induction false} ShutRuns(s: State, steps: seq<Step>, hash: string, r: int)
    requires Runs(s, steps) && NeverRescheduled(s, steps, hash) && Shut(s, hash, r)
    ensures Shut(After(s, steps), hash, r)
    decreases |steps|
  {
    if steps != [] {
      hide Shut, Enabled, Next, Reschedules;
      ShutStays(s, steps[0], hash, r);
      ShutRuns(Next(s, steps[0]), steps[1..], hash, r);
    }
  }

  /** A call of this run that asks for the key 30 seconds or more after `r` is refused. */
  predicate Refused(s: State, steps: seq<Step>, c: nat, hash: string, r: int) {
    Runs(s, steps) && c < |After(s, steps).calls| && Late(After(s, steps).calls[c], hash, r) ==>
      After(s, steps).calls[c].answer == None
  }

  predicate Late(p: Call, hash: string, r: int) { p.Done? && p.hash == hash && p.start >= r + 30_000_000_000 }

  lemma {:induction false} ShutKeysAreRefused(s: State, steps: seq<Step>, c: nat, hash: string, r: int)
    requires Inv(s) && Shut(s, hash, r) && (Runs(s, steps) ==> NeverRescheduled(s, steps, hash))
    ensures Refused(s, steps, c, hash, r)
  {
    if Runs(s, steps) && c < |After(s, steps).calls| && Late(After(s, steps).calls[c], hash, r) {
      RunKeeps(s, steps);
      ShutRuns(s, steps, hash, r);
      hide Runs, After, NeverRescheduled;
      assert CallOk(After(s, steps), After(s, steps).calls[c]);
    }
  }

  /** No rotation in flight has loaded the key. */
  predicate NoneLoaded(s: State, hash: string) {
    forall k :: 0 <= k < |s.rotations| ==> !(s.rotations[k].Loaded? && s.rotations[k].hash == hash)
  }

  /** The key's revocation time has come. */
  predicate Dead(s: State, hash: string) {
    hash in s.db && s.db[hash].revokedAt.Some? && s.db[hash].revokedAt.value <= s.now
  }

  /** A dead key that no rotation holds can neither be loaded nor rescheduled again. */
  lemma {:induction false} DeadStays(s: State, step: Step, hash: string)
    requires Enabled(s, step) && Dead(s, hash) && NoneLoaded(s, hash)
    ensures !Reschedules(s, step, hash) && Dead(Next(s, step), hash) && NoneLoaded(Next(s, step), hash)
  {
  }

  lemma {:induction false} NeverAgain(s: State, steps: seq<Step>, hash: string)
    requires Runs(s, steps) && Dead(s, hash) && NoneLoaded(s, hash)
    ensures NeverRescheduled(s, steps, hash)
    decreases |steps|
  {
    if steps != [] {
      hide Enabled, Next, Dead, NoneLoaded, Reschedules;
      DeadStays(s, steps[0], hash);
      NeverAgain(Next(s, steps[0]), steps[1..], hash);
    }
  }

  /** A key revoked while no rotation holds it is refused, in every run from there, by each call that
      starts the TTL or more after its revocation time. */
  lemma {:induction false} RevokedKeysAreRefused(s: State, steps: seq<Step>, c: nat, hash: string, r: int)
    requires Inv(s) && Shut(s, hash, r) && r <= s.now && NoneLoaded(s, hash)
    ensures Refused(s, steps, c, hash, r)
  {
    if Runs(s, steps) { NeverAgain(s, steps, hash); }
    hide Refused, Runs, After, NeverRescheduled, Inv;
    ShutKeysAreRefused(s, steps, c, hash, r);
  }

  /** Revoking a key puts it in that state. */
  lemma {:induction false} RevocationShuts(s: State, hash: string)
    requires Inv(s) && Enabled(s, Revoke(hash))
    ensures Shut(Next(s, Revoke(hash)), hash, s.now) && Inv(Next(s, Revoke(hash)))
    ensures Ask(Next(s, Revoke(hash)).db, s.now, hash) == None
  {
    StepKeeps(s, Revoke(hash));
  }

  /** A rotation gives the old key a revocation time at most thirty days ahead, the new key none, and
      both the old key's grant. */
  lemma {:induction false} RotationIsBounded(s: State, k: nat, newHash: string, grace: nat)
    requires Enabled(s, RotateApply(k, newHash, grace)) && s.rotations[k].hash != newHash
    ensures var hash, t := s.rotations[k].hash, Next(s, RotateApply(k, newHash, grace));
      && s.now <= s.now + grace <= s.now + 2_592_000_000_000_000
      && t.db[hash].revokedAt == Some(s.now + grace) && t.db[hash].grant == s.db[hash].grant
      && t.db[newHash] == Key(s.rotations[k].grant, None)
  {
  }

  // --------------------------------------- a rotation that undoes a revocation

  /** The loaded rotation gives the key its longest grace, and after the TTL call `c` asks for it. */
  function Revival(k: nat, newHash: string, c: nat, hash: string): seq<Step> {
    [RotateApply(k, newHash, MAX_GRACE), Invalidate, Tick(TTL), Begin(c, hash), ReadCache(c), Judge(c), Query(c), Store(c)]
  }

  /** The run of those steps from `s`, histories aside. */
  predicate Reviving(s: State, t: State, k: nat, newHash: string, c: nat, hash: string, i: nat)
    requires k < |s.rotations| && c < |s.calls| && hash in s.db
  {
    var late := s.now + TTL;
    && t.now == (if i < 3 then s.now else late)
    && |t.calls| == |s.calls| && |t.rotations| == |s.rotations|
    && (if i == 0 then t.db == s.db && t.rotations[k] == s.rotations[k]
        else hash in t.db && t.db[hash] == s.db[hash].(revokedAt := Some(s.now + MAX_GRACE)))
    && (2 <= i < 8 ==> t.cache == map[])
    && t.calls[c] == (
        if i < 4 then Idle else if i == 4 then Asked(hash, late) else if i == 5 then Looked(hash, late, None)
        else if i == 6 then Missed(hash, late, late)
        else if i == 7 then Fetched(hash, late, late, Some(s.db[hash].grant)) else Done(hash, late, Some(s.db[hash].grant)))
  }

  lemma {:induction false} RevivalStep(s: State, t: State, k: nat, newHash: string, c: nat, hash: string, i: nat)
    requires i < 8 && k < |s.rotations| && c < |s.calls| && s.rotations[k].Loaded? && s.rotations[k].hash == hash
    requires hash in s.db && newHash !in s.db && Reviving(s, t, k, newHash, c, hash, i)
    ensures Enabled(t, Revival(k, newHash, c, hash)[i])
    ensures Reviving(s, Next(t, Revival(k, newHash, c, hash)[i]), k, newHash, c, hash, i + 1)
  {
  }

  lemma {:induction false} FromStep(steps: seq<Step>, i: nat)
    requires i < |steps|
    ensures steps[i..] == [steps[i]] + steps[i + 1..]
  {
  }

  lemma {:induction false} RevivalSize(k: nat, newHash: string, c: nat, hash: string)
    ensures |Revival(k, newHash, c, hash)| == 8
  {
  }

  lemma {:induction false} RevivalRun(s: State, t: State, k: nat, newHash: string, c: nat, hash: string, i: nat)
    requires i <= 8 && k < |s.rotations| && c < |s.calls| && s.rotations[k].Loaded? && s.rotations[k].hash == hash
    requires hash in s.db && newHash !in s.db && Reviving(s, t, k, newHash, c, hash, i)
    ensures var rest := Revival(k, newHash, c, hash)[i..];
      Runs(t, rest) && Reviving(s, After(t, rest), k, newHash, c, hash, 8)
    decreases 8 - i
  {
    hide Enabled, Next, Reviving, Revival;
    var steps := Revival(k, newHash, c, hash);
    RevivalSize(k, newHash, c, hash);
    if i < 8 {
      hide Runs, After;
      RevivalStep(s, t, k, newHash, c, hash, i);
      RevivalRun(s, Next(t, steps[i]), k, newHash, c, hash, i + 1);
      FromStep(steps, i);
      RunStep(t, steps[i], steps[i + 1..]);
    }
  }

  /** Some hash is not in the table. */
  lemma {:induction false} Unused(keys: set<string>) returns (h: string)
    ensures forall k :: k in keys ==> |k| < |h|
  {
    h := "x";
    var todo := keys;
    while todo != {}
      invariant todo <= keys && h != "" && forall k :: k in keys - todo ==> |k| < |h|
      decreases |todo|
    {
      var k :| k in todo;
      todo := todo - {k};
      h := h + k;
    }
  }

  /** A rotation that holds the key can undo its revocation. */
  lemma {:induction false} LoadedRotationRevives(s: State, k: nat, c: nat, hash: string, r: int) returns (steps: seq<Step>)
    requires Inv(s) && hash in s.db && r <= s.now && c < |s.calls| && s.calls[c].Idle?
    requires k < |s.rotations| && s.rotations[k].Loaded? && s.rotations[k].hash == hash
    ensures !Refused(s, steps, c, hash, r)
  {
    var newHash := Unused(s.db.Keys);
    assert newHash !in s.db;
    steps := Revival(k, newHash, c, hash);
    assert Reviving(s, s, k, newHash, c, hash, 0);
    assert steps[0..] == steps;
    hide Inv, Runs, After, Revival;
    RevivalRun(s, s, k, newHash, c, hash, 0);
  }

  /** The exact condition, which can be checked at the revocation: with a call slot free, every run
      refuses the revoked key from the TTL on if and only if no rotation in flight has loaded it. */
  lemma {:induction false} RevocationHoldsExactly(s: State, hash: string, r: int)
    requires Inv(s) && Shut(s, hash, r) && r <= s.now
    requires exists c :: 0 <= c < |s.calls| && s.calls[c].Idle?
    ensures (forall steps, c: nat :: Refused(s, steps, c, hash, r)) <==> NoneLoaded(s, hash)
  {
    hide Inv, Refused, Runs, After;
    if NoneLoaded(s, hash) {
      forall steps, c: nat ensures Refused(s, steps, c, hash, r) { RevokedKeysAreRefused(s, steps, c, hash, r); }
    } else {
      var k :| 0 <= k < |s.rotations| && s.rotations[k].Loaded? && s.rotations[k].hash == hash;
      var c :| 0 <= c < |s.calls| && s.calls[c].Idle?;
      var steps := LoadedRotationRevives(s, k, c, hash, r);
    }
  }

  /** A rotation loads the key, the key is revoked, and the rotation's UPDATE then gives it a new
      revocation time without looking; a call `wait` later asks for it. */
  function LateRotation(hash: string, newHash: string, grant: Grant, grace: nat, wait: nat): seq<Step> {
    [Create(hash, grant), RotateLoad(0, hash), Revoke(hash), RotateApply(0, newHash, grace), Tick(wait), Begin(0, hash),
     ReadCache(0), Judge(0), Query(0), Store(0)]
  }

  lemma {:induction false} RunStep(s: State, step: Step, rest: seq<Step>)
    requires Enabled(s, step)
    ensures Runs(s, [step] + rest) == Runs(Next(s, step), rest)
    ensures Runs(s, [step] + rest) ==> After(s, [step] + rest) == After(Next(s, step), rest)
  {
    hide Enabled, Next;
    assert ([step] + rest)[1..] == rest;
  }

  function LateDb(hash: string, newHash: string, grant: Grant, grace: nat, i: nat): Db {
    if i == 0 then map[]
    else if i < 3 then map[hash := Key(grant, None)]
    else if i < 4 then map[hash := Key(grant, Some(0))]
    else map[hash := Key(grant, Some(grace)), newHash := Key(grant, None)]
  }

  function LateCall(hash: string, grant: Grant, wait: nat, i: nat): Call {
    if i < 6 then Idle else if i == 6 then Asked(hash, wait) else if i == 7 then Looked(hash, wait, None)
    else if i == 8 then Missed(hash, wait, wait) else if i == 9 then Fetched(hash, wait, wait, Some(grant))
    else Done(hash, wait, Some(grant))
  }

  /** The states that run goes through, histories aside. */
  predicate LateState(s: State, hash: string, newHash: string, grant: Grant, grace: nat, wait: nat, i: nat) {
    && s.now == (if i < 5 then 0 else wait)
    && s.db == LateDb(hash, newHash, grant, grace, i)
    && s.cache == (if i < 10 then map[] else map[hash := Entry(Some(grant), wait)])
    && s.calls == [LateCall(hash, grant, wait, i)]
    && s.rotations == [if 2 <= i < 4 then Loaded(hash, grant) else NoRotation]
  }

  lemma {:induction false} LateStep(s: State, hash: string, newHash: string, grant: Grant, grace: nat, wait: nat, i: nat)
    requires i < 10 && hash != newHash && wait < grace <= MAX_GRACE && LateState(s, hash, newHash, grant, grace, wait, i)
    ensures Enabled(s, LateRotation(hash, newHash, grant, grace, wait)[i])
    ensures LateState(Next(s, LateRotation(hash, newHash, grant, grace, wait)[i]), hash, newHash, grant, grace, wait, i + 1)
  {
    var step := LateRotation(hash, newHash, grant, grace, wait)[i];
    assert Enabled(s, step);
    var t := Next(s, step);
    assert t.db == LateDb(hash, newHash, grant, grace, i + 1);
    assert t.calls == [LateCall(hash, grant, wait, i + 1)];
  }

  lemma {:induction false} LateSize(hash: string, newHash: string, grant: Grant, grace: nat, wait: nat)
    ensures |LateRotation(hash, newHash, grant, grace, wait)| == 10
  {
  }

  lemma {:induction false} LateRun(s: State, hash: string, newHash: string, grant: Grant, grace: nat, wait: nat, i: nat)
    requires i <= 10 && hash != newHash && wait < grace <= MAX_GRACE && LateState(s, hash, newHash, grant, grace, wait, i)
    ensures var rest := LateRotation(hash, newHash, grant, grace, wait)[i..];
      Runs(s, rest) && LateState(After(s, rest), hash, newHash, grant, grace, wait, 10)
    decreases 10 - i
  {
    hide Enabled, Next, LateState, LateRotation;
    LateSize(hash, newHash, grant, grace, wait);
    var steps := LateRotation(hash, newHash, grant, grace, wait);
    if i < 10 {
      hide Runs, After;
      LateStep(s, hash, newHash, grant, grace, wait, i);
      LateRun(Next(s, steps[i]), hash, newHash, grant, grace, wait, i + 1);
      FromStep(steps, i);
      RunStep(s, steps[i], steps[i + 1..]);
    }
  }

  /** The condition is needed: a key revoked at time 0 is accepted again at every later time inside
      the grace window of a rotation that had loaded it before. */
  lemma {:induction false} LateRotationRevives(hash: string, newHash: string, grant: Grant, grace: nat, wait: nat)
    requires hash != newHash && wait < grace <= 30 * 86_400_000_000_000
    ensures var s := State(0, map[], map[], [Idle], [NoRotation], [Moment(0, map[])]);
      var steps := LateRotation(hash, newHash, grant, grace, wait);
      Fresh(s) && Runs(s, steps) && After(s, steps).calls == [Done(hash, wait, Some(grant))]
  {
    var s := State(0, map[], map[], [Idle], [NoRotation], [Moment(0, map[])]);
    LateRun(s, hash, newHash, grant, grace, wait, 0);
    var steps := LateRotation(hash, newHash, grant, grace, wait);
    assert steps[0..] == steps;
  }
}
