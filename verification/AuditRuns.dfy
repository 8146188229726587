/**
 Concurrent audit writers (audit.go, shared/db/chainlock.go): any number of transactions over
 any number of named chains, each taking the chain's lock, reading the tail, inserting and
 committing or rolling back, in every interleaving; and the back-fill as one more such writer.
 */
module AuditRuns {
  import opened Seqs
  import opened Options
  import opened AuditChain
  import opened AuditLog

  /** `Tailed` has read the tail, `Inserted` holds a row nobody else sees yet.  A back-fill goes from
      `Filling` through `Anchoring`, under the lock, to `Planned`, with updates nobody else sees yet. */
  datatype Phase =
    | Idle
    | Begun | Locked | Tailed(prev: string) | Inserted(row: Row)
    | Filling | Anchoring | Planned(updates: seq<Update>)

  datatype Tx = Tx(phase: Phase, chain: nat, rec: Record)

  /** Committed rows in id order, and the sequence that hands out ids (never given back). */
  datatype Table = Table(rows: seq<Row>, nextId: int)

  /** `holders[k]` is the transaction that holds lock key `k`. */
  datatype State = State(tables: seq<Table>, txs: seq<Tx>, holders: map<int, nat>)

  datatype Step =
    | Begin(t: nat, chain: nat, rec: Record)
    | Lock(t: nat)
    | ReadTail(t: nat)
    | Insert(t: nat)
    | BeginFill(t: nat, chain: nat)
    | PlanFill(t: nat)
    | Commit(t: nat)
    | Rollback(t: nat)

  /** How a chain name becomes a lock key.  Postgres uses a checksum of the name, which need not be
      injective; SQLite's single writer lock is the constant key. */
  type KeyOf = nat -> int

  /** ORDER BY id */
  function InsertById(rows: seq<Row>, r: Row): seq<Row> {
    if rows == [] || rows[|rows| - 1].id < r.id then rows + [r]
    else InsertById(rows[..|rows| - 1], r) + [rows[|rows| - 1]]
  }

  function Released(holders: map<int, nat>, t: nat): map<int, nat> {
    map k | k in holders && holders[k] != t :: holders[k]
  }

  /** Both COMMIT and ROLLBACK release a transaction-scoped lock. */
  function Ended(s: State, t: nat): State
    requires t < |s.txs|
  {
    s.(txs := s.txs[t := s.txs[t].(phase := Idle)], holders := Released(s.holders, t))
  }

  predicate Enabled(e: Env, key: KeyOf, locking: bool, s: State, step: Step) {
    && step.t < |s.txs|
    && var tx := s.txs[step.t];
       match step
       case Begin(_, chain, rec) => tx.phase.Idle? && chain < |s.tables| && RoundTrips(e, rec)
       case BeginFill(_, chain) => tx.phase.Idle? && chain < |s.tables|
       case Lock(_) => (tx.phase.Begun? || tx.phase.Filling?) && (locking ==> key(tx.chain) !in s.holders)
       case ReadTail(_) => tx.phase.Locked? && tx.chain < |s.tables|
       case Insert(_) => tx.phase.Tailed? && tx.chain < |s.tables|
       case PlanFill(_) => tx.phase.Anchoring? && tx.chain < |s.tables|
       case Commit(_) => (tx.phase.Inserted? || tx.phase.Planned?) && tx.chain < |s.tables|
       case Rollback(_) => !tx.phase.Idle?
  }

  function Next(e: Env, key: KeyOf, locking: bool, s: State, step: Step): State
    requires Enabled(e, key, locking, s, step)
  {
    var t := step.t;
    var tx := s.txs[t];
    match step
    case Begin(_, chain, rec) => s.(txs := s.txs[t := Tx(Begun, chain, rec)])
    case Lock(_) =>
      s.(txs := s.txs[t := tx.(phase := if tx.phase.Begun? then Locked else Anchoring)],
         holders := if locking then s.holders[key(tx.chain) := t] else s.holders)
    case BeginFill(_, chain) => s.(txs := s.txs[t := tx.(phase := Filling, chain := chain)])
    case PlanFill(_) =>
      var rows := s.tables[tx.chain].rows;
      s.(txs := s.txs[t := tx.(phase := Planned(Updates(e, rows, Tail(rows))))])
    case ReadTail(_) => s.(txs := s.txs[t := tx.(phase := Tailed(Tail(s.tables[tx.chain].rows)))])
    case Insert(_) =>
      var table := s.tables[tx.chain];
      s.(txs := s.txs[t := tx.(phase := Inserted(Stored(e, tx.rec, table.nextId, tx.phase.prev)))],
         tables := s.tables[tx.chain := table.(nextId := table.nextId + 1)])
    case Commit(_) =>
      var table := s.tables[tx.chain];
      var rows := if tx.phase.Inserted? then InsertById(table.rows, tx.phase.row) else ApplyAll(table.rows, tx.phase.updates);
      Ended(s.(tables := s.tables[tx.chain := table.(rows := rows)]), t)
    case Rollback(_) => Ended(s, t)
  }

  // ------------------------------------------------------------- the lock

  predicate IdsAscend(rows: seq<Row>) { forall i, j :: 0 <= i < j < |rows| ==> rows[i].id < rows[j].id }

  predicate IdsOk(table: Table) {
    IdsAscend(table.rows) && forall i :: 0 <= i < |table.rows| ==> table.rows[i].id < table.nextId
  }

  /** Past the lock step. */
  predicate Critical(p: Phase) { p.Locked? || p.Tailed? || p.Inserted? || p.Anchoring? || p.Planned? }

  function PlanFor(e: Env, rows: seq<Row>): seq<Update> { Updates(e, rows, Tail(rows)) }

  /** A hashed row that comes after all committed ones. */
  predicate Newer(table: Table, r: Row) {
    r.Hashed() && r.id < table.nextId && forall i :: 0 <= i < |table.rows| ==> table.rows[i].id < r.id
  }

  predicate TxHeld(e: Env, key: KeyOf, s: State, t: nat)
    requires t < |s.txs|
  {
    var tx := s.txs[t];
    && (!tx.phase.Idle? ==> tx.chain < |s.tables|)
    && (Critical(tx.phase) ==> key(tx.chain) in s.holders && s.holders[key(tx.chain)] == t)
    && (tx.phase.Inserted? ==> Newer(s.tables[tx.chain], tx.phase.row))
    && (tx.phase.Planned? ==> tx.phase.updates == PlanFor(e, s.tables[tx.chain].rows))
  }

  /** What the lock alone guarantees, whatever the tables hold. */
  predicate Held(e: Env, key: KeyOf, s: State) {
    && (forall c :: 0 <= c < |s.tables| ==> IdsOk(s.tables[c]))
    && (forall t :: 0 <= t < |s.txs| ==> TxHeld(e, key, s, t))
  }

  /** Holding the key excludes everyone else from the chain. */
  lemma {:induction false} HeldIsExclusive(e: Env, key: KeyOf, s: State, t: nat, o: nat)
    requires Held(e, key, s) && t < |s.txs| && o < |s.txs|
    requires Critical(s.txs[t].phase) && Critical(s.txs[o].phase) && s.txs[t].chain == s.txs[o].chain
    ensures t == o
  {
    assert TxHeld(e, key, s, t) && TxHeld(e, key, s, o);
  }

  lemma {:induction false} MoveHolds(e: Env, key: KeyOf, s: State, s': State, t: nat)
    requires Held(e, key, s) && t < |s.txs| == |s'.txs| && s'.tables == s.tables
    requires forall o :: 0 <= o < |s.txs| && o != t ==> s'.txs[o] == s.txs[o]
    requires forall k :: k in s.holders && s.holders[k] != t ==> k in s'.holders && s'.holders[k] == s.holders[k]
    requires TxHeld(e, key, s', t)
    ensures Held(e, key, s')
  {
    hide IdsOk, Newer, PlanFor;
    forall o | 0 <= o < |s'.txs|
      ensures TxHeld(e, key, s', o)
    {
      if o != t {
        assert TxHeld(e, key, s, o);
        var k := key(s.txs[o].chain);
        assert Critical(s.txs[o].phase) ==> k in s.holders && s.holders[k] == o;
      }
    }
  }

  lemma {:induction false} InsertHolds(e: Env, key: KeyOf, s: State, t: nat)
    requires Held(e, key, s) && Enabled(e, key, true, s, Insert(t))
    ensures Held(e, key, Next(e, key, true, s, Insert(t)))
  {
    hide Tail, RoundTrips, RecordHash, PlanFor, IdsAscend;
    var s' := Next(e, key, true, s, Insert(t));
    var tx := s.txs[t];
    var table := s.tables[tx.chain];
    assert TxHeld(e, key, s, t) && IdsOk(table);
    assert Newer(s'.tables[tx.chain], Stored(e, tx.rec, table.nextId, tx.phase.prev));
    hide Stored;
    forall o | 0 <= o < |s'.txs|
      ensures TxHeld(e, key, s', o)
    {
      assert TxHeld(e, key, s, o);
    }
  }

  lemma {:induction false} EndHolds(e: Env, key: KeyOf, s: State, t: nat, table: Table)
    requires Held(e, key, s) && t < |s.txs| && s.txs[t].chain < |s.tables|
    requires Critical(s.txs[t].phase) && IdsOk(table)
    ensures Held(e, key, Ended(s.(tables := s.tables[s.txs[t].chain := table]), t))
  {
    hide IdsOk, Newer, PlanFor;
    var c := s.txs[t].chain;
    assert TxHeld(e, key, s, t);
    var s' := Ended(s.(tables := s.tables[c := table]), t);
    forall o | 0 <= o < |s'.txs|
      ensures TxHeld(e, key, s', o)
    {
      assert TxHeld(e, key, s, o);
      if o != t && Critical(s.txs[o].phase) && s.txs[o].chain == c { HeldIsExclusive(e, key, s, t, o); }
    }
  }

  /** What a commit makes of its table: a new last row, or the missing hashes. */
  lemma {:induction false} CommittedRows(e: Env, key: KeyOf, s: State, t: nat)
    requires Held(e, key, s) && Enabled(e, key, true, s, Commit(t))
    ensures var tx := s.txs[t];
      var table := s.tables[tx.chain];
      var rows := if tx.phase.Inserted? then table.rows + [tx.phase.row] else Backfilled(e, table.rows);
      && Next(e, key, true, s, Commit(t)) == Ended(s.(tables := s.tables[tx.chain := table.(rows := rows)]), t)
      && IdsOk(table.(rows := rows)) && Grown(table.rows, rows)
  {
    var tx := s.txs[t];
    var table := s.tables[tx.chain];
    assert TxHeld(e, key, s, t) && IdsOk(table);
    hide Tail, Updates, ApplyAll, BackfillFrom, Ended, Held;
    if tx.phase.Planned? {
      UpdatesApplied(e, table.rows, Tail(table.rows));
      BackfillKeeps(e, table.rows, Tail(table.rows));
      SameIds(table.rows, Backfilled(e, table.rows));
    }
  }

  lemma {:induction false} SameIds(rows: seq<Row>, rows': seq<Row>)
    requires |rows| == |rows'| && IdsAscend(rows)
    requires forall i :: 0 <= i < |rows| ==> rows'[i].id == rows[i].id
    ensures IdsAscend(rows')
  {
  }

  lemma {:induction false} StepHolds(e: Env, key: KeyOf, s: State, step: Step)
    requires Held(e, key, s) && Enabled(e, key, true, s, step)
    ensures Held(e, key, Next(e, key, true, s, step)) && Extends(s, Next(e, key, true, s, step))
  {
    hide IdsOk, Newer, Tail, RoundTrips, Stored, Updates, Backfilled;
    var t := step.t;
    assert TxHeld(e, key, s, t);
    var s' := Next(e, key, true, s, step);
    if step.Insert? {
      InsertHolds(e, key, s, t);
    } else if step.Commit? {
      CommittedRows(e, key, s, t);
      EndHolds(e, key, s, t, s'.tables[s.txs[t].chain]);
    } else {
      MoveHolds(e, key, s, s', t);
    }
  }

  /** A committed row stays, except that a missing hash may be filled in. */
  predicate RowStays(r: Row, r': Row) {
    if r.Hashed() then r' == r else r' == r.(prevHash := r'.prevHash, entryHash := r'.entryHash)
  }

  /** Committed rows stay in place, and new ones come hashed, at the end. */
  predicate Grown(rows: seq<Row>, rows': seq<Row>) {
    && |rows| <= |rows'|
    && (forall i :: 0 <= i < |rows| ==> RowStays(rows[i], rows'[i]))
    && (forall i :: |rows| <= i < |rows'| ==> rows'[i].Hashed())
  }

  predicate Extends(s: State, s': State) {
    |s.tables| == |s'.tables| && forall c :: 0 <= c < |s.tables| ==> Grown(s.tables[c].rows, s'.tables[c].rows)
  }

  lemma {:induction false} ExtendsOn(a: State, b: State, c: State)
    requires Extends(a, b) && Extends(b, c)
    ensures Extends(a, c)
  {
    forall k | 0 <= k < |a.tables| ensures Grown(a.tables[k].rows, c.tables[k].rows) {
      var x, y, z := a.tables[k].rows, b.tables[k].rows, c.tables[k].rows;
      assert Grown(x, y) && Grown(y, z);
      forall i | 0 <= i < |x| ensures RowStays(x[i], z[i]) { assert RowStays(x[i], y[i]) && RowStays(y[i], z[i]); }
      forall i | |x| <= i < |z| ensures z[i].Hashed() {
        if i < |y| { assert y[i].Hashed() && RowStays(y[i], z[i]); }
      }
    }
  }

  // ------------------------------------------------------------- invariant

  /** The hashed rows are a verified prefix. */
  predicate Chained(e: Env, rows: seq<Row>) { Anchored(e, rows, FirstUnhashed(rows)) }

  predicate Appending(p: Phase) { p.Begun? || p.Locked? || p.Tailed? || p.Inserted? }

  /** A row that may be committed as the new tail. */
  predicate Follows(e: Env, rows: seq<Row>, r: Row) { Intact(e, rows) && Links(e, PrevOf(rows, |rows|), r) }

  predicate TxOk(e: Env, s: State, t: nat)
    requires t < |s.txs|
  {
    var tx := s.txs[t];
    && (Appending(tx.phase) ==> RoundTrips(e, tx.rec))
    && (tx.phase.Tailed? ==> tx.chain < |s.tables| && tx.phase.prev == Tail(s.tables[tx.chain].rows))
    && (tx.phase.Inserted? ==> tx.chain < |s.tables| && Follows(e, s.tables[tx.chain].rows, tx.phase.row))
  }

  predicate Inv(e: Env, key: KeyOf, s: State) {
    && Held(e, key, s)
    && (forall c :: 0 <= c < |s.tables| ==> Chained(e, s.tables[c].rows))
    && (forall t :: 0 <= t < |s.txs| ==> TxOk(e, s, t))
  }

  /** No append goes into a table that still has rows to back-fill. */
  predicate Timely(s: State, step: Step) {
    step.Insert? && step.t < |s.txs| && s.txs[step.t].chain < |s.tables| ==> AllHashed(s.tables[s.txs[step.t].chain].rows)
  }

  lemma {:induction false} IntactIsChained(e: Env, rows: seq<Row>)
    ensures Intact(e, rows) <==> Chained(e, rows) && AllHashed(rows)
  {
    hide HashOf, FirstUnhashed;
    var k := FirstUnhashed(rows);
    if Intact(e, rows) {
      forall i | 0 <= i < |rows| ensures rows[i].Hashed() { assert RowOk(e, rows, i); }
      assert rows[..|rows|] == rows;
    }
    if AllHashed(rows) {
      assert k == |rows|;
      assert rows[..k] == rows;
    }
  }

  /** Only `t` moves, and the tables the others are working on stay. */
  lemma {:induction false} OthersOk(e: Env, s: State, s': State, t: nat)
    requires t < |s.txs| == |s'.txs| && |s'.tables| == |s.tables|
    requires forall o :: 0 <= o < |s.txs| ==> TxOk(e, s, o)
    requires forall o :: 0 <= o < |s.txs| && o != t ==> s'.txs[o] == s.txs[o]
    requires forall o :: 0 <= o < |s.txs| && o != t && Critical(s.txs[o].phase) && s.txs[o].chain < |s.tables| ==>
      s'.tables[s.txs[o].chain].rows == s.tables[s.txs[o].chain].rows
    requires TxOk(e, s', t)
    ensures forall o :: 0 <= o < |s'.txs| ==> TxOk(e, s', o)
  {
    hide Tail, RoundTrips, Follows;
    forall o | 0 <= o < |s'.txs|
      ensures TxOk(e, s', o)
    {
      assert TxOk(e, s, o);
    }
  }

  lemma {:induction false} InsertFollows(e: Env, key: KeyOf, s: State, t: nat)
    requires HexDigest(e) && Inv(e, key, s) && Enabled(e, key, true, s, Insert(t)) && Timely(s, Insert(t))
    ensures TxOk(e, Next(e, key, true, s, Insert(t)), t)
  {
    hide Intact, Links, Tail, RoundTrips, Stored, HashOf, Chained, Held;
    var tx := s.txs[t];
    var table := s.tables[tx.chain];
    assert TxOk(e, s, t) && Chained(e, table.rows);
    IntactIsChained(e, table.rows);
    TailOfIntact(e, table.rows);
    StoredLinks(e, tx.rec, table.nextId, tx.phase.prev);
  }

  /** Committing leaves a table that verifies: the new row follows, or the back-fill is complete. */
  lemma {:induction false} CommitVerifies(e: Env, key: KeyOf, s: State, t: nat)
    requires HexDigest(e) && Inv(e, key, s) && Enabled(e, key, true, s, Commit(t))
    ensures Intact(e, Next(e, key, true, s, Commit(t)).tables[s.txs[t].chain].rows)
    ensures Chained(e, Next(e, key, true, s, Commit(t)).tables[s.txs[t].chain].rows)
  {
    var tx := s.txs[t];
    var rows := s.tables[tx.chain].rows;
    CommittedRows(e, key, s, t);
    assert TxOk(e, s, t) && Chained(e, rows);
    hide Intact, Links, Tail, RoundTrips, PrevOf, Held, BackfillFrom, FirstUnhashed, Anchored;
    if tx.phase.Inserted? {
      IntactSnoc(e, rows, tx.phase.row);
      IntactIsChained(e, rows + [tx.phase.row]);
    } else {
      BackfillVerifies(e, rows, FirstUnhashed(rows));
      IntactIsChained(e, Backfilled(e, rows));
    }
  }

  lemma {:induction false} CommitKeeps(e: Env, key: KeyOf, s: State, t: nat)
    requires HexDigest(e) && Inv(e, key, s) && Enabled(e, key, true, s, Commit(t))
    ensures Inv(e, key, Next(e, key, true, s, Commit(t)))
  {
    var s' := Next(e, key, true, s, Commit(t));
    StepHolds(e, key, s, Commit(t));
    CommitVerifies(e, key, s, t);
    var c := s.txs[t].chain;
    forall o | 0 <= o < |s.txs| && o != t && Critical(s.txs[o].phase) && s.txs[o].chain < |s.tables|
      ensures s'.tables[s.txs[o].chain].rows == s.tables[s.txs[o].chain].rows
    {
      if s.txs[o].chain == c { HeldIsExclusive(e, key, s, t, o); }
    }
    hide Held, Chained, InsertById, ApplyAll, Extends;
    OthersOk(e, s, s', t);
  }

  lemma {:induction false} StepKeeps(e: Env, key: KeyOf, s: State, step: Step)
    requires HexDigest(e) && Inv(e, key, s) && Enabled(e, key, true, s, step) && Timely(s, step)
    ensures Inv(e, key, Next(e, key, true, s, step))
  {
    if step.Commit? {
      hide Inv, Next, Enabled;
      CommitKeeps(e, key, s, step.t);
    } else {
      hide Held, Chained, Tail, RoundTrips, Stored, Updates, Follows, Extends, HexDigest;
      var s' := Next(e, key, true, s, step);
      StepHolds(e, key, s, step);
      assert TxOk(e, s, step.t);
      if step.Insert? { InsertFollows(e, key, s, step.t); }
      OthersOk(e, s, s', step.t);
    }
  }

  // ------------------------------------------------------------------- runs

  predicate Runs(e: Env, key: KeyOf, locking: bool, s: State, steps: seq<Step>)
    decreases |steps|
  {
    steps == [] ||
    (Enabled(e, key, locking, s, steps[0]) && Runs(e, key, locking, Next(e, key, locking, s, steps[0]), steps[1..]))
  }

  function After(e: Env, key: KeyOf, locking: bool, s: State, steps: seq<Step>): State
    requires Runs(e, key, locking, s, steps)
    decreases |steps|
  {
    if steps == [] then s else After(e, key, locking, Next(e, key, locking, s, steps[0]), steps[1..])
  }

  /** Nobody is writing, and rows are in id order. */
  predicate Idling(s: State) {
    && (forall c :: 0 <= c < |s.tables| ==> IdsOk(s.tables[c]))
    && (forall t :: 0 <= t < |s.txs| ==> s.txs[t].phase.Idle?)
  }

  lemma {:induction false} RunHolds(e: Env, key: KeyOf, s: State, steps: seq<Step>)
    requires Held(e, key, s) && Runs(e, key, true, s, steps)
    ensures Held(e, key, After(e, key, true, s, steps)) && Extends(s, After(e, key, true, s, steps))
    decreases |steps|
  {
    if steps != [] {
      hide Held, Enabled, Next, Extends;
      var s' := Next(e, key, true, s, steps[0]);
      StepHolds(e, key, s, steps[0]);
      RunHolds(e, key, s', steps[1..]);
      ExtendsOn(s, s', After(e, key, true, s', steps[1..]));
    } else {
      hide Held;
    }
  }

  /** In every locked run, from whatever tables, two transactions past the lock step on one chain are
      the same transaction. */
  lemma {:induction false} Exclusive(e: Env, key: KeyOf, s: State, steps: seq<Step>, t: nat, o: nat)
    requires Idling(s) && Runs(e, key, true, s, steps)
    requires var s' := After(e, key, true, s, steps);
      && t < |s'.txs| && o < |s'.txs| && s'.txs[t].chain == s'.txs[o].chain
      && Critical(s'.txs[t].phase) && Critical(s'.txs[o].phase)
    ensures t == o
  {
    IdlingHolds(e, key, s);
    RunHolds(e, key, s, steps);
    hide Runs, After, Held;
    HeldIsExclusive(e, key, After(e, key, true, s, steps), t, o);
  }

  /** In every locked run committed rows stay where they are, hashed rows unchanged and the others but
      for their missing hashes. */
  lemma {:induction false} CommittedRowsStay(e: Env, key: KeyOf, s: State, steps: seq<Step>)
    requires Idling(s) && Runs(e, key, true, s, steps)
    ensures Extends(s, After(e, key, true, s, steps))
  {
    IdlingHolds(e, key, s);
    RunHolds(e, key, s, steps);
  }

  /** No step of the run appends too early. */
  predicate AllTimely(e: Env, key: KeyOf, s: State, steps: seq<Step>)
    requires Runs(e, key, true, s, steps)
    decreases |steps|
  {
    steps == [] || (Timely(s, steps[0]) && AllTimely(e, key, Next(e, key, true, s, steps[0]), steps[1..]))
  }

  /** Nobody is writing, and in every table the hashed rows are a verified prefix. */
  predicate Ready(e: Env, s: State) {
    Idling(s) && forall c :: 0 <= c < |s.tables| ==> Chained(e, s.tables[c].rows)
  }

  predicate AllVerify(e: Env, s: State) { forall c :: 0 <= c < |s.tables| ==> Intact(e, s.tables[c].rows) }

  lemma {:induction false} RunKeeps(e: Env, key: KeyOf, s: State, steps: seq<Step>)
    requires HexDigest(e) && Inv(e, key, s) && Runs(e, key, true, s, steps) && AllTimely(e, key, s, steps)
    ensures Inv(e, key, After(e, key, true, s, steps))
    decreases |steps|
  {
    if steps != [] {
      hide Inv, Enabled, Next, Timely;
      StepKeeps(e, key, s, steps[0]);
      RunKeeps(e, key, Next(e, key, true, s, steps[0]), steps[1..]);
    }
  }

  lemma {:induction false} StillVerifies(e: Env, key: KeyOf, s: State, s': State, c: nat)
    requires Inv(e, key, s') && Extends(s, s') && c < |s.tables| && Intact(e, s.tables[c].rows)
    ensures Intact(e, s'.tables[c].rows)
  {
    hide Intact, Chained, Held, TxOk;
    var rows, rows' := s.tables[c].rows, s'.tables[c].rows;
    IntactIsChained(e, rows);
    assert Grown(rows, rows');
    forall i | 0 <= i < |rows'| ensures rows'[i].Hashed() {
      if i < |rows| { assert RowStays(rows[i], rows'[i]); }
    }
    IntactIsChained(e, rows');
  }

  /** From tables that verify no append can come too early, with or without back-fills. */
  lemma {:induction false} VerifiedIsTimely(e: Env, key: KeyOf, s: State, steps: seq<Step>)
    requires HexDigest(e) && Inv(e, key, s) && AllVerify(e, s) && Runs(e, key, true, s, steps)
    ensures AllTimely(e, key, s, steps)
    decreases |steps|
  {
    if steps != [] {
      hide Enabled, Next, Intact, Extends, Held, Chained, TxOk;
      var s' := Next(e, key, true, s, steps[0]);
      assert Timely(s, steps[0]) by {
        if steps[0].Insert? && steps[0].t < |s.txs| && s.txs[steps[0].t].chain < |s.tables| {
          IntactIsChained(e, s.tables[s.txs[steps[0].t].chain].rows);
        }
      }
      StepKeeps(e, key, s, steps[0]);
      StepHolds(e, key, s, steps[0]);
      hide Inv;
      SameTables(s, s');
      forall c | 0 <= c < |s'.tables| ensures Intact(e, s'.tables[c].rows) { StillVerifies(e, key, s, s', c); }
      VerifiedIsTimely(e, key, s', steps[1..]);
    }
  }

  lemma {:induction false} SameTables(s: State, s': State)
    requires Extends(s, s')
    ensures |s'.tables| == |s.tables|
  {
  }

  lemma {:induction false} IdlingHolds(e: Env, key: KeyOf, s: State)
    requires Idling(s)
    ensures Held(e, key, s)
  {
    hide IdsOk;
  }

  lemma {:induction false} ReadyIsInv(e: Env, key: KeyOf, s: State)
    requires Ready(e, s)
    ensures Inv(e, key, s)
  {
    IdlingHolds(e, key, s);
    hide IdsOk, Chained, Held;
  }

  /** Every run of locked writers, from tables that verify, leaves tables that verify and that
      extend the old ones: for any number of writers, back-fills and chains and any key function. */
  lemma {:induction false} LockedRunsVerify(e: Env, key: KeyOf, s: State, steps: seq<Step>)
    requires HexDigest(e) && Idling(s) && AllVerify(e, s) && Runs(e, key, true, s, steps)
    ensures var s' := After(e, key, true, s, steps);
      Extends(s, s') && AllVerify(e, s')
  {
    hide Inv, Idling, Runs, AllTimely, After, Intact, Extends, Chained;
    forall c | 0 <= c < |s.tables| ensures Chained(e, s.tables[c].rows) { IntactIsChained(e, s.tables[c].rows); }
    ReadyIsInv(e, key, s);
    VerifiedIsTimely(e, key, s, steps);
    RunKeeps(e, key, s, steps);
    CommittedRowsStay(e, key, s, steps);
    var s' := After(e, key, true, s, steps);
    SameTables(s, s');
    forall c | 0 <= c < |s'.tables| ensures Intact(e, s'.tables[c].rows) { StillVerifies(e, key, s, s', c); }
  }

  /** A back-fill among concurrent writers: from tables whose hashed rows are a verified prefix, once
      one has committed its chain verifies at the end of every run in which no append came earlier. */
  lemma {:induction false} BackfilledChainVerifies(e: Env, key: KeyOf, s: State, before: seq<Step>, t: nat, later: seq<Step>)
    requires HexDigest(e) && Ready(e, s) && Runs(e, key, true, s, before) && AllTimely(e, key, s, before)
    requires var s1 := After(e, key, true, s, before);
      Enabled(e, key, true, s1, Commit(t)) && s1.txs[t].phase.Planned?
      && Runs(e, key, true, Next(e, key, true, s1, Commit(t)), later)
      && AllTimely(e, key, Next(e, key, true, s1, Commit(t)), later)
    ensures var s1 := After(e, key, true, s, before);
      var s3 := After(e, key, true, Next(e, key, true, s1, Commit(t)), later);
      Extends(s, s3) && s1.txs[t].chain < |s3.tables| && Intact(e, s3.tables[s1.txs[t].chain].rows)
  {
    hide Ready, Runs, AllTimely, After, Intact, Extends, Inv, Held, Next;
    ReadyIsInv(e, key, s);
    RunKeeps(e, key, s, before);
    var s1 := After(e, key, true, s, before);
    var s2 := Next(e, key, true, s1, Commit(t));
    InvHolds(e, key, s);
    RunHolds(e, key, s, before);
    CommitVerifies(e, key, s1, t);
    StepKeeps(e, key, s1, Commit(t));
    InvHolds(e, key, s1);
    StepHolds(e, key, s1, Commit(t));
    RunKeeps(e, key, s2, later);
    RunHolds(e, key, s2, later);
    var s3 := After(e, key, true, s2, later);
    ExtendsOn(s, s1, s2);
    ExtendsOn(s, s2, s3);
    SameTables(s1, s2);
    SameTables(s2, s3);
    StillVerifies(e, key, s2, s3, s1.txs[t].chain);
  }

  lemma {:induction false} InvHolds(e: Env, key: KeyOf, s: State)
    requires Inv(e, key, s)
    ensures Held(e, key, s)
  {
  }

  /** The naive writers' run: both read the tail before either commits. */
  function ForkRun(a: Record, b: Record): seq<Step> {
    [Begin(0, 0, a), Begin(1, 0, b), Lock(0), Lock(1), ReadTail(0), ReadTail(1), Insert(0), Insert(1), Commit(0), Commit(1)]
  }

  lemma {:induction false} RunStep(e: Env, key: KeyOf, locking: bool, s: State, step: Step, rest: seq<Step>)
    requires Enabled(e, key, locking, s, step)
    ensures Runs(e, key, locking, s, [step] + rest) == Runs(e, key, locking, Next(e, key, locking, s, step), rest)
    ensures Runs(e, key, locking, s, [step] + rest) ==>
      After(e, key, locking, s, [step] + rest) == After(e, key, locking, Next(e, key, locking, s, step), rest)
  {
    hide Enabled, Next;
    Cons(step, rest);
  }

  /** The states that run goes through. */
  function ForkState(e: Env, a: Record, b: Record, i: nat): State {
    var p, q := Stored(e, a, 1, GENESIS), Stored(e, b, 2, GENESIS);
    var first := if i < 1 then Idle else if i < 3 then Begun else if i < 5 then Locked
                 else if i < 7 then Tailed(GENESIS) else if i < 9 then Inserted(p) else Idle;
    var second := if i < 2 then Idle else if i < 4 then Begun else if i < 6 then Locked
                  else if i < 8 then Tailed(GENESIS) else if i < 10 then Inserted(q) else Idle;
    var rows := if i < 9 then [] else if i < 10 then [p] else [p, q];
    State([Table(rows, if i < 7 then 1 else if i < 8 then 2 else 3)], [Tx(first, 0, a), Tx(second, 0, b)], map[])
  }

  lemma {:induction false} ForkStep(e: Env, key: KeyOf, a: Record, b: Record, i: nat)
    requires i < 10 && RoundTrips(e, a) && RoundTrips(e, b)
    ensures Enabled(e, key, false, ForkState(e, a, b, i), ForkRun(a, b)[i])
    ensures Next(e, key, false, ForkState(e, a, b, i), ForkRun(a, b)[i]) == ForkState(e, a, b, i + 1)
  {
    hide RecordHash, RoundTrips;
    var s := ForkState(e, a, b, i);
    assert Released(map[], 0) == map[] && Released(map[], 1) == map[];
    assert Tail([]) == GENESIS;
    var p, q := Stored(e, a, 1, GENESIS), Stored(e, b, 2, GENESIS);
    assert InsertById([], p) == [p] && InsertById([p], q) == [p, q];
    var got, want := Next(e, key, false, s, ForkRun(a, b)[i]), ForkState(e, a, b, i + 1);
    assert got.txs == want.txs;
    assert got.tables == want.tables;
  }

  /** Without the lock step two writers fork the chain: both rows claim the genesis value, and the
      second does not verify unless the first row's digest is the genesis value itself. */
  lemma {:induction false} UnlockedRunForks(e: Env, key: KeyOf, a: Record, b: Record)
    requires RoundTrips(e, a) && RoundTrips(e, b)
    ensures var s := State([Table([], 1)], [Tx(Idle, 0, a), Tx(Idle, 0, b)], map[]);
      var rows := [Stored(e, a, 1, GENESIS), Stored(e, b, 2, GENESIS)];
      && Runs(e, key, false, s, ForkRun(a, b))
      && After(e, key, false, s, ForkRun(a, b)).tables == [Table(rows, 3)]
      && (rows[0].Entry() != GENESIS ==> !Intact(e, rows))
  {
    hide RecordHash, Runs, After, RoundTrips, HashOf, Enabled, Next;
    var r := ForkRun(a, b);
    var states := seq(11, (i: nat) => ForkState(e, a, b, i));
    forall i | 0 <= i < 10
      ensures Enabled(e, key, false, states[i], r[i]) && states[i + 1] == Next(e, key, false, states[i], r[i])
    {
      ForkStep(e, key, a, b, i);
    }
    Unroll(e, key, states[0], r, states, 0);
    assert r[0..] == r;
    var rows := [Stored(e, a, 1, GENESIS), Stored(e, b, 2, GENESIS)];
    if Intact(e, rows) { assert RowOk(e, rows, 1); }
  }

  lemma {:induction false} Unroll(e: Env, key: KeyOf, s: State, steps: seq<Step>, states: seq<State>, k: nat)
    requires |states| == |steps| + 1 && k <= |steps| && s == states[k]
    requires forall i :: k <= i < |steps| ==>
      Enabled(e, key, false, states[i], steps[i]) && states[i + 1] == Next(e, key, false, states[i], steps[i])
    ensures Runs(e, key, false, s, steps[k..]) && After(e, key, false, s, steps[k..]) == states[|steps|]
    decreases |steps| - k
  {
    hide Enabled, Next;
    if k < |steps| {
      Unroll(e, key, states[k + 1], steps, states, k + 1);
      Snoc(steps, k, k);
      RunStep(e, key, false, s, steps[k], steps[k + 1..]);
    }
  }
}
