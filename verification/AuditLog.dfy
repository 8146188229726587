/**
 Writing the audit trail (gateway-service/internal/auth/audit.go): the append under the chain
 lock, and the back-fill of rows that predate hashing.
 */
module AuditLog {
  import opened Seqs
  import opened Options
  import opened AuditChain

  /** The one assumption on storage: canonical text is a fixpoint of store, read and canonicalise. */
  ghost predicate CanonRoundTrip(e: Env) {
    e.canon("") == "null" && forall x :: e.canon(e.jsonb(e.canon(x))) == e.canon(x)
  }

  predicate RoundTrips(e: Env, rec: Record) {
    e.canon(e.jsonb(rec.before)) == rec.before && e.canon(e.jsonb(rec.after)) == rec.after
  }

  function CanonOf(e: Env, marshalled: Option<string>): string {
    if marshalled.None? then "null" else e.canon(marshalled.value)
  }

  /** `WriteAudit`'s record: an anonymous actor is named, the state canonicalised, the time truncated. */
  function RecordOf(e: Env, actor: string, action: string, targetType: string, targetId: string,
      before: Option<string>, after: Option<string>, nowNanos: nat): Record
  {
    Record(if actor == "" then "unknown" else actor, action, targetType, targetId,
      CanonOf(e, before), CanonOf(e, after), nowNanos - nowNanos % 1000)
  }

  lemma {:induction false} RecordRoundTrips(e: Env, actor: string, action: string, targetType: string, targetId: string,
      before: Option<string>, after: Option<string>, nowNanos: nat)
    requires CanonRoundTrip(e)
    ensures RoundTrips(e, RecordOf(e, actor, action, targetType, targetId, before, after, nowNanos))
  {
    assert e.canon(e.jsonb(e.canon(""))) == e.canon("");
  }

  /** The inserted row, as it reads back. */
  function Stored(e: Env, rec: Record, id: int, prev: string): Row {
    Row(id, rec.actor, rec.action, rec.targetType, rec.targetId, e.jsonb(rec.before), e.jsonb(rec.after),
      rec.createdAt, Some(prev), Some(RecordHash(e, prev, rec)))
  }

  lemma {:induction false} StoredLinks(e: Env, rec: Record, id: int, prev: string)
    requires HexDigest(e) && RoundTrips(e, rec)
    ensures Links(e, prev, Stored(e, rec, id, prev))
  {
    hide Encode, Blank;
    var r := Stored(e, rec, id, prev);
    assert RowRecord(e, r) == rec;
    HashOfRecord(e, prev, r);
    DigestNotBlank(e, HashInput(e, prev, r));
  }

  /** Newest hashed row's hash, the genesis value when there is none (or when it is empty). */
  function Tail(rows: seq<Row>): string {
    if rows == [] then GENESIS
    else if rows[|rows| - 1].Hashed() then
      (if rows[|rows| - 1].Entry() == "" then GENESIS else rows[|rows| - 1].Entry())
    else Tail(rows[..|rows| - 1])
  }

  lemma {:induction false} TailOfIntact(e: Env, rows: seq<Row>)
    requires Intact(e, rows)
    ensures Tail(rows) == PrevOf(rows, |rows|)
  {
    if rows != [] { assert RowOk(e, rows, |rows| - 1); }
  }

  // -------------------------------------------------------------- back-fill

  function Rehash(e: Env, r: Row, prev: string): Row {
    r.(prevHash := Some(prev), entryHash := Some(HashOf(e, prev, r)))
  }

  /** Un-hashed rows chained in id order onto `prev`; hashed rows stand. */
  function BackfillFrom(e: Env, rows: seq<Row>, prev: string): (out: seq<Row>)
    ensures |out| == |rows|
  {
    if rows == [] then []
    else if rows[0].Hashed() then [rows[0]] + BackfillFrom(e, rows[1..], prev)
    else [Rehash(e, rows[0], prev)] + BackfillFrom(e, rows[1..], HashOf(e, prev, rows[0]))
  }

  function Backfilled(e: Env, rows: seq<Row>): (out: seq<Row>)
    ensures |out| == |rows|
  {
    BackfillFrom(e, rows, Tail(rows))
  }

  predicate AllHashed(rows: seq<Row>) { forall i :: 0 <= i < |rows| ==> rows[i].Hashed() }

  predicate NoneHashed(rows: seq<Row>) { forall i :: 0 <= i < |rows| ==> !rows[i].Hashed() }

  /** Only NULL hashes are filled in: content, ids and existing hashes stay. */
  lemma {:induction false} BackfillKeeps(e: Env, rows: seq<Row>, prev: string)
    ensures var out := BackfillFrom(e, rows, prev);
      AllHashed(out) && forall i :: 0 <= i < |rows| ==>
        out[i] == (if rows[i].Hashed() then rows[i]
                   else rows[i].(prevHash := out[i].prevHash, entryHash := out[i].entryHash))
    decreases |rows|
  {
    hide HashOf;
    if rows != [] {
      BackfillKeeps(e, rows[1..], if rows[0].Hashed() then prev else HashOf(e, prev, rows[0]));
    }
  }

  /** A second back-fill finds nothing to do. */
  lemma {:induction false} BackfillIdempotent(e: Env, rows: seq<Row>)
    ensures Backfilled(e, Backfilled(e, rows)) == Backfilled(e, rows)
  {
    BackfillKeeps(e, rows, Tail(rows));
    BackfillNothing(e, Backfilled(e, rows), Tail(Backfilled(e, rows)));
  }

  lemma {:induction false} BackfillNothing(e: Env, rows: seq<Row>, prev: string)
    requires AllHashed(rows)
    ensures BackfillFrom(e, rows, prev) == rows
    decreases |rows|
  {
    if rows != [] {
      BackfillNothing(e, rows[1..], prev);
      Head(rows);
    }
  }

  lemma {:induction false} BackfillSplit(e: Env, a: seq<Row>, b: seq<Row>, prev: string)
    requires AllHashed(a)
    ensures BackfillFrom(e, a + b, prev) == a + BackfillFrom(e, b, prev)
    decreases |a|
  {
    if a == [] {
      Empty(b);
      Empty(BackfillFrom(e, b, prev));
    } else {
      BackfillSplit(e, a[1..], b, prev);
      Within(a, b, 1);
      Head(a);
      Assoc([a[0]], a[1..], BackfillFrom(e, b, prev));
    }
  }

  lemma {:induction false} TailSplit(a: seq<Row>, b: seq<Row>)
    requires NoneHashed(b)
    ensures Tail(a + b) == Tail(a)
    decreases |b|
  {
    if b == [] {
      Empty(a);
    } else {
      TailSplit(a, b[..|b| - 1]);
      assert (a + b)[..|a + b| - 1] == a + b[..|b| - 1];
    }
  }

  lemma {:induction false} BackfillChains(e: Env, done: seq<Row>, rows: seq<Row>)
    requires HexDigest(e) && Intact(e, done) && NoneHashed(rows)
    ensures Intact(e, done + BackfillFrom(e, rows, PrevOf(done, |done|)))
    decreases |rows|
  {
    var prev := PrevOf(done, |done|);
    if rows == [] {
      Empty(done);
    } else {
      var r, rest := Rehash(e, rows[0], prev), rows[1..];
      DigestNotBlank(e, HashInput(e, prev, rows[0]));
      assert Links(e, prev, r);
      hide Links, HashOf, Intact;
      IntactSnoc(e, done, r);
      BackfillChains(e, done + [r], rest);
      Assoc(done, [r], BackfillFrom(e, rest, r.Entry()));
    }
  }

  /** Hashed rows form a verified prefix in id order. */
  predicate Anchored(e: Env, rows: seq<Row>, k: nat) {
    k <= |rows| && AllHashed(rows[..k]) && Intact(e, rows[..k]) && NoneHashed(rows[k..])
  }

  /** Back-filling such a table yields a table that verifies. */
  lemma {:induction false} BackfillVerifies(e: Env, rows: seq<Row>, k: nat)
    requires HexDigest(e) && Anchored(e, rows, k)
    ensures Intact(e, Backfilled(e, rows)) && Backfilled(e, rows)[..k] == rows[..k]
  {
    hide HashOf, Intact, Tail, BackfillFrom;
    var a, b := rows[..k], rows[k..];
    Split(rows, k);
    TailSplit(a, b);
    TailOfIntact(e, a);
    BackfillSplit(e, a, b, Tail(rows));
    BackfillChains(e, a, b);
    Parts(a, BackfillFrom(e, b, Tail(rows)));
  }

  function FirstUnhashed(rows: seq<Row>): (k: nat)
    ensures k <= |rows| && AllHashed(rows[..k]) && (k < |rows| ==> !rows[k].Hashed())
  {
    if rows == [] || !rows[0].Hashed() then 0
    else
      var k := 1 + FirstUnhashed(rows[1..]);
      assert forall i :: 1 <= i < k ==> rows[..k][i] == rows[1..][..k - 1][i - 1];
      k
  }

  function LastHashed(rows: seq<Row>): (k: nat)
    requires !NoneHashed(rows)
    ensures k < |rows| && rows[k].Hashed() && NoneHashed(rows[k + 1..])
  {
    if rows[|rows| - 1].Hashed() then |rows| - 1
    else
      var init := rows[..|rows| - 1];
      assert rows == init + [rows[|rows| - 1]];
      var k := LastHashed(init);
      assert rows[k + 1..] == init[k + 1..] + [rows[|rows| - 1]];
      k
  }

  lemma {:induction false} LastAfter(rows: seq<Row>, j: nat)
    requires j < |rows| && rows[j].Hashed()
    ensures !NoneHashed(rows) && j <= LastHashed(rows)
  {
    hide LastHashed;
    var h := LastHashed(rows);
    assert forall k :: h < k < |rows| ==> rows[k] == rows[h + 1..][k - h - 1];
  }

  lemma {:induction false} TailIsLast(rows: seq<Row>)
    requires !NoneHashed(rows) && rows[LastHashed(rows)].Entry() != ""
    ensures Tail(rows) == rows[LastHashed(rows)].Entry()
  {
    hide LastHashed;
    var h := LastHashed(rows);
    Split(rows, h + 1);
    TailSplit(rows[..h + 1], rows[h + 1..]);
  }

  /** The other direction: a back-filled table verifies only if the hashed rows were a verified
      prefix, or the digest breaks on the rows of that table. */
  lemma {:induction false} BackfillNeedsAnchor(e: Env, rows: seq<Row>)
    requires Intact(e, Backfilled(e, rows))
    ensures var u, out := FirstUnhashed(rows), Backfilled(e, rows);
      Anchored(e, rows, u)
        || (!NoneHashed(rows) && u <= LastHashed(rows) && Breaks(e, Repeat(e, out, u, LastHashed(rows)), out, out))
  {
    hide HashOf, Intact, BackfillFrom, Repeat, Breaks, Links, FirstUnhashed, LastHashed, Tail;
    var u, out, tail := FirstUnhashed(rows), Backfilled(e, rows), Tail(rows);
    BackfillKeeps(e, rows, tail);
    assert out[..u] == rows[..u];
    IntactPrefix(e, out, u);
    if u < |rows| && !NoneHashed(rows[u..]) {
      var i :| 0 <= i < |rows[u..]| && rows[u..][i].Hashed();
      assert rows[u + i].Hashed();
      var h := LastHashed(rows);
      LastAfter(rows, u + i);
      assert rows[h] == out[h];
      EntryIsDigest(e, out, u);
      FirstGetsTail(e, rows, tail);
      NotEmptyEntry(e, out, h);
      TailIsLast(rows);
      RepeatBreaks(e, out, u, h);
    }
  }

  lemma {:induction false} NotEmptyEntry(e: Env, rows: seq<Row>, h: nat)
    requires Intact(e, rows) && h < |rows|
    ensures rows[h].Entry() != ""
  {
    assert RowOk(e, rows, h);
  }

  lemma {:induction false} FirstGetsTail(e: Env, rows: seq<Row>, prev: string)
    requires FirstUnhashed(rows) < |rows|
    ensures BackfillFrom(e, rows, prev)[FirstUnhashed(rows)].Prev() == prev
    decreases |rows|
  {
    hide HashOf;
    if rows[0].Hashed() { FirstGetsTail(e, rows[1..], prev); }
  }

  /** The anchor is needed: a legacy row that precedes a live append is chained behind it, and the
      verifier, reading in id order, stops at that row unless the digest hits the genesis value. */
  lemma {:induction false} LegacyBeforeLiveBreaks(e: Env, legacy: Row, rec: Record)
    requires !legacy.Hashed()
    ensures var live := Stored(e, rec, legacy.id + 1, Tail([legacy]));
      live.Entry() != GENESIS && live.Entry() != "" ==> BrokenAt(e, Backfilled(e, [legacy, live]), 0)
  {
    hide HashOf, RecordHash;
    var live := Stored(e, rec, legacy.id + 1, Tail([legacy]));
    var rows := [legacy, live];
    assert rows[1..] == [live];
    assert BackfillFrom(e, rows, Tail(rows))[0] == Rehash(e, legacy, Tail(rows));
  }

  // -------------------------------------------------- the code, as it runs

  datatype Update = Update(id: int, prev: string, entry: string)

  /** UPDATE … WHERE id = u.id */
  function Apply(rows: seq<Row>, u: Update): (out: seq<Row>)
    ensures |out| == |rows|
  {
    if rows == [] then []
    else
      var r := rows[0];
      [if r.id == u.id then r.(prevHash := Some(u.prev), entryHash := Some(u.entry)) else r] + Apply(rows[1..], u)
  }

  function ApplyAll(rows: seq<Row>, us: seq<Update>): seq<Row>
    decreases |us|
  {
    if us == [] then rows else ApplyAll(Apply(rows, us[0]), us[1..])
  }

  function Updates(e: Env, rows: seq<Row>, prev: string): seq<Update> {
    if rows == [] then []
    else if rows[0].Hashed() then Updates(e, rows[1..], prev)
    else [Update(rows[0].id, prev, HashOf(e, prev, rows[0]))] + Updates(e, rows[1..], HashOf(e, prev, rows[0]))
  }

  predicate DistinctIds(rows: seq<Row>) { forall i, j :: 0 <= i < j < |rows| ==> rows[i].id != rows[j].id }

  predicate Elsewhere(us: seq<Update>, id: int) { forall k :: 0 <= k < |us| ==> us[k].id != id }

  lemma {:induction false} ApplyMiss(rows: seq<Row>, u: Update)
    requires forall i :: 0 <= i < |rows| ==> rows[i].id != u.id
    ensures Apply(rows, u) == rows
  {
    if rows != [] {
      ApplyMiss(rows[1..], u);
      Head(rows);
    }
  }

  lemma {:induction false} ApplyAllSkips(r: Row, rest: seq<Row>, us: seq<Update>)
    requires Elsewhere(us, r.id)
    ensures ApplyAll([r] + rest, us) == [r] + ApplyAll(rest, us)
    decreases |us|
  {
    if us != [] {
      Cons(r, rest);
      ApplyAllSkips(r, Apply(rest, us[0]), us[1..]);
    }
  }

  lemma {:induction false} UpdatesElsewhere(e: Env, rows: seq<Row>, prev: string, id: int)
    requires forall i :: 0 <= i < |rows| ==> rows[i].id != id
    ensures Elsewhere(Updates(e, rows, prev), id)
    decreases |rows|
  {
    hide HashOf;
    if rows != [] {
      UpdatesElsewhere(e, rows[1..], if rows[0].Hashed() then prev else HashOf(e, prev, rows[0]), id);
    }
  }

  /** Updating by id, one statement a row, is the back-fill. */
  lemma {:induction false} UpdatesApplied(e: Env, rows: seq<Row>, prev: string)
    requires DistinctIds(rows)
    ensures ApplyAll(rows, Updates(e, rows, prev)) == BackfillFrom(e, rows, prev)
    decreases |rows|
  {
    hide HashOf;
    if rows != [] {
      var r, rest := rows[0], rows[1..];
      Head(rows);
      var p := if r.Hashed() then prev else HashOf(e, prev, r);
      UpdatesApplied(e, rest, p);
      assert forall i :: 0 <= i < |rest| ==> rest[i] == rows[i + 1];
      UpdatesElsewhere(e, rest, p, r.id);
      if r.Hashed() {
        ApplyAllSkips(r, rest, Updates(e, rest, p));
      } else {
        var u := Update(r.id, prev, p);
        ApplyMiss(rest, u);
        Cons(u, Updates(e, rest, p));
        ApplyAllSkips(Rehash(e, r, prev), rest, Updates(e, rest, p));
      }
    }
  }

  lemma {:induction false} UpdatesSnoc(e: Env, rows: seq<Row>, r: Row, prev: string, last: string)
    requires last == Carried(e, rows, prev)
    ensures Updates(e, rows + [r], prev)
      == Updates(e, rows, prev) + (if r.Hashed() then [] else [Update(r.id, last, HashOf(e, last, r))])
    ensures Carried(e, rows + [r], prev) == if r.Hashed() then last else HashOf(e, last, r)
    decreases |rows|
  {
    hide HashOf;
    if rows == [] {
      Empty([r]);
    } else {
      var p := if rows[0].Hashed() then prev else HashOf(e, prev, rows[0]);
      UpdatesSnoc(e, rows[1..], r, p, last);
      Within(rows, [r], 1);
    }
  }

  /** The link value after the loop has passed `rows`. */
  function Carried(e: Env, rows: seq<Row>, prev: string): string {
    if rows == [] then prev
    else Carried(e, rows[1..], if rows[0].Hashed() then prev else HashOf(e, prev, rows[0]))
  }

  lemma {:induction false} ApplyAllSnoc(rows: seq<Row>, us: seq<Update>, u: Update)
    ensures ApplyAll(rows, us + [u]) == Apply(ApplyAll(rows, us), u)
    decreases |us|
  {
    hide Apply;
    if us == [] {
      Empty([u]);
    } else {
      ApplyAllSnoc(Apply(rows, us[0]), us[1..], u);
      Within(us, [u], 1);
    }
  }

  /** The table `audit_log`, rows in id order. */
  class Log {
    var rows: seq<Row>
    var nextId: int

    ghost predicate Valid()
      reads this
    {
      && (forall i, j :: 0 <= i < j < |rows| ==> rows[i].id < rows[j].id)
      && (forall i :: 0 <= i < |rows| ==> rows[i].id < nextId)
    }

    constructor ()
      ensures Valid() && rows == []
    {
      rows, nextId := [], 1;
    }

    /** SELECT entry_hash … WHERE entry_hash IS NOT NULL ORDER BY id DESC LIMIT 1 */
    method ReadTail() returns (prev: string)
      ensures prev == Tail(rows)
    {
      var i := |rows|;
      assert rows[..i] == rows;
      while i > 0
        invariant 0 <= i <= |rows| && Tail(rows) == Tail(rows[..i])
      {
        TakeTake(rows, i - 1, i);
        if rows[i - 1].Hashed() {
          return if rows[i - 1].Entry() == "" then GENESIS else rows[i - 1].Entry();
        }
        i := i - 1;
      }
      return GENESIS;
    }

    /** `appendChained`, alone under the lock: the new row hangs on the tail, nothing else moves. */
    method AppendChained(e: Env, rec: Record)
      requires Valid()
      modifies this
      ensures Valid() && rows == old(rows) + [Stored(e, rec, old(nextId), Tail(old(rows)))]
      ensures HexDigest(e) && RoundTrips(e, rec) && Intact(e, old(rows)) ==> Intact(e, rows)
    {
      hide Links, HashOf, RecordHash, Tail, Field, Encode;
      var prev := ReadTail();
      var hash := ComputeAuditHash(e, prev, rec);
      var row := Row(nextId, rec.actor, rec.action, rec.targetType, rec.targetId, e.jsonb(rec.before), e.jsonb(rec.after),
        rec.createdAt, Some(prev), Some(hash));
      assert row == Stored(e, rec, nextId, prev);
      if HexDigest(e) && RoundTrips(e, rec) && Intact(e, rows) {
        TailOfIntact(e, rows);
        StoredLinks(e, rec, nextId, prev);
        IntactSnoc(e, rows, row);
      }
      rows := rows + [row];
      nextId := nextId + 1;
    }

    /** `WriteAudit`, alone: one row that says who did what to which target, from which state to which,
        at the caller's time cut to microseconds, hanging on the tail. */
    method WriteAudit(e: Env, actor: string, action: string, targetType: string, targetId: string,
        before: Option<string>, after: Option<string>, nowNanos: nat)
      requires Valid()
      modifies this
      ensures Valid() && |rows| == |old(rows)| + 1 && rows[..|old(rows)|] == old(rows)
      ensures var w := rows[|old(rows)|];
        && w.actor == (if actor == "" then "unknown" else actor)
        && w.action == action && w.targetType == targetType && w.targetId == targetId
        && w.before == e.jsonb(if before.Some? then e.canon(before.value) else "null")
        && w.after == e.jsonb(if after.Some? then e.canon(after.value) else "null")
        && w.createdAt % 1000 == 0 && w.createdAt <= nowNanos < w.createdAt + 1000
        && w.prevHash == Some(Tail(old(rows))) && w.entryHash.Some?
      ensures HexDigest(e) && CanonRoundTrip(e) && Intact(e, old(rows)) ==> Intact(e, rows)
    {
      var rec := RecordOf(e, actor, action, targetType, targetId, before, after, nowNanos);
      if CanonRoundTrip(e) { RecordRoundTrips(e, actor, action, targetType, targetId, before, after, nowNanos); }
      hide Intact, Tail, HexDigest, CanonRoundTrip, RoundTrips, RecordHash;
      AppendChained(e, rec);
    }

    /** `BackfillAuditChain`: collect the updates in id order, threading the link, then apply them. */
    method BackfillAuditChain(e: Env)
      requires Valid()
      modifies this`rows
      ensures rows == Backfilled(e, old(rows)) && Valid()
    {
      hide HashOf, RecordHash, RowRecord, Field, Encode, Updates, Carried, ApplyAll, Apply, Tail, BackfillFrom;
      ghost var was := rows;
      var pending := exists i :: 0 <= i < |rows| && !rows[i].Hashed();
      if !pending {
        BackfillNothing(e, rows, Tail(rows));
        return;
      }
      var tail := ReadTail();
      var prev := tail;
      var updates := [];
      NoUpdates(e, tail);
      for i := 0 to |rows|
        invariant rows == was
        invariant prev == Carried(e, was[..i], tail) && updates == Updates(e, was[..i], tail)
      {
        Snoc(was, 0, i);
        UpdatesSnoc(e, was[..i], was[i], tail, prev);
        if !rows[i].Hashed() {
          var entry := ComputeAuditHash(e, prev, RowRecord(e, rows[i]));
          HashOfRecord(e, prev, rows[i]);
          updates := updates + [Update(rows[i].id, prev, entry)];
          prev := entry;
        } else {
          Empty(updates);
        }
      }
      assert was[..|was|] == was;
      for i := 0 to |updates|
        invariant rows == ApplyAll(was, updates[..i])
      {
        Snoc(updates, 0, i);
        ApplyAllSnoc(was, updates[..i], updates[i]);
        rows := Apply(rows, updates[i]);
      }
      assert updates[..|updates|] == updates;
      UpdatesApplied(e, was, tail);
      BackfillKeeps(e, was, tail);
    }
  }

  lemma {:induction false} NoUpdates(e: Env, prev: string)
    ensures Updates(e, [], prev) == [] && Carried(e, [], prev) == prev
    ensures forall rows :: ApplyAll(rows, []) == rows
  {
  }
}
