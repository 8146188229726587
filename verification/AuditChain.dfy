/**
 The hash-chained audit trail (gateway-service/internal/auth/audit_chain.go): the hashed
 encoding, the verifier, and what a verified table proves.  SHA-256 stays uninterpreted, so
 tamper evidence is constructive: two different inputs with one digest, or an input whose
 digest is the genesis value, both taken from the rows at hand.
 */
module AuditChain {
  import opened Options
  import opened Seqs
  import opened Spaces

  /** What the code calls but this model leaves open: the hex digest, JSON canonicalisation, what
      jsonb gives back for a stored text, and the rendering of a timestamp. */
  datatype Env = Env(digest: string -> string, canon: string -> string, jsonb: string -> string, stamp: int -> string)

  const GENESIS := "0000000000000000000000000000000000000000000000000000000000000000"

  /** A stored row; a hash column that is NULL is `None`. */
  datatype Row = Row(id: int, actor: string, action: string, targetType: string, targetId: string,
    before: string, after: string, createdAt: int, prevHash: Option<string>, entryHash: Option<string>)
  {
    /** The hash columns as the verifier reads them (NULL becomes ""). */
    function Prev(): string { if prevHash.Some? then prevHash.value else "" }
    function Entry(): string { if entryHash.Some? then entryHash.value else "" }
    predicate Hashed() { entryHash.Some? }
  }

  // ------------------------------------------------------- hashed encoding

  function Decimal(n: nat): string {
    if n < 10 then [('0' as int + n) as char] else Decimal(n / 10) + [('0' as int + n % 10) as char]
  }

  function Value(s: string): int {
    if s == "" then 0 else 10 * Value(s[..|s| - 1]) + (s[|s| - 1] as int - '0' as int)
  }

  predicate NoColon(s: string) { forall k :: 0 <= k < |s| ==> s[k] != ':' }

  lemma {:induction false} DecimalReads(n: nat)
    ensures Value(Decimal(n)) == n && NoColon(Decimal(n)) && Decimal(n) != ""
  {
    if n >= 10 {
      DecimalReads(n / 10);
      Parts(Decimal(n / 10), [('0' as int + n % 10) as char]);
    }
  }

  lemma {:induction false} ColonSplits(a: string, b: string, x: string, y: string)
    requires NoColon(a) && NoColon(b) && a + ([':'] + x) == b + ([':'] + y)
    ensures a == b && x == y
  {
    var u, v := a + ([':'] + x), b + ([':'] + y);
    assert u[|a|] == ':' && v[|b|] == ':';
    assert forall k :: 0 <= k < |a| ==> u[k] == a[k];
    assert forall k :: 0 <= k < |b| ==> v[k] == b[k];
    Parts(a, [':'] + x);
    Parts(b, [':'] + y);
    Cons(':', x);
    Cons(':', y);
  }

  /** `writeHashField`: length, colon, bytes.  Fields are Go strings, read here as sequences of bytes. */
  function Field(f: string): string { Decimal(|f|) + ([':'] + f) }

  function Encode(fs: seq<string>): string { if fs == [] then "" else Field(fs[0]) + Encode(fs[1..]) }

  /** Field lists of one length encode differently unless they are the same list. */
  lemma {:induction false} EncodeInjective(fs: seq<string>, gs: seq<string>)
    requires |fs| == |gs| && Encode(fs) == Encode(gs)
    ensures fs == gs
    decreases |fs|
  {
    if fs != [] {
      var f, g, x, y := fs[0], gs[0], Encode(fs[1..]), Encode(gs[1..]);
      hide Encode;
      DecimalReads(|f|);
      DecimalReads(|g|);
      Assoc(Decimal(|f|), [':'] + f, x);
      Assoc([':'], f, x);
      Assoc(Decimal(|g|), [':'] + g, y);
      Assoc([':'], g, y);
      ColonSplits(Decimal(|f|), Decimal(|g|), f + x, g + y);
      Parts(f, x);
      Parts(g, y);
      EncodeInjective(fs[1..], gs[1..]);
      Head(fs);
      Head(gs);
    }
  }

  /** What is hashed: canonical JSON, and a timestamp already cut to microseconds. */
  datatype Record = Record(actor: string, action: string, targetType: string, targetId: string,
    before: string, after: string, createdAt: int)

  function Fields(e: Env, rec: Record): (fs: seq<string>)
    ensures |fs| == 7
  {
    [rec.actor, rec.action, rec.targetType, rec.targetId, rec.before, rec.after, e.stamp(rec.createdAt)]
  }

  function RecordHash(e: Env, prev: string, rec: Record): string { e.digest(Encode([prev] + Fields(e, rec))) }

  /** `computeAuditHash`, which write, back-fill and verify all call: one field after another. */
  method ComputeAuditHash(e: Env, prev: string, rec: Record) returns (hash: string)
    ensures hash == RecordHash(e, prev, rec)
    ensures hash == e.digest(Field(prev) + Field(rec.actor) + Field(rec.action) + Field(rec.targetType) + Field(rec.targetId)
      + Field(rec.before) + Field(rec.after) + Field(e.stamp(rec.createdAt)))
  {
    hide Field, Encode;
    var s := e.stamp(rec.createdAt);
    ghost var all := [prev] + Fields(e, rec);
    var h := "";
    Empty(Encode(all));
    assert all[0..] == all && all[8..] == [];
    h := Feed(h, prev, all, 0);
    h := Feed(h, rec.actor, all, 1);
    h := Feed(h, rec.action, all, 2);
    h := Feed(h, rec.targetType, all, 3);
    h := Feed(h, rec.targetId, all, 4);
    h := Feed(h, rec.before, all, 5);
    h := Feed(h, rec.after, all, 6);
    h := Feed(h, s, all, 7);
    EncodeNone();
    Empty(h);
    Empty(Field(prev));
    hash := e.digest(h);
  }

  /** `writeHashField` on a hasher that has been fed the first `k` fields of `all`. */
  method Feed(h: string, field: string, ghost all: seq<string>, ghost k: nat) returns (h': string)
    requires k < |all| && all[k] == field && h + Encode(all[k..]) == Encode(all)
    ensures h' == h + Field(field) && h' + Encode(all[k + 1..]) == Encode(all)
  {
    assert all[k..] == [field] + all[k + 1..];
    EncodeCons(field, all[k + 1..]);
    Assoc(h, Field(field), Encode(all[k + 1..]));
    h' := h + Field(field);
  }

  lemma {:induction false} EncodeCons(f: string, fs: seq<string>)
    ensures Encode([f] + fs) == Field(f) + Encode(fs)
  {
    hide Field;
    Cons(f, fs);
  }

  lemma {:induction false} EncodeNone()
    ensures Encode([]) == ""
  {
  }

  /** `ChainRow.record`: the row without its id, its states canonical. */
  function RowRecord(e: Env, r: Row): Record {
    Record(r.actor, r.action, r.targetType, r.targetId, e.canon(r.before), e.canon(r.after), r.createdAt)
  }

  /** The content that enters the hash; the id does not. */
  function Content(e: Env, r: Row): (fs: seq<string>)
    ensures |fs| == 7
  {
    Fields(e, RowRecord(e, r))
  }

  function HashInput(e: Env, prev: string, r: Row): string { Encode([prev] + Content(e, r)) }

  function HashOf(e: Env, prev: string, r: Row): string { e.digest(HashInput(e, prev, r)) }

  lemma {:induction false} HashOfRecord(e: Env, prev: string, r: Row)
    ensures HashOf(e, prev, r) == RecordHash(e, prev, RowRecord(e, r))
  {
  }

  /** Equal inputs mean equal predecessors and equal fields, one by one. */
  lemma {:induction false} InputInjective(e: Env, p: string, r: Row, q: string, t: Row)
    requires HashInput(e, p, r) == HashInput(e, q, t)
    ensures p == q && Content(e, r) == Content(e, t)
    ensures r.actor == t.actor && r.action == t.action && r.targetType == t.targetType && r.targetId == t.targetId
    ensures e.canon(r.before) == e.canon(t.before) && e.canon(r.after) == e.canon(t.after)
    ensures e.stamp(r.createdAt) == e.stamp(t.createdAt)
  {
    assert Content(e, r) == Content(e, t) by {
      hide Encode, Content;
      EncodeInjective([p] + Content(e, r), [q] + Content(e, t));
      Cons(p, Content(e, r));
      Cons(q, Content(e, t));
    }
    assert p == q by {
      hide Encode, Content;
      EncodeInjective([p] + Content(e, r), [q] + Content(e, t));
      Cons(p, Content(e, r));
      Cons(q, Content(e, t));
    }
    hide Encode;
    ContentFields(e, r);
    ContentFields(e, t);
  }

  /** The seven fields of the content, in the order they are hashed. */
  lemma {:induction false} ContentFields(e: Env, r: Row)
    ensures Content(e, r)[0] == r.actor && Content(e, r)[1] == r.action && Content(e, r)[2] == r.targetType
    ensures Content(e, r)[3] == r.targetId && Content(e, r)[4] == e.canon(r.before) && Content(e, r)[5] == e.canon(r.after)
    ensures Content(e, r)[6] == e.stamp(r.createdAt)
  {
  }

  predicate HexChar(c: char) { '0' <= c <= '9' || 'a' <= c <= 'f' }

  /** hex.EncodeToString of a 32-byte sum. */
  ghost predicate HexDigest(e: Env) {
    forall x :: |e.digest(x)| == 64 && forall k :: 0 <= k < 64 ==> HexChar(e.digest(x)[k])
  }

  predicate Blank(s: string) { forall k :: 0 <= k < |s| ==> IsSpace(s[k]) }

  lemma {:induction false} DigestNotBlank(e: Env, x: string)
    requires HexDigest(e)
    ensures !Blank(e.digest(x)) && e.digest(x) != ""
  {
    assert HexChar(e.digest(x)[0]);
    assert !IsSpace(e.digest(x)[0]);
  }

  // ------------------------------------------------------------ the verifier

  function PrevOf(rows: seq<Row>, i: nat): string
    requires i <= |rows|
  {
    if i == 0 then GENESIS else rows[i - 1].Entry()
  }

  /** A row that hangs on `prev`: hashed, linked, and hashed from its own content. */
  predicate Links(e: Env, prev: string, r: Row) {
    !Blank(r.Entry()) && r.Prev() == prev && r.Entry() == HashOf(e, prev, r)
  }

  predicate RowOk(e: Env, rows: seq<Row>, i: nat)
    requires i < |rows|
  {
    Links(e, PrevOf(rows, i), rows[i])
  }

  /** One unforked chain: every row hangs on the row just before it. */
  predicate Intact(e: Env, rows: seq<Row>) { forall i :: 0 <= i < |rows| ==> RowOk(e, rows, i) }

  predicate BrokenAt(e: Env, rows: seq<Row>, k: nat) {
    k < |rows| && !RowOk(e, rows, k) && forall i :: 0 <= i < k ==> RowOk(e, rows, i)
  }

  datatype Reason = Verified | NotHashed | Unlinked | Altered
  datatype Verification = Verification(valid: bool, count: nat, firstBrokenId: int, reason: Reason)

  /** The report names row `k` and says which of the three checks it failed first. */
  predicate Reports(v: Verification, rows: seq<Row>, k: nat)
    requires k < |rows|
  {
    && v.firstBrokenId == rows[k].id
    && (v.reason == NotHashed <==> Blank(rows[k].Entry()))
    && (v.reason == Unlinked <==> !Blank(rows[k].Entry()) && rows[k].Prev() != PrevOf(rows, k))
    && v.reason != Verified
  }

  /** `VerifyAuditChain`: rows oldest first; reports the first row where a check fails. */
  method VerifyAuditChain(e: Env, rows: seq<Row>) returns (v: Verification)
    ensures v.count == |rows|
    ensures v.valid <==> Intact(e, rows)
    ensures !v.valid ==> exists k: nat :: BrokenAt(e, rows, k) && Reports(v, rows, k)
    ensures v.valid ==> v.firstBrokenId == 0 && v.reason == Verified
  {
    hide HashOf, RecordHash, Encode, Field, RowRecord;
    var prev := GENESIS;
    for i := 0 to |rows|
      invariant prev == PrevOf(rows, i)
      invariant forall j :: 0 <= j < i ==> RowOk(e, rows, j)
    {
      var row := rows[i];
      if Blank(row.Entry()) {
        v := Verification(false, |rows|, row.id, NotHashed);
        assert BrokenAt(e, rows, i) && Reports(v, rows, i);
        return;
      }
      if row.Prev() != prev {
        v := Verification(false, |rows|, row.id, Unlinked);
        assert BrokenAt(e, rows, i) && Reports(v, rows, i);
        return;
      }
      var want := ComputeAuditHash(e, prev, RowRecord(e, row));
      HashOfRecord(e, prev, row);
      if row.Entry() != want {
        v := Verification(false, |rows|, row.id, Altered);
        assert BrokenAt(e, rows, i) && Reports(v, rows, i);
        return;
      }
      prev := row.Entry();
    }
    return Verification(true, |rows|, 0, Verified);
  }

  lemma {:induction false} IntactPrefix(e: Env, rows: seq<Row>, k: nat)
    requires Intact(e, rows) && k <= |rows|
    ensures Intact(e, rows[..k])
  {
    hide Links;
    forall i | 0 <= i < k
      ensures RowOk(e, rows[..k], i)
    {
      assert RowOk(e, rows, i);
    }
  }

  lemma {:induction false} IntactSnoc(e: Env, rows: seq<Row>, r: Row)
    requires Intact(e, rows) && Links(e, PrevOf(rows, |rows|), r)
    ensures Intact(e, rows + [r])
  {
    hide Links;
    var t := rows + [r];
    forall i | 0 <= i < |t|
      ensures RowOk(e, t, i)
    {
      assert PrevOf(t, i) == PrevOf(rows, i);
      if i < |rows| { assert RowOk(e, rows, i) && t[i] == rows[i]; }
    }
  }

  // ------------------------------------------------------- tamper evidence

  datatype Evidence = Agree | Collision(x: string, y: string) | Preimage(x: string)

  /** The text that was hashed into row `i`. */
  function InputAt(e: Env, rows: seq<Row>, i: nat): string
    requires i < |rows|
  {
    HashInput(e, PrevOf(rows, i), rows[i])
  }

  /** A break of the digest, made of inputs that these rows were hashed from. */
  ghost predicate Breaks(e: Env, ev: Evidence, s: seq<Row>, t: seq<Row>) {
    match ev
    case Agree => false
    case Collision(x, y) => x != y && e.digest(x) == e.digest(y) && IsInput(e, x, s) && IsInput(e, y, t)
    case Preimage(x) => e.digest(x) == GENESIS && (IsInput(e, x, s) || IsInput(e, x, t))
  }

  ghost predicate IsInput(e: Env, x: string, rows: seq<Row>) {
    exists i :: 0 <= i < |rows| && x == InputAt(e, rows, i)
  }

  predicate SameRow(e: Env, r: Row, t: Row) {
    Content(e, r) == Content(e, t) && r.Prev() == t.Prev() && r.Entry() == t.Entry()
  }

  /** Walks two tables back from a common last hash, to the first place where they part. */
  function Compare(e: Env, s: seq<Row>, t: seq<Row>): Evidence
    requires s != [] && t != []
    decreases |s|
  {
    var i, j := |s| - 1, |t| - 1;
    if InputAt(e, s, i) != InputAt(e, t, j) then Collision(InputAt(e, s, i), InputAt(e, t, j))
    else if i == 0 && j == 0 then Agree
    else if i == 0 then Preimage(InputAt(e, t, j - 1))
    else if j == 0 then Preimage(InputAt(e, s, i - 1))
    else Compare(e, s[..i], t[..j])
  }

  lemma {:induction false} InputGrows(e: Env, rows: seq<Row>, k: nat, x: string)
    requires k <= |rows| && IsInput(e, x, rows[..k])
    ensures IsInput(e, x, rows)
  {
    hide HashInput;
    var i :| 0 <= i < k && x == InputAt(e, rows[..k], i);
    assert x == InputAt(e, rows, i);
  }

  lemma {:induction false} EntryIsDigest(e: Env, rows: seq<Row>, i: nat)
    requires Intact(e, rows) && i < |rows|
    ensures rows[i].Entry() == e.digest(InputAt(e, rows, i)) && rows[i].Prev() == PrevOf(rows, i)
    ensures IsInput(e, InputAt(e, rows, i), rows)
  {
    hide HashInput;
    assert RowOk(e, rows, i);
  }

  lemma {:induction false} SameInput(e: Env, s: seq<Row>, i: nat, t: seq<Row>, j: nat)
    requires i < |s| && j < |t| && Intact(e, s) && Intact(e, t)
    requires InputAt(e, s, i) == InputAt(e, t, j)
    ensures PrevOf(s, i) == PrevOf(t, j) && SameRow(e, s[i], t[j])
  {
    hide HashInput, Content, Links;
    EntryIsDigest(e, s, i);
    EntryIsDigest(e, t, j);
    InputInjective(e, PrevOf(s, i), s[i], PrevOf(t, j), t[j]);
  }

  /** The same for the fields, one by one: tables that agree tell the same story of who did what, to
      what, from what, to what, and when. */
  lemma {:induction false} TablesAgree(e: Env, s: seq<Row>, t: seq<Row>, k: nat)
    requires s != [] && t != [] && Intact(e, s) && Intact(e, t)
    requires s[|s| - 1].Entry() == t[|t| - 1].Entry() && Compare(e, s, t).Agree? && k < |s|
    ensures |s| == |t| && s[k].actor == t[k].actor && s[k].action == t[k].action
    ensures s[k].targetType == t[k].targetType && s[k].targetId == t[k].targetId
    ensures e.canon(s[k].before) == e.canon(t[k].before) && e.canon(s[k].after) == e.canon(t[k].after)
    ensures e.stamp(s[k].createdAt) == e.stamp(t[k].createdAt)
    ensures s[k].Prev() == t[k].Prev() && s[k].Entry() == t[k].Entry()
  {
    TamperEvidence(e, s, t);
    hide Intact, Compare, Content;
    assert SameRow(e, s[k], t[k]);
    ContentFields(e, s[k]);
    ContentFields(e, t[k]);
  }

  /** Two verified tables that end in one hash agree row for row on all hashed content, or the walk
      hands over a collision or a preimage of the genesis value. */
  lemma {:induction false} TamperEvidence(e: Env, s: seq<Row>, t: seq<Row>)
    requires s != [] && t != [] && Intact(e, s) && Intact(e, t)
    requires s[|s| - 1].Entry() == t[|t| - 1].Entry()
    ensures Compare(e, s, t).Agree? ==> |s| == |t| && forall k :: 0 <= k < |s| ==> SameRow(e, s[k], t[k])
    ensures !Compare(e, s, t).Agree? ==> Breaks(e, Compare(e, s, t), s, t)
    decreases |s|
  {
    hide HashInput, Content, Links, IsInput, SameRow;
    var i, j := |s| - 1, |t| - 1;
    EntryIsDigest(e, s, i);
    EntryIsDigest(e, t, j);
    if InputAt(e, s, i) == InputAt(e, t, j) {
      SameInput(e, s, i, t, j);
      if i > 0 { EntryIsDigest(e, s, i - 1); }
      if j > 0 { EntryIsDigest(e, t, j - 1); }
      if i > 0 && j > 0 {
        var a, b := s[..i], t[..j];
        IntactPrefix(e, s, i);
        IntactPrefix(e, t, j);
        TamperEvidence(e, a, b);
        var ev := Compare(e, a, b);
        if !ev.Agree? { EvidenceGrows(e, ev, s, i, t, j); }
      }
    }
  }

  lemma {:induction false} EvidenceGrows(e: Env, ev: Evidence, s: seq<Row>, i: nat, t: seq<Row>, j: nat)
    requires i <= |s| && j <= |t| && Breaks(e, ev, s[..i], t[..j])
    ensures Breaks(e, ev, s, t)
  {
    hide IsInput;
    if ev.Collision? {
      InputGrows(e, s, i, ev.x);
      InputGrows(e, t, j, ev.y);
    } else if IsInput(e, ev.x, s[..i]) {
      InputGrows(e, s, i, ev.x);
    } else {
      InputGrows(e, t, j, ev.x);
    }
  }

  /** In a verified table no hash occurs twice and none is the genesis value, unless the digest breaks. */
  function Repeat(e: Env, rows: seq<Row>, i: nat, j: nat): Evidence
    requires i <= j < |rows|
  {
    if i == 0 then Preimage(InputAt(e, rows, j)) else Compare(e, rows[..i], rows[..j + 1])
  }

  lemma {:induction false} RepeatBreaks(e: Env, rows: seq<Row>, i: nat, j: nat)
    requires Intact(e, rows) && i <= j < |rows| && PrevOf(rows, i) == rows[j].Entry()
    ensures Breaks(e, Repeat(e, rows, i, j), rows, rows)
  {
    hide Links, Compare, HashInput, IsInput;
    EntryIsDigest(e, rows, j);
    if i > 0 {
      IntactPrefix(e, rows, i);
      IntactPrefix(e, rows, j + 1);
      TamperEvidence(e, rows[..i], rows[..j + 1]);
      EvidenceGrows(e, Compare(e, rows[..i], rows[..j + 1]), rows, i, rows, j + 1);
    }
  }

  /** No two rows of a verified table claim the same predecessor, unless the digest breaks. */
  lemma {:induction false} NoForks(e: Env, rows: seq<Row>, i: nat, j: nat)
    requires Intact(e, rows) && i < j < |rows| && rows[i].Prev() == rows[j].Prev()
    ensures Breaks(e, Repeat(e, rows, i, j - 1), rows, rows)
  {
    hide Links, Repeat, Breaks;
    EntryIsDigest(e, rows, i);
    EntryIsDigest(e, rows, j);
    RepeatBreaks(e, rows, i, j - 1);
  }

  // -------------------------------------------------------- fault location

  /** Replacing one row of a verified table: exactly where verification then stops. */
  lemma {:induction false} EditLocated(e: Env, rows: seq<Row>, i: nat, r: Row)
    requires Intact(e, rows) && i < |rows|
    ensures !Links(e, PrevOf(rows, i), r) ==> BrokenAt(e, rows[i := r], i)
    ensures Links(e, PrevOf(rows, i), r) && r.Entry() != rows[i].Entry() && i + 1 < |rows| ==>
      BrokenAt(e, rows[i := r], i + 1)
    ensures Links(e, PrevOf(rows, i), r) && (r.Entry() == rows[i].Entry() || i + 1 == |rows|) ==>
      Intact(e, rows[i := r])
  {
    var t := rows[i := r];
    forall k | 0 <= k < |rows| && k != i && k != i + 1
      ensures RowOk(e, t, k)
    {
      hide Links;
      assert RowOk(e, rows, k) && PrevOf(t, k) == PrevOf(rows, k) && t[k] == rows[k];
    }
    assert PrevOf(t, i) == PrevOf(rows, i) && t[i] == r;
    assert i + 1 < |rows| ==> RowOk(e, rows, i + 1) && PrevOf(t, i + 1) == r.Entry() && t[i + 1] == rows[i + 1];
  }

  /** A row with any other actor, action, target, state, time or link, under the old hash, is reported
      at that row, or the old and the new input are a collision. */
  lemma {:induction false} OneFieldEdit(e: Env, rows: seq<Row>, i: nat, r: Row)
    requires Intact(e, rows) && i < |rows| && r.Entry() == rows[i].Entry()
    requires r.actor != rows[i].actor || r.action != rows[i].action || r.targetType != rows[i].targetType
      || r.targetId != rows[i].targetId || e.canon(r.before) != e.canon(rows[i].before)
      || e.canon(r.after) != e.canon(rows[i].after) || e.stamp(r.createdAt) != e.stamp(rows[i].createdAt)
      || r.Prev() != rows[i].Prev()
    ensures BrokenAt(e, rows[i := r], i)
      || (HashInput(e, PrevOf(rows, i), r) != InputAt(e, rows, i)
          && e.digest(HashInput(e, PrevOf(rows, i), r)) == e.digest(InputAt(e, rows, i)))
  {
    var prev := PrevOf(rows, i);
    EditLocated(e, rows, i, r);
    assert RowOk(e, rows, i);
    hide Content, Encode;
    if Links(e, prev, r) && HashInput(e, prev, r) == HashInput(e, prev, rows[i]) {
      InputInjective(e, prev, r, prev, rows[i]);
    }
  }

  /** Another hash under the old content and link is reported at that row. */
  lemma {:induction false} HashEdit(e: Env, rows: seq<Row>, i: nat, r: Row)
    requires Intact(e, rows) && i < |rows| && r.Entry() != rows[i].Entry()
    requires r.Prev() == rows[i].Prev() && Content(e, r) == Content(e, rows[i])
    ensures BrokenAt(e, rows[i := r], i)
  {
    EditLocated(e, rows, i, r);
    assert RowOk(e, rows, i);
    hide Encode, Content;
  }

  /** A row without a hash, or whose hash is nothing but spaces, tabs and line breaks, breaks the chain. */
  lemma {:induction false} UnhashedRowBreaks(e: Env, rows: seq<Row>, i: nat)
    requires i < |rows|
    requires rows[i].entryHash.Some? ==> forall c :: c in rows[i].entryHash.value ==> c in " \t\r\n"
    ensures !Intact(e, rows)
  {
    if Intact(e, rows) {
      assert RowOk(e, rows, i);
      NotBlank(rows[i].Entry());
      assert false;
    }
  }

  lemma {:induction false} NotBlank(s: string)
    requires !Blank(s)
    ensures exists k :: 0 <= k < |s| && s[k] !in " \t\r\n"
  {
    var k :| 0 <= k < |s| && !IsSpace(s[k]);
  }

  /** The first row of a verified table links to sixty-four zeros. */
  lemma {:induction false} FirstRowLinksToZeros(e: Env, rows: seq<Row>)
    requires Intact(e, rows) && rows != []
    ensures rows[0].Prev() == "0000000000000000000000000000000000000000000000000000000000000000"
  {
    assert RowOk(e, rows, 0);
    assert rows[0].Prev() == GENESIS;
  }

  function Without(rows: seq<Row>, i: nat): seq<Row>
    requires i < |rows|
  {
    rows[..i] + rows[i + 1..]
  }

  /** Deleting a row that is not the last is reported at the row that followed it, unless the digest
      breaks; deleting the last row leaves a table that verifies. */
  lemma {:induction false} DeleteLocated(e: Env, rows: seq<Row>, i: nat)
    requires Intact(e, rows) && i < |rows|
    ensures i + 1 < |rows| ==> BrokenAt(e, Without(rows, i), i) || Breaks(e, Repeat(e, rows, i, i), rows, rows)
    ensures i + 1 == |rows| ==> Intact(e, Without(rows, i))
  {
    hide Repeat, Breaks, Links;
    var t := Without(rows, i);
    forall k | 0 <= k < i
      ensures RowOk(e, t, k)
    {
      assert RowOk(e, rows, k) && PrevOf(t, k) == PrevOf(rows, k) && t[k] == rows[k];
    }
    if i + 1 < |rows| {
      assert t[i] == rows[i + 1] && PrevOf(t, i) == PrevOf(rows, i);
      EntryIsDigest(e, rows, i + 1);
      if PrevOf(rows, i) == rows[i].Entry() {
        RepeatBreaks(e, rows, i, i);
      } else {
        LinksNeedsPrev(e, PrevOf(rows, i), rows[i + 1]);
      }
    }
  }

  lemma {:induction false} LinksNeedsPrev(e: Env, prev: string, r: Row)
    requires r.Prev() != prev
    ensures !Links(e, prev, r)
  {
  }
}
