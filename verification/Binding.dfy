/**
 What the placeholder translation means (shared/db/rewrite.go, `RewritePlaceholders`): how Postgres
 reads a query, how SQLite reads its translation, and exactly when the two agree rune by rune.
 Both databases and the scanner read quotes and comments by one rule; they differ over `$`.
 */
module Binding {
  import opened Seqs
  import opened SqlScan
  import opened SqlAgreement
  import opened Placeholders

  /** How a database reads a rune: inside a literal or comment, as the start of numbered parameter
      `n`, as a variable of another kind (or one it rejects), or as anything else. */
  datatype Mark = Quoted | Plain | Param(n: nat) | Other

  /** A rune that continues an identifier, in either database. */
  predicate WordRune(c: char) { IsTagRune(c) || c == '$' || c as int >= 0x80 }

  /** Length of the quote or comment that opens at the start of `s`, or 0. */
  function QuoteLen(s: string): (n: nat)
    ensures n <= |s|
  {
    if s != "" && s[0] != '$' then LitLen(s) else 0
  }

  function Marks(n: nat, m: Mark): (ms: seq<Mark>)
    ensures |ms| == n && forall k :: 0 <= k < n ==> ms[k] == m
  {
    seq(n, _ => m)
  }

  // --------------------------------------------------------------- Postgres

  /** Postgres's own `$tag$`: no length limit, any letter, and no digit in front. */
  function PgTagScan(s: string, k: nat): (n: nat)
    requires k <= |s|
    ensures n == 0 || k < n <= |s|
    decreases |s| - k
  {
    if k == |s| then 0
    else if s[k] == '$' then k + 1
    else if WordRune(s[k]) then PgTagScan(s, k + 1)
    else 0
  }

  function PgTagLen(s: string): (n: nat)
    ensures n <= |s|
  {
    if |s| < 2 || s[0] != '$' || IsDigit(s[1]) then 0 else PgTagScan(s, 1)
  }

  /** A dollar quote opens only where no identifier is running. */
  function PgLit(s: string, glued: bool): (n: nat)
    ensures n <= |s|
  {
    if QuoteLen(s) > 0 then QuoteLen(s)
    else if !glued && PgTagLen(s) > 0 then PgTagLen(s) + DollarRest(s[..PgTagLen(s)], "", s[PgTagLen(s)..])
    else 0
  }

  predicate Numbered(s: string) { |s| > 1 && s[0] == '$' && IsDigit(s[1]) }

  function PgMark(s: string, glued: bool): Mark {
    if !glued && Numbered(s) then Param(NumberAt(s[1..])) else Plain
  }

  /** `glued`: the rune before `s` belongs to an identifier, which may contain `$`. */
  function PgReads(s: string, glued: bool): (ms: seq<Mark>)
    ensures |ms| == |s|
    decreases |s|
  {
    if s == "" then []
    else if PgLit(s, glued) > 0 then Marks(PgLit(s, glued), Quoted) + PgReads(s[PgLit(s, glued)..], false)
    else [PgMark(s, glued)] + PgReads(s[1..], WordRune(s[0]))
  }

  // ----------------------------------------------------------------- SQLite

  /** SQLite also quotes with `[…]` and backticks, and has no dollar quotes. */
  function SqliteLit(s: string): (n: nat)
    ensures n <= |s|
  {
    if QuoteLen(s) > 0 then QuoteLen(s)
    else if s != "" && s[0] == '[' then 1 + RestTo(']', s[1..])
    else if s != "" && s[0] == '`' then 1 + RestTo('`', s[1..])
    else 0
  }

  /** `?n` is parameter n.  A bare `?` takes the next free number; `$`, `@`, `#` and `:` open a named
      variable, which takes one too, or are rejected.  Inside an identifier `$` is a letter. */
  function SqliteMark(s: string, glued: bool): Mark
    requires s != ""
  {
    if s[0] == '?' then if |s| > 1 && IsDigit(s[1]) then Param(NumberAt(s[1..])) else Other
    else if s[0] in "@#:" || (s[0] == '$' && !glued) then Other
    else Plain
  }

  function SqliteReads(s: string, glued: bool): (ms: seq<Mark>)
    ensures |ms| == |s|
    decreases |s|
  {
    if s == "" then []
    else if SqliteLit(s) > 0 then Marks(SqliteLit(s), Quoted) + SqliteReads(s[SqliteLit(s)..], false)
    else [SqliteMark(s, glued)] + SqliteReads(s[1..], WordRune(s[0]))
  }

  // ------------------------------------------------------ reading them alike

  /** The text differs at parameters only. */
  predicate SameElsewhere(s: string, t: string, ms: seq<Mark>)
    requires |s| == |t| == |ms|
  {
    forall k :: 0 <= k < |s| && !ms[k].Param? ==> t[k] == s[k]
  }

  /** SQLite reads `t` as Postgres reads `s`: the same parameters with the same numbers in the same
      places, the same literals, and no other rune changed. */
  predicate ReadAlike(s: string, t: string)
    requires |s| == |t|
  {
    SqliteReads(t, false) == PgReads(s, false) && SameElsewhere(s, t, PgReads(s, false))
  }

  predicate Alike(s: string, l: seq<bool>, g: bool, h: bool)
    requires |l| == |s|
  {
    SqliteReads(Swap(s, l), h) == PgReads(s, g) && SameElsewhere(s, Swap(s, l), PgReads(s, g))
  }

  /** A code rune the translation gets right; `b` says whether the scanner takes it for code. */
  predicate RuneOk(s: string, b: bool, glued: bool)
    requires s != ""
  {
    if s[0] in "?[`@#:" then false
    else if s[0] == '$' then (b && Numbered(s)) == !glued
    else true
  }

  predicate Untouched(s: string, l: seq<bool>, n: nat)
    requires |l| == |s| && n <= |s|
  {
    forall k :: 0 <= k < n ==> !(l[k] && Hit(s[k], s[k + 1..]))
  }

  predicate Clean(s: string, l: seq<bool>, glued: bool)
    requires |l| == |s|
    decreases |s|
  {
    if s == "" then true
    else if QuoteLen(s) > 0 then Untouched(s, l, QuoteLen(s)) && Clean(s[QuoteLen(s)..], l[QuoteLen(s)..], false)
    else RuneOk(s, l[0], glued) && Clean(s[1..], l[1..], WordRune(s[0]))
  }

  lemma {:induction false} NearSingle(x: string, y: string)
    requires Near(x, y)
    ensures SingleRest(y) == SingleRest(x)
    decreases |x|
  {
    if x != "" {
      NearTail(x, y, 1);
      NearSingle(x[1..], y[1..]);
      if |x| > 1 {
        NearTail(x, y, 2);
        NearSingle(x[2..], y[2..]);
      }
    }
  }

  lemma {:induction false} NearTo(stop: char, x: string, y: string)
    requires Near(x, y) && stop != '$' && stop != '?'
    ensures RestTo(stop, y) == RestTo(stop, x)
    decreases |x|
  {
    if x != "" {
      NearTail(x, y, 1);
      NearTo(stop, x[1..], y[1..]);
    }
  }

  lemma {:induction false} NearBlock(p: char, q: char, x: string, y: string)
    requires Near(x, y) && (q == p || (p == '$' && q == '?'))
    ensures BlockRest(q, y) == BlockRest(p, x)
    decreases |x|
  {
    if x != "" {
      NearTail(x, y, 1);
      NearBlock(x[0], y[0], x[1..], y[1..]);
    }
  }

  lemma {:induction false} NearTail(x: string, y: string, n: nat)
    requires Near(x, y) && n <= |x|
    ensures Near(x[n..], y[n..])
  {
  }

  /** Exchanging `$` for `?` opens and closes no quote or comment. */
  lemma {:induction false} NearQuote(s: string, t: string)
    requires Near(s, t)
    ensures QuoteLen(t) == QuoteLen(s)
  {
    hide SingleRest, RestTo, BlockRest, DollarRest, TagScan;
    if s != "" {
      NearTail(s, t, 1);
      NearSingle(s[1..], t[1..]);
      NearTo('"', s[1..], t[1..]);
      NearTo('\n', s[1..], t[1..]);
      NearBlock('/', '/', s[1..], t[1..]);
    }
  }

  lemma {:induction false} SwapRest(s: string, l: seq<bool>, n: nat)
    requires |l| == |s| && n <= |s|
    ensures Swap(s, l)[n..] == Swap(s[n..], l[n..])
    decreases n
  {
    hide Hit;
    if n > 0 {
      Head(s);
      Head(l);
      SwapCons(s[0], s[1..], l[0], l[1..]);
      SwapRest(s[1..], l[1..], n - 1);
      DropDrop(s, 1, n - 1);
      DropDrop(l, 1, n - 1);
      assert Swap(s, l)[n..] == Swap(s[1..], l[1..])[n - 1..];
    }
  }

  lemma {:induction false} UntouchedText(s: string, l: seq<bool>, n: nat)
    requires |l| == |s| && n <= |s|
    ensures Untouched(s, l, n) <==> forall k :: 0 <= k < n ==> Swap(s, l)[k] == s[k]
  {
    hide Swap;
    forall k | 0 <= k < n ensures Swap(s, l)[k] == s[k] <==> !(l[k] && Hit(s[k], s[k + 1..])) { SwapAt(s, l, k); }
  }

  lemma {:induction false} SplitElsewhere(s: string, t: string, ms: seq<Mark>, n: nat)
    requires |s| == |t| == |ms| && n <= |s|
    ensures SameElsewhere(s, t, ms) <==>
      (forall k :: 0 <= k < n && !ms[k].Param? ==> t[k] == s[k]) && SameElsewhere(s[n..], t[n..], ms[n..])
  {
    if SameElsewhere(s[n..], t[n..], ms[n..]) {
      forall k | n <= k < |s| && !ms[k].Param? ensures t[k] == s[k] {
        assert ms[n..][k - n] == ms[k];
        assert t[n..][k - n] == s[n..][k - n];
      }
    }
  }

  /** Through a quote both databases read the same length; nothing in it may have changed. */
  lemma {:induction false} AlikeQuote(s: string, l: seq<bool>, g: bool, h: bool)
    requires |l| == |s| && QuoteLen(s) > 0
    ensures var n := QuoteLen(s);
      Alike(s, l, g, h) <==> Untouched(s, l, n) && Alike(s[n..], l[n..], false, false)
  {
    var t, n := Swap(s, l), QuoteLen(s);
    SwapNear(s, l);
    NearQuote(s, t);
    SwapRest(s, l, n);
    UntouchedText(s, l, n);
    hide QuoteLen, Swap, Near, Untouched;
    var pg, sq := PgReads(s, g), SqliteReads(t, h);
    Parts(Marks(n, Quoted), PgReads(s[n..], false));
    Parts(Marks(n, Quoted), SqliteReads(t[n..], false));
    assert forall k :: 0 <= k < n ==> pg[k] == pg[..n][k];
    SplitElsewhere(s, t, pg, n);
    assert sq == pg <==> sq[n..] == pg[n..] by { Split(sq, n); Split(pg, n); }
  }

  lemma {:induction false} TailsAlike(s: string, t: string, pg: seq<Mark>, sq: seq<Mark>)
    requires |s| == |t| == |pg| == |sq| > 0
    ensures sq == pg && SameElsewhere(s, t, pg) <==>
      sq[0] == pg[0] && (pg[0].Param? || t[0] == s[0]) && sq[1..] == pg[1..] && SameElsewhere(s[1..], t[1..], pg[1..])
  {
    SplitElsewhere(s, t, pg, 1);
    Head(sq);
    Head(pg);
  }

  /** The translated text around its first rune. */
  lemma {:induction false} SwapHead(s: string, l: seq<bool>)
    requires |l| == |s| > 0 && QuoteLen(s) == 0
    ensures var t := Swap(s, l);
      && QuoteLen(t) == 0 && t[0] == (if l[0] && Numbered(s) then '?' else s[0])
      && (|s| > 1 && IsDigit(s[1]) <==> |t| > 1 && IsDigit(t[1]))
      && NumberAt(t[1..]) == NumberAt(s[1..])
  {
    var t := Swap(s, l);
    SwapNear(s, l);
    NearQuote(s, t);
    SwapAt(s, l, 0);
    NearTail(s, t, 1);
    NearNumber(s[1..], t[1..]);
    hide Swap, Near, NumberAt, QuoteLen;
  }

  /** What the two databases make of a code rune before and after translation, when it is right. */
  lemma {:induction false} RuneAgrees(s: string, l: seq<bool>, g: bool, h: bool)
    requires |l| == |s| > 0 && QuoteLen(s) == 0 && (g == h || IsDigit(s[0])) && RuneOk(s, l[0], g)
    ensures var t := Swap(s, l);
      && QuoteLen(t) == 0 && PgLit(s, g) == 0 && SqliteLit(t) == 0 && SqliteMark(t, h) == PgMark(s, g)
      && (PgMark(s, g).Param? || t[0] == s[0])
      && (WordRune(s[0]) == WordRune(t[0]) || (|s| > 1 && IsDigit(s[1])))
  {
    SwapHead(s, l);
    hide Swap, NumberAt, QuoteLen, DollarRest, PgTagScan, RestTo;
  }

  /** And when it is not. */
  lemma {:induction false} RuneDiffers(s: string, l: seq<bool>, g: bool, h: bool)
    requires |l| == |s| > 0 && QuoteLen(s) == 0 && (g == h || IsDigit(s[0])) && !RuneOk(s, l[0], g)
    ensures SqliteReads(Swap(s, l), h)[0] != PgReads(s, g)[0]
  {
    var t := Swap(s, l);
    SwapHead(s, l);
    PgHead(s, g);
    SqliteHead(t, h);
    hide Swap, NumberAt, QuoteLen, DollarRest, PgTagScan, RestTo, PgReads, SqliteReads;
    if s[0] == '$' {
      assert h == g;
      assert g ==> PgLit(s, g) == 0 && PgMark(s, g) == Plain && SqliteMark(t, h).Param?;
      assert !g ==> t[0] == '$' && SqliteMark(t, h) == Other;
    } else {
      assert t[0] == s[0] && PgLit(s, g) == 0 && PgMark(s, g) == Plain;
    }
  }

  lemma {:induction false} PgHead(s: string, g: bool)
    requires s != ""
    ensures PgReads(s, g)[0] == if PgLit(s, g) > 0 then Quoted else PgMark(s, g)
  {
  }

  lemma {:induction false} SqliteHead(t: string, g: bool)
    requires t != ""
    ensures SqliteReads(t, g)[0] == if SqliteLit(t) > 0 then Quoted else SqliteMark(t, g)
  {
  }

  lemma {:induction false} AlikeRune(s: string, l: seq<bool>, g: bool, h: bool)
    requires |l| == |s| > 0 && QuoteLen(s) == 0 && (g == h || IsDigit(s[0]))
    ensures Alike(s, l, g, h) <==>
      RuneOk(s, l[0], g) && Alike(s[1..], l[1..], WordRune(s[0]), WordRune(Swap(s, l)[0]))
    ensures RuneOk(s, l[0], g) ==> WordRune(s[0]) == WordRune(Swap(s, l)[0]) || (|s| > 1 && IsDigit(s[1]))
  {
    if RuneOk(s, l[0], g) { RuneAgrees(s, l, g, h); } else { RuneDiffers(s, l, g, h); }
    SwapRest(s, l, 1);
    var t := Swap(s, l);
    hide RuneOk, WordRune, Swap, PgMark, SqliteMark, PgLit, SqliteLit, QuoteLen, SameElsewhere;
    TailsAlike(s, t, PgReads(s, g), SqliteReads(t, h));
    if RuneOk(s, l[0], g) {
      Cons(PgMark(s, g), PgReads(s[1..], WordRune(s[0])));
      Cons(SqliteMark(t, h), SqliteReads(t[1..], WordRune(t[0])));
    }
  }

  /** Translation is read alike if and only if every rune of it is. */
  lemma {:induction false} AlikeIffClean(s: string, l: seq<bool>, g: bool, h: bool)
    requires |l| == |s| && (g == h || (s != "" && IsDigit(s[0])))
    ensures Alike(s, l, g, h) <==> Clean(s, l, g)
    decreases |s|
  {
    hide Alike, RuneOk, Untouched, QuoteLen, WordRune, IsDigit;
    if s == "" {
      SwapNone();
      assert Alike(s, l, g, h) by { NothingAlike(g, h); }
    } else if QuoteLen(s) > 0 {
      AlikeQuote(s, l, g, h);
      AlikeIffClean(s[QuoteLen(s)..], l[QuoteLen(s)..], false, false);
    } else {
      AlikeRune(s, l, g, h);
      if RuneOk(s, l[0], g) {
        AlikeIffClean(s[1..], l[1..], WordRune(s[0]), WordRune(Swap(s, l)[0]));
      }
    }
  }

  lemma {:induction false} NothingAlike(g: bool, h: bool)
    ensures Alike("", [], g, h)
  {
  }

  // ----------------------------------------------------------- rune by rune

  /** One label a rune: true outside quotes and comments. */
  function Outside(s: string): (q: seq<bool>)
    ensures |q| == |s|
    decreases |s|
  {
    if s == "" then []
    else if QuoteLen(s) > 0 then Same(QuoteLen(s), false) + Outside(s[QuoteLen(s)..])
    else [true] + Outside(s[1..])
  }

  /** The rune before position `k` belongs to an identifier. */
  predicate Glued(s: string, q: seq<bool>, g: bool, k: nat)
    requires |q| == |s| && k < |s|
  {
    if k == 0 then g else q[k - 1] && WordRune(s[k - 1])
  }

  predicate CleanAt(s: string, l: seq<bool>, q: seq<bool>, g: bool, k: nat)
    requires |l| == |s| == |q| && k < |s|
  {
    if q[k] then RuneOk(s[k..], l[k], Glued(s, q, g, k)) else !(l[k] && Hit(s[k], s[k + 1..]))
  }

  ghost predicate AllClean(s: string, l: seq<bool>, q: seq<bool>, g: bool)
    requires |l| == |s| == |q|
  {
    forall k: nat :: k < |s| ==> CleanAt(s, l, q, g, k)
  }

  lemma {:induction false} CleanShift(s: string, l: seq<bool>, q: seq<bool>, g: bool, n: nat, k: nat)
    requires |l| == |s| == |q| && 0 < n <= k < |s|
    ensures CleanAt(s, l, q, g, k) == CleanAt(s[n..], l[n..], q[n..], Glued(s, q, g, n), k - n)
  {
    hide RuneOk, Hit, WordRune;
    DropDrop(s, n, k - n);
    DropDrop(s, n, k + 1 - n);
  }

  lemma {:induction false} AllCleanSplit(s: string, l: seq<bool>, q: seq<bool>, g: bool, n: nat)
    requires |l| == |s| == |q| && 0 < n <= |s|
    ensures AllClean(s, l, q, g) <==>
      (forall k: nat :: k < n ==> CleanAt(s, l, q, g, k))
      && AllClean(s[n..], l[n..], q[n..], n < |s| && Glued(s, q, g, n))
  {
    hide CleanAt, Glued;
    forall k: nat | n <= k < |s|
      ensures CleanAt(s, l, q, g, k) == CleanAt(s[n..], l[n..], q[n..], Glued(s, q, g, n), k - n)
    {
      CleanShift(s, l, q, g, n, k);
    }
    if AllClean(s, l, q, g) {
      forall k: nat | k < |s| - n ensures CleanAt(s[n..], l[n..], q[n..], Glued(s, q, g, n), k) {
        assert CleanAt(s, l, q, g, k + n);
      }
    }
    if (forall k: nat :: k < n ==> CleanAt(s, l, q, g, k)) && AllClean(s[n..], l[n..], q[n..], n < |s| && Glued(s, q, g, n)) {
      forall k: nat | k < |s| ensures CleanAt(s, l, q, g, k) {
        if n <= k {
          assert CleanAt(s[n..], l[n..], q[n..], Glued(s, q, g, n), k - n);
        }
      }
    }
  }

  /** The condition, position by position. */
  lemma {:induction false} CleanPointwise(s: string, l: seq<bool>, g: bool)
    requires |l| == |s|
    ensures Clean(s, l, g) <==> AllClean(s, l, Outside(s), g)
    decreases |s|
  {
    hide RuneOk, Hit, QuoteLen, WordRune, AllClean, Same;
    var q := Outside(s);
    if s == "" {
      assert AllClean(s, l, q, g) by { NothingClean(g); }
    } else if QuoteLen(s) > 0 {
      var n := QuoteLen(s);
      AllCleanSplit(s, l, q, g, n);
      OutsideTail(s, n);
      UntouchedClean(s, l, q, g, n);
      CleanPointwise(s[n..], l[n..], false);
      EmptyClean(s[n..], l[n..], Outside(s[n..]), n < |s| && Glued(s, q, g, n), false);
    } else {
      AllCleanSplit(s, l, q, g, 1);
      OutsideTail(s, 1);
      assert s[0..] == s;
      assert CleanAt(s, l, q, g, 0) == RuneOk(s, l[0], g);
      CleanPointwise(s[1..], l[1..], WordRune(s[0]));
      EmptyClean(s[1..], l[1..], Outside(s[1..]), 1 < |s| && Glued(s, q, g, 1), WordRune(s[0]));
    }
  }

  lemma {:induction false} UntouchedClean(s: string, l: seq<bool>, q: seq<bool>, g: bool, n: nat)
    requires |l| == |s| == |q| && n <= |s| && forall k :: 0 <= k < n ==> !q[k]
    ensures Untouched(s, l, n) <==> forall k: nat :: k < n ==> CleanAt(s, l, q, g, k)
  {
    hide Hit, RuneOk, Glued;
    if forall k: nat :: k < n ==> CleanAt(s, l, q, g, k) {
      forall k | 0 <= k < n ensures !(l[k] && Hit(s[k], s[k + 1..])) { assert CleanAt(s, l, q, g, k); }
    }
  }

  lemma {:induction false} NothingClean(g: bool)
    ensures AllClean("", [], [], g)
  {
  }

  lemma {:induction false} EmptyClean(s: string, l: seq<bool>, q: seq<bool>, g: bool, h: bool)
    requires |l| == |s| == |q| && (g == h || s == "")
    ensures AllClean(s, l, q, g) == AllClean(s, l, q, h)
  {
  }

  /** SQLite reads the translation of any query exactly as Postgres reads the query, if and only if
      outside quotes and comments there is no `?`, `[`, backtick, `@`, `#` or `:` and every `$` that does
      not continue an identifier starts a `$n` the scanner takes for code, while the scanner takes no
      other `$n` for code. */
  lemma {:induction false} RewriteBindsTheSame(s: string)
    ensures ReadAlike(s, Rewrite(s)) <==> AllClean(s, Labels(s), Outside(s), false)
  {
    hide Clean, AllClean, Labels, Swap, PgReads, SqliteReads, SameElsewhere, Outside;
    AlikeIffClean(s, Labels(s), false, false);
    CleanPointwise(s, Labels(s), false);
  }

  // -------------------------------------------------------- in plain words

  /** A `$tag$` that the scanner would open stands at `k`. */
  predicate TagAt(s: string, k: nat)
    requires k < |s|
  {
    TagLen(s[k..]) > 0
  }

  /** The rune at `k` is one that both databases and the scanner agree on. */
  predicate AgreedAt(s: string, q: seq<bool>, k: nat)
    requires |q| == |s| && k < |s|
  {
    && !TagAt(s, k)
    && s[k] !in "?[`@#:"
    && (s[k] == '$' ==> Numbered(s[k..]) == !Glued(s, q, false, k))
  }

  lemma {:induction false} CodeOpensNothing(s: string, k: nat)
    requires k < |s| && Labels(s)[k]
    ensures !TagAt(s, k)
  {
    hide Labels;
    LabelsRestart(s, k);
    assert s[k..] != "";
    hide DollarRest, TagScan, SingleRest, BlockRest, RestTo;
  }

  lemma {:induction false} OutsideTail(s: string, n: nat)
    requires s != "" && n == (if QuoteLen(s) > 0 then QuoteLen(s) else 1)
    ensures Outside(s)[n..] == Outside(s[n..])
    ensures forall k :: 0 <= k < n ==> Outside(s)[k] == (QuoteLen(s) == 0)
  {
    hide QuoteLen, Same;
    if QuoteLen(s) > 0 {
      Parts(Same(n, false), Outside(s[n..]));
      forall k | 0 <= k < n ensures !Outside(s)[k] { SameAt(n, false, k); }
    } else {
      Cons(true, Outside(s[1..]));
    }
  }

  ghost predicate NoTags(s: string) { forall k: nat :: k < |s| && Outside(s)[k] ==> !TagAt(s, k) }

  /** Where no `$tag$` stands in code the scanner's labels are the databases' own. */
  lemma {:induction false} NoTagsSameLabels(s: string)
    requires NoTags(s)
    ensures Labels(s) == Outside(s)
    decreases |s|
  {
    hide Labels, Outside, TagAt, LitLen, Same;
    if s == "" {
      LabelsNone();
      assert Outside(s) == [];
    } else {
      var n := if QuoteLen(s) > 0 then QuoteLen(s) else 1;
      OutsideTail(s, n);
      forall k: nat | k < |s[n..]| && Outside(s[n..])[k] ensures !TagAt(s[n..], k) {
        assert Outside(s)[n + k] && !TagAt(s, n + k);
        TagLater(s, n, k);
      }
      NoTagsSameLabels(s[n..]);
      Split(s, n);
      if QuoteLen(s) > 0 {
        LabelsLit(s[..n], s[n..]);
        QuotedLabels(s, n);
      } else {
        assert !TagAt(s, 0);
        NoTagNoLit(s);
        Head(s);
        LabelsCode(s[0], s[1..]);
        CodeLabels(s);
      }
    }
  }

  lemma {:induction false} TagLater(s: string, n: nat, k: nat)
    requires n + k < |s|
    ensures TagAt(s, n + k) == TagAt(s[n..], k)
  {
    hide TagLen;
    DropDrop(s, n, k);
  }

  lemma {:induction false} QuotedLabels(s: string, n: nat)
    requires s != "" && n == QuoteLen(s) > 0
    ensures Outside(s) == Same(n, false) + Outside(s[n..])
  {
  }

  lemma {:induction false} CodeLabels(s: string)
    requires s != "" && QuoteLen(s) == 0
    ensures Outside(s) == [true] + Outside(s[1..])
  {
  }

  lemma {:induction false} NoTagNoLit(s: string)
    requires s != "" && QuoteLen(s) == 0 && !TagAt(s, 0)
    ensures LitLen(s) == 0
  {
    assert s[0..] == s;
    hide DollarRest, TagScan, SingleRest, BlockRest, RestTo;
  }

  /** A `$tag$` on its own opens in code that SQLite cannot read as Postgres does. */
  lemma {:induction false} TagIsNotOk(s: string, k: nat)
    requires k < |s| && Outside(s)[k] && TagAt(s, k) && !Glued(s, Outside(s), false, k)
    ensures !CleanAt(s, Labels(s), Outside(s), false, k)
  {
    if Labels(s)[k] {
      CodeOpensNothing(s, k);
      assert false;
    }
    hide Labels, Outside, Glued, TagScan;
    assert s[k..][0] == s[k];
  }

  /** For queries in which no `$tag$` is glued to an identifier: the translation is read alike if and
      only if, outside quotes and comments, there is no dollar quote, no `?`, `[`, backtick, `@`, `#` or
      `:`, no `$n` glued to an identifier and no other `$` that stands alone. */
  lemma {:induction false} BindsTheSameInPlainWords(s: string)
    requires forall k: nat :: k < |s| && Outside(s)[k] && TagAt(s, k) ==> !Glued(s, Outside(s), false, k)
    ensures ReadAlike(s, Rewrite(s)) <==> forall k: nat :: k < |s| && Outside(s)[k] ==> AgreedAt(s, Outside(s), k)
  {
    hide Labels, Outside, TagAt, ReadAlike, Rewrite, Glued, QuoteLen, Hit;
    RewriteBindsTheSame(s);
    var q := Outside(s);
    if NoTags(s) {
      NoTagsSameLabels(s);
      forall k: nat | k < |s| ensures q[k] ==> (CleanAt(s, q, q, false, k) <==> AgreedAt(s, q, k)) {
        assert s[k..][0] == s[k];
      }
      if forall k: nat :: k < |s| && q[k] ==> AgreedAt(s, q, k) {
        assert AllClean(s, Labels(s), q, false);
      }
    } else {
      var k: nat :| k < |s| && q[k] && TagAt(s, k);
      TagIsNotOk(s, k);
      assert !AgreedAt(s, q, k);
    }
  }

  // --------------------------------------------------- inputs it fails on

  lemma {:induction false} PgStep(c: char, r: string, g: bool)
    requires PgLit([c] + r, g) == 0
    ensures PgReads([c] + r, g) == [PgMark([c] + r, g)] + PgReads(r, WordRune(c))
  {
    hide PgLit, PgMark, WordRune;
    Cons(c, r);
  }

  lemma {:induction false} SqliteStep(c: char, r: string, g: bool)
    requires SqliteLit([c] + r) == 0
    ensures SqliteReads([c] + r, g) == [SqliteMark([c] + r, g)] + SqliteReads(r, WordRune(c))
  {
    hide SqliteLit, SqliteMark, WordRune;
    Cons(c, r);
  }

  /** `a$1` is one Postgres column; the translation turns its tail into parameter 1. */
  lemma {:induction false} GluedDollarFails()
    ensures PgReads("a$1", false) == [Plain, Plain, Plain]
    ensures Rewrite("a$1") == "a?1" && SqliteReads("a?1", false) == [Plain, Param(1), Plain]
  {
    GluedRewrite();
    GluedPg();
    GluedSqlite();
  }

  lemma {:induction false} GluedRewrite()
    ensures Rewrite("a$1") == "a?1"
  {
    hide Labels, Swap;
    assert "a$1" == ['a'] + "$1" && "$1" == ['$'] + "1" && "1" == ['1'] + "";
    assert LitLen(['1'] + "") == 0 && LitLen(['a'] + "$1") == 0;
    assert TagScan("$1", 2) == 0 && TagLen("$1") == 0 && LitLen(['$'] + "1") == 0;
    hide LitLen, TagLen, TagScan;
    var none: seq<bool> := [];
    assert [true] + none == [true] && [true] + [true] == [true, true] && [true] + [true, true] == [true, true, true];
    LabelsNone();
    LabelsCode('1', "");
    LabelsCode('$', "1");
    LabelsCode('a', "$1");
    SwapNone();
    SwapCons('1', "", true, none);
    SwapCons('$', "1", true, [true]);
    SwapCons('a', "$1", true, [true, true]);
    assert Swap("1", [true]) == "1";
    assert Swap("$1", [true, true]) == ['?'] + "1" == "?1";
    assert Swap("a$1", [true, true, true]) == ['a'] + "?1" == "a?1";
  }

  lemma {:induction false} GluedPg()
    ensures PgReads("a$1", false) == [Plain, Plain, Plain]
  {
    assert "a$1" == ['a'] + "$1" && "$1" == ['$'] + "1" && "1" == ['1'] + "";
    assert PgReads("", true) == [];
    hide PgReads;
    PgStep('a', "$1", false);
    PgStep('$', "1", true);
    PgStep('1', "", true);
  }

  lemma {:induction false} OneReads()
    ensures NumberAt("1") == 1
  {
    assert ("1")[1..] == "" && DigitRun("") == 0 && DigitRun("1") == 1;
    assert ("1")[..1] == "1" && ("1")[..0] == "";
  }

  lemma {:induction false} PlainStarts()
    ensures SqliteLit("a?1") == 0 && SqliteLit("?1") == 0 && SqliteLit("1") == 0
  {
  }

  lemma {:induction false} GluedSqlite()
    ensures SqliteReads("a?1", false) == [Plain, Param(1), Plain]
  {
    assert "a?1" == ['a'] + "?1" && "?1" == ['?'] + "1" && "1" == ['1'] + "";
    assert SqliteReads("", true) == [];
    assert ("?1")[1..] == "1";
    OneReads();
    hide SqliteReads, NumberAt, LitLen, RestTo;
    assert SqliteLit("a?1") == 0 && SqliteLit("?1") == 0 && SqliteLit("1") == 0 by { PlainStarts(); }
    hide SqliteLit;
    SqliteStep('a', "?1", false);
    SqliteStep('?', "1", true);
    SqliteStep('1', "", false);
  }

  /** A dollar quote is a literal to Postgres, and the start of a variable to SQLite. */
  lemma {:induction false} DollarQuoteFails(body: string)
    ensures var s := "$$" + body;
      PgReads(s, false)[0] == Quoted && SqliteReads(Rewrite(s), false)[0] == Other
  {
    var s := "$$" + body;
    hide DollarRest, PgReads, SqliteReads, Swap, Labels;
    assert PgLit(s, false) > 0 by { assert s[0] == '$' && s[1] == '$'; }
    SwapAt(s, Labels(s), 0);
    PgHead(s, false);
    SqliteHead(Rewrite(s), false);
  }
}
