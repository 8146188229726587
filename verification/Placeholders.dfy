/**
 Query-time placeholder translation (`RewritePlaceholders`, shared/db/rewrite.go) and the
 code mask (`codeMask`, shared/db/segments.go).
 */
module Placeholders {
  import opened Seqs
  import opened SqlScan
  import opened SqlSplit
  import opened Spaces
  import opened SqlAgreement

  predicate IsDigit(c: char) { '0' <= c <= '9' }

  function DigitRun(s: string): (n: nat)
    ensures n <= |s|
  {
    if s == "" || !IsDigit(s[0]) then 0 else 1 + DigitRun(s[1..])
  }

  /** The regular-expression replacement of `\$(\d+)` by `?$1`, on one code run. */
  function RewriteCode(s: string): string
    decreases |s|
  {
    if s == "" then ""
    else if s[0] == '$' && DigitRun(s[1..]) > 0 then
      var n := DigitRun(s[1..]);
      "?" + (s[1..][..n] + RewriteCode(s[1..][n..]))
    else [s[0]] + RewriteCode(s[1..])
  }

  /** `RewritePlaceholders`: the replacement on code, literals and comments untouched. */
  method RewritePlaceholders(query: string) returns (out: string)
    ensures out == Rewrite(query)
  {
    hide MapSegments, Segments, Swap, Labels, RewriteCode;
    out := MapCode(query, RewriteCode);
    MapIsSwap(query);
  }

  datatype Kind = Postgres | SQLite

  /** `Rebind`: a query is left alone for Postgres. */
  method Rebind(kind: Kind, query: string) returns (out: string)
    ensures out == if kind.Postgres? then query else Rewrite(query)
  {
    if kind.Postgres? {
      return query;
    }
    out := RewritePlaceholders(query);
  }

  // ------------------------------------------------------ one rune at a time

  predicate Hit(c: char, r: string) { c == '$' && r != "" && IsDigit(r[0]) }

  /** Every code `$` directly followed by a digit becomes `?`; no other rune changes. */
  function Swap(s: string, l: seq<bool>): (t: string)
    requires |l| == |s|
    ensures |t| == |s|
    decreases |s|
  {
    if s == "" then ""
    else [if l[0] && Hit(s[0], s[1..]) then '?' else s[0]] + Swap(s[1..], l[1..])
  }

  function Rewrite(s: string): string { Swap(s, Labels(s)) }

  lemma {:induction false} SwapCons(c: char, r: string, b: bool, l: seq<bool>)
    requires |l| == |r|
    ensures Swap([c] + r, [b] + l) == [if b && Hit(c, r) then '?' else c] + Swap(r, l)
  {
    Cons(c, r);
    Cons(b, l);
  }

  lemma {:induction false} SwapNone()
    ensures Swap("", []) == ""
  {
  }

  /** Rune by rune: what changes, and that nothing else does. */
  lemma {:induction false} SwapAt(s: string, l: seq<bool>, k: nat)
    requires |l| == |s| && k < |s|
    ensures Swap(s, l)[k] == if l[k] && Hit(s[k], s[k + 1..]) then '?' else s[k]
    ensures Hit(s[k], s[k + 1..]) <==> s[k] == '$' && k + 1 < |s| && '0' <= s[k + 1] <= '9'
    decreases |s|
  {
    HitAt(s, k);
    hide Hit;
    if k > 0 {
      SwapAt(s[1..], l[1..], k - 1);
      DropDrop(s, 1, k);
    }
  }

  lemma {:induction false} HitAt(s: string, k: nat)
    requires k < |s|
    ensures Hit(s[k], s[k + 1..]) <==> s[k] == '$' && k + 1 < |s| && '0' <= s[k + 1] <= '9'
  {
  }

  /** The translation, rune by rune: a `$` that the scanner takes for code, directly before a digit,
      becomes `?`, and nothing else changes. */
  lemma {:induction false} RewriteAt(query: string, k: nat)
    requires k < |query|
    ensures |Rewrite(query)| == |query|
    ensures Rewrite(query)[k] ==
      if Labels(query)[k] && query[k] == '$' && k + 1 < |query| && '0' <= query[k + 1] <= '9' then '?' else query[k]
  {
    hide Labels, Swap, Hit;
    SwapAt(query, Labels(query), k);
  }

  lemma {:induction false} SwapFalse(lit: string, rest: string, l: seq<bool>)
    requires |l| == |rest|
    ensures Swap(lit + rest, Same(|lit|, false) + l) == lit + Swap(rest, l)
    decreases |lit|
  {
    hide Swap, Hit;
    if lit == "" {
      Empty(rest);
      Empty(l);
      Empty(Swap(rest, l));
    } else {
      var c, t := lit[0], lit[1..];
      Head(lit);
      SwapFalse(t, rest, l);
      Assoc([c], t, rest);
      Assoc([false], Same(|t|, false), l);
      SwapCons(c, t + rest, false, Same(|t|, false) + l);
      Assoc([c], t, Swap(rest, l));
    }
  }

  /** Swapping acts on the two halves separately unless a `$` is cut off from its digit. */
  lemma {:induction false} SwapSplit(a: string, b: string, la: seq<bool>, lb: seq<bool>)
    requires |la| == |a| && |lb| == |b|
    requires a == "" || a[|a| - 1] != '$' || b == "" || !IsDigit(b[0])
    ensures Swap(a + b, la + lb) == Swap(a, la) + Swap(b, lb)
    decreases |a|
  {
    hide Swap, IsDigit;
    if a == "" {
      Empty(b);
      Empty(lb);
      SwapNone();
      Empty(Swap(b, lb));
    } else {
      var c, r := a[0], a[1..];
      Head(a);
      Head(la);
      SwapSplit(r, b, la[1..], lb);
      Assoc([c], r, b);
      Assoc([la[0]], la[1..], lb);
      SwapCons(c, r, la[0], la[1..]);
      SwapCons(c, r + b, la[0], la[1..] + lb);
      if r == "" { Empty(b); } else { Within(r, b, 1); }
      Assoc([if la[0] && Hit(c, r) then '?' else c], Swap(r, la[1..]), Swap(b, lb));
    }
  }

  // ------------------------------------------ the run-wise replacement is Swap

  lemma {:induction false} CodeStep(c: char, r: string)
    requires !Hit(c, r)
    ensures RewriteCode([c] + r) == [c] + RewriteCode(r)
  {
    Cons(c, r);
  }

  lemma {:induction false} DigitsPass(r: string)
    ensures r[..DigitRun(r)] + RewriteCode(r[DigitRun(r)..]) == RewriteCode(r)
    decreases |r|
  {
    hide RewriteCode;
    if r == "" || !IsDigit(r[0]) {
      Empty(RewriteCode(r));
      assert r[0..] == r;
    } else {
      var c, t := r[0], r[1..];
      Head(r);
      DigitsPass(t);
      CodeStep(c, t);
      ConsSlices(c, t, DigitRun(r));
      Assoc([c], t[..DigitRun(t)], RewriteCode(t[DigitRun(t)..]));
    }
  }

  lemma {:induction false} HitStep(c: char, r: string)
    requires Hit(c, r)
    ensures RewriteCode([c] + r) == "?" + RewriteCode(r)
  {
    Cons(c, r);
    DigitsPass(r);
  }

  lemma {:induction false} RewriteNone()
    ensures RewriteCode("") == ""
  {
  }

  lemma {:induction false} RewriteCodeIsSwap(s: string)
    ensures RewriteCode(s) == Swap(s, Same(|s|, true))
    decreases |s|
  {
    hide RewriteCode, Swap, Hit;
    if s == "" {
      RewriteNone();
      SwapNone();
    } else {
      var c, r := s[0], s[1..];
      Head(s);
      RewriteCodeIsSwap(r);
      SwapCons(c, r, true, Same(|r|, true));
      if Hit(c, r) { HitStep(c, r); } else { CodeStep(c, r); }
    }
  }

  lemma {:induction false} LiteralsStartPlain(s: string)
    requires LitLen(s) > 0
    ensures !IsDigit(s[0])
  {
  }

  lemma {:induction false} MapRun(cur: string, segs: seq<Segment>)
    ensures MapSegments(Run(cur, true) + segs, RewriteCode) == RewriteCode(cur) + MapSegments(segs, RewriteCode)
  {
    hide MapSegments;
    if cur == "" {
      Empty(segs);
      Empty(MapSegments(segs, RewriteCode));
    } else {
      MapCons(Segment(cur, true), segs, RewriteCode);
    }
  }

  lemma {:induction false} MapIsSwapFrom(cur: string, s: string)
    ensures MapSegments(SegmentsFrom(cur, s), RewriteCode) == Swap(cur + s, Same(|cur|, true) + Labels(s))
    decreases |s|
  {
    hide MapSegments, SegmentsFrom, RewriteCode, Swap, Labels, Same, LitLen, Run;
    if s == "" {
      LabelsNone();
      SegmentsEnd(cur);
      MapRun(cur, []);
      MapEmpty(RewriteCode);
      Empty(Run(cur, true));
      Empty(RewriteCode(cur));
      Empty(cur);
      Empty(Same(|cur|, true));
      RewriteCodeIsSwap(cur);
    } else if LitLen(s) > 0 {
      var lit, rest := s[..LitLen(s)], s[LitLen(s)..];
      Split(s, LitLen(s));
      MapIsSwapFrom("", rest);
      NoLabels(rest);
      SegmentsLit(cur, lit, rest);
      LabelsLit(lit, rest);
      MapRun(cur, [Segment(lit, false)] + SegmentsFrom("", rest));
      MapCons(Segment(lit, false), SegmentsFrom("", rest), RewriteCode);
      RewriteCodeIsSwap(cur);
      SwapFalse(lit, rest, Labels(rest));
      LiteralsStartPlain(s);
      SwapSplit(cur, s, Same(|cur|, true), Labels(s));
    } else {
      var c, r := s[0], s[1..];
      Head(s);
      MapIsSwapFrom(cur + [c], r);
      SegmentsCode(cur, c, r);
      LabelsCode(c, r);
      Assoc(cur, [c], r);
      SameSnoc(|cur|, true);
      Assoc(Same(|cur|, true), [true], Labels(r));
    }
  }

  /** Rewriting run by run is the rune-wise change: no placeholder straddles two segments. */
  lemma {:induction false} MapIsSwap(query: string)
    ensures MapSegments(Segments(query), RewriteCode) == Rewrite(query)
  {
    hide MapSegments, SegmentsFrom, Swap, Labels, RewriteCode, Same;
    MapIsSwapFrom("", query);
    NoLabels(query);
  }

  // ------------------------------------------------ segmentation is preserved

  /** The rewritten text: the same runes, except that some `$` became `?`. */
  predicate Near(x: string, y: string) {
    |x| == |y| && forall j :: 0 <= j < |x| ==> y[j] == x[j] || (x[j] == '$' && y[j] == '?')
  }

  lemma {:induction false} SwapNear(s: string, l: seq<bool>)
    requires |l| == |s|
    ensures Near(s, Swap(s, l))
  {
    hide Swap;
    forall j | 0 <= j < |s|
      ensures Swap(s, l)[j] == s[j] || (s[j] == '$' && Swap(s, l)[j] == '?')
    {
      SwapAt(s, l, j);
    }
  }

  lemma {:induction false} KeepSingle(x: string, a: string, b: string)
    requires SingleRest(x + a) == |x| && Near(a, b) && a != ""
    ensures SingleRest(x + b) == |x|
    decreases |x|
  {
    hide SingleRest;
    if x == "" {
      SingleStep(a[0], a[1..]);
      Head(a);
      Empty(a);
    } else {
      var c, r := x[0], x[1..];
      Head(x);
      Assoc([c], r, a);
      Assoc([c], r, b);
      SingleStep(c, r + a);
      SingleStep(c, r + b);
      if c != '\'' {
        KeepSingle(r, a, b);
      } else if r == "" {
        Empty(a);
        Empty(b);
      } else {
        Within(r, a, 1);
        Within(r, b, 1);
        if r[0] == '\'' { KeepSingle(r[1..], a, b); }
      }
    }
  }

  lemma {:induction false} KeepTo(stop: char, x: string, a: string, b: string)
    requires RestTo(stop, x + a) == |x| && a != ""
    ensures RestTo(stop, x + b) == |x|
    decreases |x|
  {
    hide RestTo;
    if x == "" {
      Head(a);
      Empty(a);
      ToStep(stop, a[0], a[1..]);
    } else {
      var c, r := x[0], x[1..];
      Head(x);
      Assoc([c], r, a);
      Assoc([c], r, b);
      ToStep(stop, c, r + a);
      ToStep(stop, c, r + b);
      if c != stop { KeepTo(stop, r, a, b); }
    }
  }

  lemma {:induction false} KeepBlock(prev: char, x: string, a: string, b: string)
    requires BlockRest(prev, x + a) == |x| && a != ""
    ensures BlockRest(prev, x + b) == |x|
    decreases |x|
  {
    hide BlockRest;
    if x == "" {
      Head(a);
      Empty(a);
      BlockStep(prev, a[0], a[1..]);
    } else {
      var c, r := x[0], x[1..];
      Head(x);
      Assoc([c], r, a);
      Assoc([c], r, b);
      BlockStep(prev, c, r + a);
      BlockStep(prev, c, r + b);
      if !(c == '/' && prev == '*') { KeepBlock(c, r, a, b); }
    }
  }

  lemma {:induction false} KeepDollar(tag: string, seen: string, x: string, a: string, b: string)
    requires DollarRest(tag, seen, x + a) == |x| && a != ""
    ensures DollarRest(tag, seen, x + b) == |x|
    decreases |x|
  {
    hide DollarRest, HasSuffix;
    if x == "" {
      Head(a);
      Empty(a);
      DollarStep(tag, seen, a[0], a[1..]);
    } else {
      var c, r := x[0], x[1..];
      Head(x);
      Assoc([c], r, a);
      Assoc([c], r, b);
      DollarStep(tag, seen, c, r + a);
      DollarStep(tag, seen, c, r + b);
      if !HasSuffix(seen + [c], tag) { KeepDollar(tag, seen + [c], r, a, b); }
    }
  }

  /** A tag that was found is found again, and one that was not is not created. */
  lemma {:induction false} KeepTag(x: string, y: string, k: nat)
    requires |x| == |y| && k <= |x|
    requires TagScan(x, k) > 0 ==> forall j :: k <= j < TagScan(x, k) ==> y[j] == x[j]
    requires TagScan(x, k) == 0 ==> Near(x, y)
    ensures TagScan(y, k) == TagScan(x, k)
    decreases |x| - k
  {
    if k < |x| && k < 64 && x[k] != '$' && IsTagRune(x[k]) { KeepTag(x, y, k + 1); }
  }

  lemma {:induction false} KeepLit(lit: string, a: string, b: string)
    requires LitLen(lit + a) == |lit| > 0 && Near(a, b) && a != ""
    ensures LitLen(lit + b) == |lit|
  {
    hide LitLen, RestTo, BlockRest, SingleRest, DollarRest, TagScan;
    var c, r := lit[0], lit[1..];
    Head(lit);
    Assoc([c], r, a);
    Assoc([c], r, b);
    LitCases(c, r + a);
    LitCases(c, r + b);
    if r == "" {
      Empty(a);
      Empty(b);
    } else {
      Within(r, a, 1);
      Within(r, b, 1);
    }
    if Opens(c, '-', r + a) {
      KeepTo('\n', r, a, b);
    } else if Opens(c, '/', r + a) {
      KeepBlock('/', r, a, b);
    } else if c == '\'' {
      KeepSingle(r, a, b);
    } else if c == '"' {
      KeepTo('"', r, a, b);
    } else {
      var t := TagLen(lit + a);
      assert forall j :: 0 <= j < t ==> (lit + b)[j] == (lit + a)[j];
      KeepTag(lit + a, lit + b, 1);
      Within(lit, a, t);
      Within(lit, b, t);
      KeepDollar(lit[..t], lit[..t], lit[t..], a, b);
    }
  }

  lemma {:induction false} KeepCode(c: char, r: string, d: char, q: string)
    requires LitLen([c] + r) == 0 && Near([c] + r, [d] + q)
    ensures LitLen([d] + q) == 0
  {
    hide LitLen, RestTo, BlockRest, SingleRest, DollarRest, TagScan, Near;
    LitCases(c, r);
    LitCases(d, q);
    NearCons(c, r, d, q);
    if c == d == '$' {
      Cons(c, r);
      Cons(d, q);
      KeepTag([c] + r, [d] + q, 1);
    } else {
      Cons(d, q);
    }
  }

  lemma {:induction false} NearCons(c: char, r: string, d: char, q: string)
    requires Near([c] + r, [d] + q)
    ensures |r| == |q| && Near(r, q) && (d == c || (c == '$' && d == '?'))
    ensures r != "" ==> (q[0] == r[0] || (r[0] == '$' && q[0] == '?'))
  {
    Cons(c, r);
    Cons(d, q);
    assert ([d] + q)[0] == d;
    forall j | 0 <= j < |r|
      ensures q[j] == r[j] || (r[j] == '$' && q[j] == '?')
    {
      assert ([c] + r)[j + 1] == r[j] && ([d] + q)[j + 1] == q[j];
    }
  }

  /** Translation keeps every label: the same runes are code before and after. */
  lemma {:induction false} RewriteKeepsLabels(s: string)
    ensures Labels(Rewrite(s)) == Labels(s)
    decreases |s|
  {
    hide Labels, Same, LitLen, Swap, Hit, Near;
    if s == "" {
      LabelsNone();
      SwapNone();
    } else if LitLen(s) > 0 {
      var lit, rest := s[..LitLen(s)], s[LitLen(s)..];
      Split(s, LitLen(s));
      RewriteKeepsLabels(rest);
      LabelsLit(lit, rest);
      SwapFalse(lit, rest, Labels(rest));
      SwapNear(rest, Labels(rest));
      if rest != "" { KeepLit(lit, rest, Rewrite(rest)); }
      LabelsLit(lit, Rewrite(rest));
    } else {
      var c, r := s[0], s[1..];
      Head(s);
      RewriteKeepsLabels(r);
      LabelsCode(c, r);
      SwapCons(c, r, true, Labels(r));
      SwapNear(s, Labels(s));
      var d := if Hit(c, r) then '?' else c;
      KeepCode(c, r, d, Rewrite(r));
      LabelsCode(d, Rewrite(r));
    }
  }

  lemma {:induction false} SwapTwice(s: string, l: seq<bool>)
    requires |l| == |s|
    ensures Swap(Swap(s, l), l) == Swap(s, l)
    decreases |s|
  {
    hide Swap;
    if s == "" {
      SwapNone();
    } else {
      var c, r := s[0], s[1..];
      Head(s);
      Head(l);
      SwapTwice(r, l[1..]);
      SwapCons(c, r, l[0], l[1..]);
      SwapNear(r, l[1..]);
      SwapCons(if l[0] && Hit(c, r) then '?' else c, Swap(r, l[1..]), l[0], l[1..]);
    }
  }

  /** Translating a translated query changes nothing. */
  lemma {:induction false} RewriteIdempotent(s: string)
    ensures Rewrite(Rewrite(s)) == Rewrite(s)
  {
    hide Swap, Labels;
    RewriteKeepsLabels(s);
    SwapTwice(s, Labels(s));
  }

  // --------------------------------------------------- the number after a `$`

  function Number(s: string): nat
    requires forall k :: 0 <= k < |s| ==> IsDigit(s[k])
  {
    if s == "" then 0
    else
      assert IsDigit(s[|s| - 1]);
      10 * Number(s[..|s| - 1]) + (s[|s| - 1] as int - '0' as int)
  }

  lemma {:induction false} RunIsDigits(s: string)
    ensures forall k :: 0 <= k < DigitRun(s) ==> IsDigit(s[k])
  {
    if s != "" && IsDigit(s[0]) { RunIsDigits(s[1..]); }
  }

  /** The number written at the start of `s`. */
  function NumberAt(s: string): nat {
    RunIsDigits(s);
    Number(s[..DigitRun(s)])
  }

  lemma {:induction false} NearNumber(x: string, y: string)
    requires Near(x, y)
    ensures NumberAt(y) == NumberAt(x) && (y != "" && IsDigit(y[0]) <==> x != "" && IsDigit(x[0]))
  {
    NearRun(x, y);
    RunIsDigits(x);
    assert y[..DigitRun(y)] == x[..DigitRun(x)];
  }

  lemma {:induction false} NearRun(x: string, y: string)
    requires Near(x, y)
    ensures DigitRun(y) == DigitRun(x)
    decreases |x|
  {
    if x != "" {
      Head(x);
      Head(y);
      NearCons(x[0], x[1..], y[0], y[1..]);
      NearRun(x[1..], y[1..]);
    }
  }

  // --------------------------------------------------- commuting with the split

  function RewriteAll(ps: seq<string>): (qs: seq<string>)
    ensures |qs| == |ps|
  {
    if ps == [] then [] else [Rewrite(ps[0])] + RewriteAll(ps[1..])
  }

  lemma {:induction false} RewriteAllCons(p: string, ps: seq<string>)
    ensures RewriteAll([p] + ps) == [Rewrite(p)] + RewriteAll(ps)
  {
    hide Rewrite;
    Cons(p, ps);
  }

  lemma {:induction false} RewriteAround(s: string, k: nat)
    requires k < |s| && Labels(s)[k] && s[k] == ';'
    ensures Rewrite(s) == Rewrite(s[..k]) + ([';'] + Rewrite(s[k + 1..]))
    ensures |Rewrite(s[..k])| == k
    ensures Labels(s) == Labels(s[..k]) + ([true] + Labels(s[k + 1..]))
  {
    hide Labels, Swap;
    var a, b := s[..k], s[k + 1..];
    LabelsAround(s, k);
    Split(s, k);
    Head(s[k..]);
    DropDrop(s, k, 1);
    SwapSplit(a, [';'] + b, Labels(a), [true] + Labels(b));
    SwapCons(';', b, true, Labels(b));
  }

  lemma {:induction false} SameCut(s: string, l: seq<bool>)
    requires |l| == |s|
    ensures FirstCut(Swap(s, l), l) == FirstCut(s, l)
  {
    hide Swap;
    var i, j := FirstCut(Swap(s, l), l), FirstCut(s, l);
    if i < |s| { SwapAt(s, l, i); }
    if j < |s| { SwapAt(s, l, j); }
  }

  lemma {:induction false} PiecesCommute(s: string)
    ensures PiecesByLabel("", Rewrite(s), Labels(s)) == RewriteAll(PiecesByLabel("", s, Labels(s)))
    decreases |s|
  {
    var l, y := Labels(s), Rewrite(s);
    var k := FirstCut(s, l);
    SameCut(s, l);
    CutOnce("", s, l);
    CutOnce("", y, l);
    hide FirstCut, PiecesByLabel, Labels, Swap, RewriteAll;
    if k == |s| {
      Empty(s);
      Empty(y);
      Empty([s]);
      RewriteAllCons(s, []);
      RewriteAllNone();
      Empty([y]);
    } else {
      var a, b := s[..k], s[k + 1..];
      RewriteAround(s, k);
      Empty(a);
      Empty(y[..k]);
      Assoc(Rewrite(a), [';'], Rewrite(b));
      Parts(Rewrite(a), [';'] + Rewrite(b));
      Parts(Rewrite(a) + [';'], Rewrite(b));
      Assoc(Labels(a), [true], Labels(b));
      Parts(Labels(a) + [true], Labels(b));
      PiecesCommute(b);
      RewriteAllCons(a, PiecesByLabel("", b, Labels(b)));
    }
  }

  lemma {:induction false} RewriteAllNone()
    ensures RewriteAll([]) == []
  {
  }

  lemma {:induction false} TrimLeftSwap(s: string, l: seq<bool>) returns (a: nat)
    requires |l| == |s|
    ensures a <= |s| && TrimLeft(s) == s[a..] && TrimLeft(Swap(s, l)) == Swap(s[a..], l[a..])
    decreases |s|
  {
    hide Swap, IsSpace;
    if s == "" {
      a := 0;
      SwapNone();
    } else {
      var c, r := s[0], s[1..];
      Head(s);
      Head(l);
      SwapCons(c, r, l[0], l[1..]);
      Cons(if l[0] && Hit(c, r) then '?' else c, Swap(r, l[1..]));
      NoSpaceMarks();
      if IsSpace(c) {
        var b := TrimLeftSwap(r, l[1..]);
        a := b + 1;
        DropDrop(s, 1, b);
        DropDrop(l, 1, b);
      } else {
        a := 0;
        assert s[0..] == s && l[0..] == l;
      }
    }
  }

  lemma {:induction false} NoSpaceMarks()
    ensures !IsSpace('?') && !IsSpace('$')
  {
  }

  lemma {:induction false} TrimRightSwap(s: string, l: seq<bool>) returns (b: nat)
    requires |l| == |s|
    ensures b <= |s| && TrimRight(s) == s[..b] && TrimRight(Swap(s, l)) == Swap(s[..b], l[..b])
    decreases |s|
  {
    hide Swap, IsSpace;
    if s == "" {
      b := 0;
      SwapNone();
    } else {
      var t, z := s[..|s| - 1], s[|s| - 1];
      var y := Swap(s, l);
      InitLast(s);
      InitLast(l);
      InitLast(y);
      SwapAt(s, l, |s| - 1);
      NoSpaceMarks();
      if IsSpace(z) {
        SpaceIsPlain(z);
        SwapSplit(t, [z], l[..|t|], [l[|t|]]);
        SwapOne(z, l[|t|]);
        b := TrimRightSwap(t, l[..|t|]);
        Parts(Swap(t, l[..|t|]), [z]);
        TakeTake(s, b, |t|);
        TakeTake(l, b, |t|);
      } else {
        b := |s|;
        assert s[..b] == s && l[..b] == l;
      }
    }
  }

  lemma {:induction false} SpaceIsPlain(c: char)
    requires IsSpace(c)
    ensures !IsDigit(c)
  {
  }

  lemma {:induction false} SwapOne(c: char, b: bool)
    ensures Swap([c], [b]) == [c]
  {
  }

  lemma {:induction false} TrimCommutes(p: string)
    ensures Trim(Rewrite(p)) == Rewrite(Trim(p)) && |Trim(Rewrite(p))| == |Trim(p)|
  {
    hide Swap, Labels, TrimLeft, TrimRight, IsSpace;
    var l := Labels(p);
    var a := TrimLeftSwap(p, l);
    var b := TrimRightSwap(p[a..], l[a..]);
    var a' := TrimLeftLabels(p);
    assert a' == a;
    var b' := TrimRightLabels(p[a..]);
    assert b' == b;
  }

  lemma {:induction false} KeptCommutes(ps: seq<string>)
    ensures Kept(RewriteAll(ps)) == RewriteAll(Kept(ps))
    decreases |ps|
  {
    if ps == [] {
    } else {
      hide Kept, Trim, Rewrite, RewriteAll;
      var p, r := ps[0], ps[1..];
      Head(ps);
      KeptCommutes(r);
      RewriteAllCons(p, r);
      KeptCons(p, r, []);
      KeptCons(Rewrite(p), RewriteAll(r), []);
      TrimCommutes(p);
      Empty(Kept([p] + r));
      Empty(Keep(p));
      Empty(Kept([Rewrite(p)] + RewriteAll(r)));
      Empty(Keep(Rewrite(p)));
      if Trim(p) == "" {
        Empty(Kept(r));
        Empty(Kept(RewriteAll(r)));
      } else {
        RewriteAllCons(Trim(p), Kept(r));
      }
    }
  }

  /** Splitting a translated script gives the translated statements of the original. */
  lemma {:induction false} RewriteCommutesWithSplit(script: string)
    ensures Statements(Rewrite(script)) == RewriteAll(Statements(script))
  {
    hide Pieces, PiecesByLabel, Kept, Labels, Swap, RewriteAll;
    CutsAgree("", script);
    CutsAgree("", Rewrite(script));
    RewriteKeepsLabels(script);
    PiecesCommute(script);
    KeptCommutes(PiecesByLabel("", script, Labels(script)));
  }

  // ------------------------------------------------------------- the code mask

  /** Non-code runes blanked, one space a rune. */
  function Mask(s: string, l: seq<bool>): (m: string)
    requires |l| == |s|
    ensures |m| == |s|
    decreases |s|
  {
    if s == "" then "" else [if l[0] then s[0] else ' '] + Mask(s[1..], l[1..])
  }

  lemma {:induction false} MaskCons(s: string, l: seq<bool>)
    requires |l| == |s| && s != ""
    ensures Mask(s, l) == [if l[0] then s[0] else ' '] + Mask(s[1..], l[1..])
  {
  }

  /** Code stays, and every other rune is blanked. */
  lemma {:induction false} MaskAt(s: string, l: seq<bool>, k: nat)
    requires |l| == |s| && k < |s|
    ensures Mask(s, l)[k] == if l[k] then s[k] else ' '
    decreases |s|
  {
    if k > 0 { MaskAt(s[1..], l[1..], k - 1); }
  }

  lemma {:induction false} MaskNone()
    ensures Mask("", []) == ""
  {
  }

  lemma {:induction false} MaskAppend(a: string, b: string, la: seq<bool>, lb: seq<bool>)
    requires |la| == |a| && |lb| == |b|
    ensures Mask(a + b, la + lb) == Mask(a, la) + Mask(b, lb)
    decreases |a|
  {
    hide Mask;
    if a == "" {
      MaskNone();
      Empty(b);
      Empty(lb);
      Empty(Mask(b, lb));
    } else {
      var d := if la[0] then a[0] else ' ';
      MaskAppend(a[1..], b, la[1..], lb);
      MaskCons(a, la);
      MaskCons(a + b, la + lb);
      Within(a, b, 1);
      Within(la, lb, 1);
      Assoc([d], Mask(a[1..], la[1..]), Mask(b, lb));
    }
  }

  function Blank(n: nat): string { if n == 0 then "" else " " + Blank(n - 1) }

  lemma {:induction false} MaskRun(text: string, code: bool)
    ensures Mask(text, Same(|text|, code)) == if code then text else Blank(|text|)
    decreases |text|
  {
    hide Mask;
    if text == "" {
      MaskNone();
    } else {
      MaskRun(text[1..], code);
      MaskCons(text, Same(|text|, code));
      Cons(code, Same(|text| - 1, code));
      Head(text);
    }
  }

  lemma {:induction false} TextSnoc(segs: seq<Segment>, x: Segment)
    ensures Text(segs + [x]) == Text(segs) + x.text
    ensures FlatLabels(segs + [x]) == FlatLabels(segs) + Same(|x.text|, x.code)
    decreases |segs|
  {
    hide Text, FlatLabels, Same;
    TextNone();
    if segs == [] {
      TextCons(x, []);
      Empty([x]);
      Empty(x.text);
      Empty(Same(|x.text|, x.code));
    } else {
      var y, r := segs[0], segs[1..];
      Head(segs);
      TextSnoc(r, x);
      Assoc([y], r, [x]);
      TextCons(y, r + [x]);
      TextCons(y, r);
      Assoc(y.text, Text(r), x.text);
      Assoc(Same(|y.text|, y.code), FlatLabels(r), Same(|x.text|, x.code));
    }
  }

  lemma {:induction false} TextNone()
    ensures Text([]) == "" && FlatLabels([]) == []
  {
  }

  /** `codeMask`. */
  method CodeMask(sql: string) returns (b: string)
    ensures |b| == |sql| && b == Mask(sql, Labels(sql))
  {
    hide Mask, Text, FlatLabels, Labels, Same, Segments;
    var segs := ScanSegments(sql);
    b := "";
    TextNone();
    for k := 0 to |segs|
      invariant |FlatLabels(segs[..k])| == |Text(segs[..k])|
      invariant b == Mask(Text(segs[..k]), FlatLabels(segs[..k]))
    {
      Snoc(segs, 0, k);
      TextSnoc(segs[..k], segs[k]);
      MaskRun(segs[k].text, segs[k].code);
      MaskAppend(Text(segs[..k]), segs[k].text, FlatLabels(segs[..k]), Same(|segs[k].text|, segs[k].code));
      if segs[k].code {
        b := b + segs[k].text;
      } else {
        b := b + Blank(|segs[k].text|);
      }
    }
    assert segs[..|segs|] == segs;
  }

  /** Bytes a rune takes in UTF-8. */
  function Width(c: char): nat {
    if c < '\U{0080}' then 1 else if c < '\U{0800}' then 2 else if c < '\U{10000}' then 3 else 4
  }

  function Bytes(s: string): nat { if s == "" then 0 else Width(s[0]) + Bytes(s[1..]) }

  /** A byte offset found in the mask is the same offset in the statement, for every offset, exactly
      when all blanked runes are ASCII. */
  lemma {:induction false} MaskOffsets(s: string, l: seq<bool>)
    requires |l| == |s|
    ensures (forall k :: 0 <= k <= |s| ==> Bytes(Mask(s, l)[..k]) == Bytes(s[..k]))
      <==> (forall k :: 0 <= k < |s| && !l[k] ==> s[k] as int < 0x80)
    decreases |s|
  {
    if s != "" {
      var c, r, q := s[0], s[1..], Mask(s[1..], l[1..]);
      var d := if l[0] then c else ' ';
      MaskOffsets(r, l[1..]);
      hide Mask, Width;
      Head(s);
      forall k | 1 <= k <= |s|
        ensures Bytes(s[..k]) == Width(c) + Bytes(r[..k - 1])
        ensures Bytes(([d] + q)[..k]) == Width(d) + Bytes(q[..k - 1])
      {
        BytesCons(c, r, k);
        BytesCons(d, q, k);
      }
      MaskCons(s, l);
      MaskStep(s, l, d, r, q);
    }
  }

  lemma {:induction false} BytesCons(c: char, r: string, k: nat)
    requires 1 <= k <= |r| + 1
    ensures Bytes(([c] + r)[..k]) == Width(c) + Bytes(r[..k - 1])
  {
    ConsSlices(c, r, k);
    Cons(c, r[..k - 1]);
  }

  lemma {:induction false} MaskStep(s: string, l: seq<bool>, d: char, r: string, q: string)
    requires |l| == |s| && s != "" && r == s[1..] && |q| == |r|
    requires d == if l[0] then s[0] else ' '
    requires forall k :: 1 <= k <= |s| ==> Bytes(s[..k]) == Width(s[0]) + Bytes(r[..k - 1])
    requires forall k :: 1 <= k <= |s| ==> Bytes(([d] + q)[..k]) == Width(d) + Bytes(q[..k - 1])
    requires (forall k :: 0 <= k <= |r| ==> Bytes(q[..k]) == Bytes(r[..k]))
      <==> (forall k :: 0 <= k < |r| && !l[1..][k] ==> Width(r[k]) == 1)
    ensures (forall k :: 0 <= k <= |s| ==> Bytes(([d] + q)[..k]) == Bytes(s[..k]))
      <==> (forall k :: 0 <= k < |s| && !l[k] ==> Width(s[k]) == 1)
  {
    var whole := forall k :: 0 <= k <= |s| ==> Bytes(([d] + q)[..k]) == Bytes(s[..k]);
    var ascii := forall k :: 0 <= k < |s| && !l[k] ==> Width(s[k]) == 1;
    assert ([d] + q)[..0] == s[..0] == "";
    if whole {
      assert Bytes(s[..1]) == Width(s[0]) + Bytes(r[..0]) && r[..0] == q[..0] == "";
      assert Width(d) == Width(s[0]);
      forall k | 0 <= k <= |r|
        ensures Bytes(q[..k]) == Bytes(r[..k])
      {
        assert Bytes(([d] + q)[..k + 1]) == Bytes(s[..k + 1]);
      }
      forall k | 0 <= k < |s| && !l[k]
        ensures Width(s[k]) == 1
      {
        if k > 0 { assert r[k - 1] == s[k] && l[1..][k - 1] == l[k]; }
      }
    }
    if ascii {
      forall k | 0 <= k < |r| && !l[1..][k]
        ensures Width(r[k]) == 1
      {
        assert r[k] == s[k + 1] && l[1..][k] == l[k + 1];
      }
      forall k | 0 <= k <= |s|
        ensures Bytes(([d] + q)[..k]) == Bytes(s[..k])
      {
        if k > 0 { assert Bytes(q[..k - 1]) == Bytes(r[..k - 1]); }
      }
    }
  }
}
