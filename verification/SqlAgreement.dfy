/**
 The two lexers agree on every script: they cut and label the same runes, nothing but code
 semicolons and surrounding whitespace is dropped, and a statement read on its own is
 labelled as it was inside the whole script.
 */
module SqlAgreement {
  import opened Seqs
  import opened SqlScan
  import opened SqlSplit
  import opened Spaces

  // ------------------------------------- a literal, seen by the flag machine

  /** `cur + s[..n]` and `s[n..]`, one rune later. */
  lemma {:induction false} Onward(cur: string, c: char, r: string, n: nat)
    requires 1 <= n <= |r| + 1
    ensures cur + ([c] + r)[..n] == (cur + [c]) + r[..n - 1] && ([c] + r)[n..] == r[n - 1..]
  {
    ConsSlices(c, r, n);
    Assoc(cur, [c], r[..n - 1]);
  }

  /** One rune is taken, and from there on the rest of the literal is known. */
  lemma {:induction false} Carry(cur: string, c: char, r: string, m: Mode, m': Mode, n: nat)
    requires 1 <= n <= |r| + 1
    requires Pieces(cur, [c] + r, m) == Pieces(cur + [c], r, m')
    requires Pieces(cur + [c], r, m') == Pieces((cur + [c]) + r[..n - 1], r[n - 1..], Code)
    ensures Pieces(cur, [c] + r, m) == Pieces(cur + ([c] + r)[..n], ([c] + r)[n..], Code)
  {
    hide Pieces;
    Onward(cur, c, r, n);
  }

  lemma {:induction false} CarryNone(cur: string, r: string)
    ensures Pieces(cur, r, Code) == Pieces(cur + r[..0], r[0..], Code)
  {
    hide Pieces;
    Empty(cur);
    assert r[0..] == r;
  }

  lemma {:induction false} NothingLeft(cur: string, m: Mode)
    ensures Pieces(cur, "", m) == Pieces(cur + ""[..0], ""[0..], Code)
  {
    hide Pieces;
    Empty(cur);
    PiecesEnd(cur, m);
    PiecesEnd(cur, Code);
  }

  lemma {:induction false} Reopen(cur: string, r: string)
    requires r != "" && r[0] == '\''
    ensures Pieces(cur, r, Code) == Pieces(cur + ['\''], r[1..], Single)
  {
    hide Pieces, TagLen;
    Head(r);
    PiecesCode(cur, r[0], r[1..]);
  }

  /** A doubled quote: the flag goes down and straight up again. */
  lemma {:induction false} Reopened(cur: string, r: string)
    requires r != "" && r[0] == '\''
    ensures Pieces(cur, r, Code) == Pieces(cur + r[..1 + SingleRest(r[1..])], r[1 + SingleRest(r[1..])..], Code)
    decreases |r|
  {
    hide Pieces, SingleRest;
    var t := r[1..];
    Reopen(cur, r);
    SingleBody(cur + ['\''], t);
    Head(r);
    Carry(cur, '\'', t, Code, Single, 1 + SingleRest(t));
  }

  lemma {:induction false} SingleBody(cur: string, s: string)
    ensures Pieces(cur, s, Single) == Pieces(cur + s[..SingleRest(s)], s[SingleRest(s)..], Code)
    decreases |s|
  {
    hide Pieces, SingleRest, HasSuffix, Last;
    if s == "" {
      NothingLeft(cur, Single);
    } else {
      var n, c, r := SingleRest(s), s[0], s[1..];
      Head(s);
      SingleStep(c, r);
      PiecesInside(cur, c, r, Single);
      if c != '\'' {
        SingleBody(cur + [c], r);
        Carry(cur, c, r, Single, Single, n);
      } else if r != "" && r[0] == '\'' {
        Reopened(cur + [c], r);
        Carry(cur, c, r, Single, Code, n);
      } else {
        CarryNone(cur + [c], r);
        Carry(cur, c, r, Single, Code, n);
      }
    }
  }

  lemma {:induction false} StopBody(cur: string, s: string, stop: char)
    requires stop == '"' || stop == '\n'
    ensures Pieces(cur, s, if stop == '"' then Double else Line)
         == Pieces(cur + s[..RestTo(stop, s)], s[RestTo(stop, s)..], Code)
    decreases |s|
  {
    hide Pieces, RestTo;
    var m := if stop == '"' then Double else Line;
    if s == "" {
      NothingLeft(cur, m);
    } else {
      var n, c, r := RestTo(stop, s), s[0], s[1..];
      Head(s);
      ToStep(stop, c, r);
      PiecesInside(cur, c, r, m);
      if c == stop {
        CarryNone(cur + [c], r);
        Carry(cur, c, r, m, Code, n);
      } else {
        StopBody(cur + [c], r, stop);
        Carry(cur, c, r, m, m, n);
      }
    }
  }

  lemma {:induction false} BlockBody(cur: string, s: string)
    requires cur != ""
    ensures var n := BlockRest(Last(cur), s);
      Pieces(cur, s, Block) == Pieces(cur + s[..n], s[n..], Code)
    decreases |s|
  {
    hide Pieces, BlockRest;
    if s == "" {
      NothingLeft(cur, Block);
    } else {
      var n, c, r := BlockRest(Last(cur), s), s[0], s[1..];
      Head(s);
      BlockStep(Last(cur), c, r);
      PiecesInside(cur, c, r, Block);
      if c == '/' && Last(cur) == '*' {
        CarryNone(cur + [c], r);
        Carry(cur, c, r, Block, Code, n);
      } else {
        BlockBody(cur + [c], r);
        Carry(cur, c, r, Block, Block, n);
      }
    }
  }

  /** The buffer's older text cannot matter to the closing tag: the suffix lies inside the literal. */
  lemma {:induction false} SuffixWithin(before: string, seen: string, tag: string)
    requires |tag| <= |seen|
    ensures HasSuffix(before + seen, tag) == HasSuffix(seen, tag)
  {
    assert (before + seen)[|before + seen| - |tag|..] == seen[|seen| - |tag|..];
  }

  lemma {:induction false} DollarBody(before: string, seen: string, s: string, tag: string)
    requires |tag| <= |seen|
    ensures var n := DollarRest(tag, seen, s);
      Pieces(before + seen, s, Dollar(tag)) == Pieces((before + seen) + s[..n], s[n..], Code)
    decreases |s|
  {
    hide Pieces, DollarRest, HasSuffix;
    var cur := before + seen;
    if s == "" {
      NothingLeft(cur, Dollar(tag));
    } else {
      var n, c, r := DollarRest(tag, seen, s), s[0], s[1..];
      Head(s);
      DollarStep(tag, seen, c, r);
      PiecesInside(cur, c, r, Dollar(tag));
      Assoc(before, seen, [c]);
      SuffixWithin(before, seen + [c], tag);
      if HasSuffix(seen + [c], tag) {
        CarryNone(cur + [c], r);
        Carry(cur, c, r, Dollar(tag), Code, n);
      } else {
        DollarBody(before, seen + [c], r, tag);
        Carry(cur, c, r, Dollar(tag), Dollar(tag), n);
      }
    }
  }

  lemma {:induction false} LitCases(c: char, r: string)
    ensures var s := [c] + r;
      LitLen(s) ==
        if Opens(c, '-', r) then 1 + RestTo('\n', r)
        else if Opens(c, '/', r) then 1 + BlockRest('/', r)
        else if c == '\'' then 1 + SingleRest(r)
        else if c == '"' then 1 + RestTo('"', r)
        else if TagLen(s) > 0 then TagLen(s) + DollarRest(s[..TagLen(s)], s[..TagLen(s)], s[TagLen(s)..])
        else 0
  {
    hide RestTo, BlockRest, SingleRest, DollarRest, TagLen;
    Cons(c, r);
    if r != "" {
      Head(r);
      Cons2(c, r[0], r[1..]);
    }
  }

  lemma {:induction false} LiteralBody(cur: string, s: string)
    requires LitLen(s) > 0
    ensures Pieces(cur, s, Code) == Pieces(cur + s[..LitLen(s)], s[LitLen(s)..], Code)
  {
    hide Pieces, LitLen, RestTo, BlockRest, SingleRest, DollarRest, TagLen;
    var n, c, r := LitLen(s), s[0], s[1..];
    Head(s);
    LitCases(c, r);
    PiecesCode(cur, c, r);
    if Opens(c, '-', r) {
      StopBody(cur + [c], r, '\n');
      Carry(cur, c, r, Code, Line, n);
    } else if Opens(c, '/', r) {
      BlockBody(cur + [c], r);
      Carry(cur, c, r, Code, Block, n);
    } else if c == '\'' {
      SingleBody(cur + [c], r);
      Carry(cur, c, r, Code, Single, n);
    } else if c == '"' {
      StopBody(cur + [c], r, '"');
      Carry(cur, c, r, Code, Double, n);
    } else {
      TagBody(cur, s);
    }
  }

  lemma {:induction false} TagBody(cur: string, s: string)
    requires TagLen(s) > 0
    ensures var t := TagLen(s);
      var n := t + DollarRest(s[..t], s[..t], s[t..]);
      Pieces(cur + s[..t], s[t..], Dollar(s[..t])) == Pieces(cur + s[..n], s[n..], Code)
  {
    hide Pieces, DollarRest, TagLen;
    var t := TagLen(s);
    var n := t + DollarRest(s[..t], s[..t], s[t..]);
    DollarBody(cur, s[..t], s[t..], s[..t]);
    DropDrop(s, t, n - t);
    TakeTake(s, t, n);
    Split(s[..n], t);
    Assoc(cur, s[..t], s[t..n]);
  }

  lemma {:induction false} ByLabelStep(cur: string, c: char, r: string, b: bool, l: seq<bool>)
    requires |l| == |r|
    ensures PiecesByLabel(cur, [c] + r, [b] + l)
         == if b && c == ';' then [cur] + PiecesByLabel("", r, l) else PiecesByLabel(cur + [c], r, l)
  {
    Cons(c, r);
    Cons(b, l);
  }

  lemma {:induction false} SkipLiteral(cur: string, lit: string, rest: string, l: seq<bool>)
    requires |l| == |rest|
    ensures PiecesByLabel(cur, lit + rest, Same(|lit|, false) + l) == PiecesByLabel(cur + lit, rest, l)
    decreases |lit|
  {
    hide PiecesByLabel;
    if lit == "" {
      Empty(cur);
      Empty(rest);
      Empty(l);
    } else {
      var c, t := lit[0], lit[1..];
      Head(lit);
      SkipLiteral(cur + [c], t, rest, l);
      Assoc([c], t, rest);
      Assoc([false], Same(|t|, false), l);
      ByLabelStep(cur, c, t + rest, false, Same(|t|, false) + l);
      Assoc(cur, [c], t);
    }
  }

  /** The flag machine cuts at exactly the semicolons that the scanner labels code. */
  lemma {:induction false} CutsAgree(cur: string, s: string)
    ensures Pieces(cur, s, Code) == PiecesByLabel(cur, s, Labels(s))
    decreases |s|
  {
    hide Pieces, LitLen, Labels, Same, TagLen;
    if s == "" {
      PiecesEnd(cur, Code);
    } else if LitLen(s) > 0 {
      hide PiecesByLabel;
      var lit, rest := s[..LitLen(s)], s[LitLen(s)..];
      Split(s, LitLen(s));
      LiteralBody(cur, s);
      CutsAgree(cur + lit, rest);
      LabelsLit(lit, rest);
      SkipLiteral(cur, lit, rest, Labels(rest));
    } else {
      hide PiecesByLabel;
      var c, r := s[0], s[1..];
      Head(s);
      LitCases(c, r);
      PiecesCode(cur, c, r);
      LabelsCode(c, r);
      ByLabelStep(cur, c, r, true, Labels(r));
      CutsAgree(if c == ';' then "" else cur + [c], r);
    }
  }

  // ------------------------------------------------- nothing else is dropped

  function Join(ps: seq<string>): string
    requires |ps| > 0
  {
    if |ps| == 1 then ps[0] else ps[0] + (";" + Join(ps[1..]))
  }

  lemma {:induction false} JoinCons(p: string, ps: seq<string>)
    requires |ps| > 0
    ensures Join([p] + ps) == p + (";" + Join(ps))
  {
    Cons(p, ps);
  }

  lemma {:induction false} JoinPieces(cur: string, s: string, l: seq<bool>)
    requires |l| == |s|
    ensures Join(PiecesByLabel(cur, s, l)) == cur + s
    decreases |s|
  {
    if s == "" {
      Empty(cur);
    } else {
      hide PiecesByLabel, Join;
      var c, r := s[0], s[1..];
      Head(s);
      Head(l);
      ByLabelStep(cur, c, r, l[0], l[1..]);
      if l[0] && c == ';' {
        JoinPieces("", r, l[1..]);
        Empty(r);
        JoinCons(cur, PiecesByLabel("", r, l[1..]));
      } else {
        JoinPieces(cur + [c], r, l[1..]);
        Assoc(cur, [c], r);
      }
    }
  }

  /** Gluing the pieces back with semicolons gives the script, rune for rune. */
  lemma {:induction false} SplitLosesNothing(script: string)
    ensures Join(Pieces("", script, Code)) == script
  {
    hide Pieces, PiecesByLabel, Join, Labels;
    CutsAgree("", script);
    JoinPieces("", script, Labels(script));
    Empty(script);
  }

  // ------------------------------------------------- reading a part alone

  /** Runes that cannot take part in opening, extending or closing a literal by look-ahead. */
  predicate Neutral(c: char) { IsSpace(c) || c == ';' }

  predicate Stops(b: string) { b == "" || Neutral(b[0]) }

  function Min(a: nat, b: nat): nat { if a <= b then a else b }

  lemma {:induction false} NeutralIsCode(c: char)
    requires Neutral(c)
    ensures c != '\'' && c != '"' && c != '-' && c != '/' && c != '*' && c != '$' && !IsTagRune(c)
  {
  }

  /** What follows a cut cannot be the second rune of anything. */
  lemma {:induction false} StopsSecond(r: string, b: string)
    requires Stops(b)
    ensures r != "" ==> (r + b) != "" && (r + b)[0] == r[0]
    ensures r == "" && r + b != "" ==> Neutral((r + b)[0])
  {
    Empty(b);
  }

  lemma {:induction false} TruncSingle(x: string, b: string)
    requires Stops(b)
    ensures SingleRest(x) == Min(SingleRest(x + b), |x|)
    decreases |x|
  {
    hide SingleRest, Neutral;
    if x != "" {
      var c, r := x[0], x[1..];
      Head(x);
      Assoc([c], r, b);
      SingleStep(c, r);
      SingleStep(c, r + b);
      StopsSecond(r, b);
      if c != '\'' {
        TruncSingle(r, b);
      } else if r != "" && r[0] == '\'' {
        TruncSingle(r[1..], b);
        Within(r, b, 1);
      } else if r + b != "" && r == "" {
        NeutralIsCode((r + b)[0]);
      }
    }
  }

  lemma {:induction false} TruncTo(stop: char, x: string, b: string)
    ensures RestTo(stop, x) == Min(RestTo(stop, x + b), |x|)
    decreases |x|
  {
    hide RestTo;
    if x != "" {
      var c, r := x[0], x[1..];
      Head(x);
      Assoc([c], r, b);
      ToStep(stop, c, r);
      ToStep(stop, c, r + b);
      if c != stop { TruncTo(stop, r, b); }
    }
  }

  lemma {:induction false} TruncBlock(prev: char, x: string, b: string)
    ensures BlockRest(prev, x) == Min(BlockRest(prev, x + b), |x|)
    decreases |x|
  {
    hide BlockRest;
    if x != "" {
      var c, r := x[0], x[1..];
      Head(x);
      Assoc([c], r, b);
      BlockStep(prev, c, r);
      BlockStep(prev, c, r + b);
      if !(c == '/' && prev == '*') { TruncBlock(c, r, b); }
    }
  }

  lemma {:induction false} TruncDollar(tag: string, seen: string, x: string, b: string)
    ensures DollarRest(tag, seen, x) == Min(DollarRest(tag, seen, x + b), |x|)
    decreases |x|
  {
    hide DollarRest, HasSuffix;
    if x != "" {
      var c, r := x[0], x[1..];
      Head(x);
      Assoc([c], r, b);
      DollarStep(tag, seen, c, r);
      DollarStep(tag, seen, c, r + b);
      if !HasSuffix(seen + [c], tag) { TruncDollar(tag, seen + [c], r, b); }
    }
  }

  lemma {:induction false} TruncTag(x: string, b: string, k: nat)
    requires Stops(b) && k <= |x|
    ensures TagScan(x, k) == TagScan(x + b, k)
    decreases |x| - k
  {
    hide Neutral, IsTagRune;
    if k < |x| {
      assert (x + b)[k] == x[k];
      if k < 64 && x[k] != '$' && IsTagRune(x[k]) { TruncTag(x, b, k + 1); }
    } else if b != "" {
      assert (x + b)[k] == b[0];
      NeutralIsCode(b[0]);
    }
  }

  lemma {:induction false} TruncTagLen(x: string, b: string)
    requires x != "" && Stops(b)
    ensures TagLen(x) == TagLen(x + b)
  {
    hide TagScan, Neutral;
    TruncTag(x, b, 1);
    Within(x, b, 1);
  }

  lemma {:induction false} TruncLit(x: string, b: string)
    requires x != "" && Stops(b)
    ensures LitLen(x) == Min(LitLen(x + b), |x|)
  {
    hide LitLen, RestTo, BlockRest, SingleRest, DollarRest, TagLen, Neutral;
    var c, r := x[0], x[1..];
    Head(x);
    Assoc([c], r, b);
    LitCases(c, r);
    LitCases(c, r + b);
    StopsSecond(r, b);
    if r == "" && r + b != "" { NeutralIsCode((r + b)[0]); }
    TruncTo('\n', r, b);
    TruncTo('"', r, b);
    TruncBlock('/', r, b);
    TruncSingle(r, b);
    TruncTagLen(x, b);
    var t := TagLen(x);
    Within(x, b, t);
    TruncDollar(x[..t], x[..t], x[t..], b);
  }

  lemma {:induction false} SamePrefix(n: nat, m: nat, b: bool)
    requires n <= m
    ensures Same(m, b)[..n] == Same(n, b)
  {
    forall k | 0 <= k < n
      ensures Same(m, b)[k] == Same(n, b)[k]
    {
      SameAt(m, b, k);
      SameAt(n, b, k);
    }
  }

  /** Cutting text off before whitespace, a semicolon or the end changes no earlier label. */
  lemma {:induction false} LabelsTrunc(x: string, b: string)
    requires Stops(b)
    ensures Labels(x) == Labels(x + b)[..|x|]
    decreases |x|
  {
    hide LitLen, Labels, Same, Neutral;
    if x == "" {
      NoLabels(x);
    } else {
      TruncLit(x, b);
      var n, m := LitLen(x), LitLen(x + b);
      if n == 0 {
        var c, r := x[0], x[1..];
        Head(x);
        Assoc([c], r, b);
        LabelsTrunc(r, b);
        LabelsCode(c, r);
        LabelsCode(c, r + b);
        ConsSlices(true, Labels(r + b), |x|);
      } else if m <= |x| {
        var lit, rest := x[..n], x[n..];
        Split(x, n);
        Assoc(lit, rest, b);
        LabelsTrunc(rest, b);
        LabelsLit(lit, rest);
        LabelsLit(lit, rest + b);
        PrefixLater(Same(n, false), Labels(rest + b), |rest|);
      } else {
        var y := x + b;
        Split(y, m);
        LabelsLit(y[..m], y[m..]);
        Empty(x);
        LabelsLit(x, "");
        LabelsNone();
        Empty(Same(|x|, false));
        SamePrefix(|x|, m, false);
        Within(Same(m, false), Labels(y[m..]), |x|);
      }
    }
  }

  lemma {:induction false} LabelsNone()
    ensures Labels("") == []
  {
  }

  lemma {:induction false} PrefixLater<T>(a: seq<T>, b: seq<T>, n: nat)
    requires n <= |b|
    ensures (a + b)[..|a| + n] == a + b[..n] && (a + b)[|a| + n..] == b[n..]
  {
  }

  /** A code rune is a token by itself, so reading may restart there. */
  lemma {:induction false} LabelsRestart(s: string, k: nat)
    requires k < |s| && Labels(s)[k]
    ensures Labels(s)[k..] == Labels(s[k..])
    ensures LitLen(s[k..]) == 0
    decreases |s|
  {
    hide LitLen, Labels, Same;
    var n := LitLen(s);
    if n > 0 {
      var lit, rest := s[..n], s[n..];
      Split(s, n);
      LabelsLit(lit, rest);
      if k < n {
        SameAt(n, false, k);
        assert false;
      }
      LabelsRestart(rest, k - n);
      DropDrop(s, n, k - n);
      PrefixLater(Same(n, false), Labels(rest), k - n);
    } else {
      var c, r := s[0], s[1..];
      Head(s);
      LabelsCode(c, r);
      if k > 0 {
        LabelsRestart(r, k - 1);
        DropDrop(s, 1, k - 1);
        ConsSlices(true, Labels(r), k);
      } else {
        assert s[0..] == s && Labels(s)[0..] == Labels(s);
      }
    }
  }

  /** Labels around a code semicolon: each side reads as it would alone. */
  lemma {:induction false} LabelsAround(s: string, k: nat)
    requires k < |s| && Labels(s)[k] && s[k] == ';'
    ensures Labels(s) == Labels(s[..k]) + ([true] + Labels(s[k + 1..]))
  {
    hide LitLen, Labels;
    Split(s, k);
    LabelsTrunc(s[..k], s[k..]);
    LabelsRestart(s, k);
    Head(s[k..]);
    DropDrop(s, k, 1);
    LabelsCode(s[k], s[k + 1..]);
    Split(Labels(s), k);
  }

  function JoinLabels(ps: seq<string>): seq<bool>
    requires |ps| > 0
  {
    if |ps| == 1 then Labels(ps[0]) else Labels(ps[0]) + ([true] + JoinLabels(ps[1..]))
  }

  lemma {:induction false} JoinLabelsCons(p: string, ps: seq<string>)
    requires |ps| > 0
    ensures JoinLabels([p] + ps) == Labels(p) + ([true] + JoinLabels(ps))
  {
    hide Labels;
    Cons(p, ps);
  }

  predicate NoCodeSemicolon(p: string) {
    forall k :: 0 <= k < |p| && Labels(p)[k] ==> p[k] != ';'
  }

  /** Where the first code semicolon of `s`, if any, ends the first piece. */
  function FirstCut(s: string, l: seq<bool>): (k: nat)
    requires |l| == |s|
    ensures k <= |s| && (k < |s| ==> l[k] && s[k] == ';')
    ensures forall j :: 0 <= j < k ==> !(l[j] && s[j] == ';')
    decreases |s|
  {
    if s == "" || (l[0] && s[0] == ';') then 0 else 1 + FirstCut(s[1..], l[1..])
  }

  lemma {:induction false} CutOnce(cur: string, s: string, l: seq<bool>)
    requires |l| == |s|
    ensures var k := FirstCut(s, l);
      PiecesByLabel(cur, s, l) ==
        if k == |s| then [cur + s] else [cur + s[..k]] + PiecesByLabel("", s[k + 1..], l[k + 1..])
    decreases |s|
  {
    if s == "" {
      Empty(cur);
    } else {
      hide PiecesByLabel;
      var k, c, r := FirstCut(s, l), s[0], s[1..];
      Head(s);
      Head(l);
      ByLabelStep(cur, c, r, l[0], l[1..]);
      if l[0] && c == ';' {
        assert k == 0 && s[..0] == "";
        Empty(cur);
      } else {
        assert k == 1 + FirstCut(r, l[1..]);
        CutOnce(cur + [c], r, l[1..]);
        Assoc(cur, [c], r);
        if k < |s| {
          Onward(cur, c, r, k);
          DropDrop(s, 1, k);
          DropDrop(l, 1, k);
        }
      }
    }
  }

  lemma {:induction false} PiecesReadAlone(s: string)
    ensures JoinLabels(PiecesByLabel("", s, Labels(s))) == Labels(s)
    ensures forall p :: p in PiecesByLabel("", s, Labels(s)) ==> NoCodeSemicolon(p)
    decreases |s|
  {
    var l := Labels(s);
    var k := FirstCut(s, l);
    CutOnce("", s, l);
    hide FirstCut, PiecesByLabel, Labels;
    if k == |s| {
      Empty(s);
    } else {
      hide JoinLabels;
      Empty(s[..k]);
      LabelsAround(s, k);
      Assoc(Labels(s[..k]), [true], Labels(s[k + 1..]));
      Parts(Labels(s[..k]) + [true], Labels(s[k + 1..]));
      PiecesReadAlone(s[k + 1..]);
      JoinLabelsCons(s[..k], PiecesByLabel("", s[k + 1..], l[k + 1..]));
      LabelsTrunc(s[..k], s[k..]);
      Split(s, k);
    }
  }

  /** Each piece, scanned alone, carries the labels it had inside the script, and holds no further cut. */
  lemma {:induction false} StatementsReadAlone(script: string)
    ensures JoinLabels(Pieces("", script, Code)) == Labels(script)
    ensures forall p :: p in Pieces("", script, Code) ==> NoCodeSemicolon(p)
  {
    hide Pieces, PiecesByLabel, JoinLabels, Labels, NoCodeSemicolon;
    CutsAgree("", script);
    PiecesReadAlone(script);
  }

  // ----------------------------------------------------------------- trimming

  predicate AllSpace(s: string) { forall k :: 0 <= k < |s| ==> IsSpace(s[k]) }

  lemma {:induction false} SpaceIsCode(c: char, r: string)
    requires IsSpace(c)
    ensures Labels([c] + r) == [true] + Labels(r)
  {
    hide LitLen, Labels, RestTo, BlockRest, SingleRest, DollarRest;
    NeutralIsCode(c);
    Cons(c, r);
    LitCases(c, r);
    LabelsCode(c, r);
  }

  lemma {:induction false} TrimLeftLabels(s: string) returns (a: nat)
    ensures a <= |s| && AllSpace(s[..a]) && TrimLeft(s) == s[a..]
    ensures Labels(s[a..]) == Labels(s)[a..]
    decreases |s|
  {
    hide Labels, IsSpace;
    if s != "" && IsSpace(s[0]) {
      var c, r := s[0], s[1..];
      Head(s);
      var b := TrimLeftLabels(r);
      a := b + 1;
      ConsSlices(c, r, a);
      SpaceIsCode(c, r);
      ConsSlices(true, Labels(r), a);
    } else {
      a := 0;
      assert s[0..] == s && Labels(s)[0..] == Labels(s);
    }
  }

  lemma {:induction false} TrimRightLabels(s: string) returns (b: nat)
    ensures b <= |s| && AllSpace(s[b..]) && TrimRight(s) == s[..b]
    ensures Labels(s[..b]) == Labels(s)[..b]
    decreases |s|
  {
    hide Labels, IsSpace;
    if s != "" && IsSpace(Last(s)) {
      var t := s[..|s| - 1];
      InitLast(s);
      b := TrimRightLabels(t);
      Within(t, [Last(s)], b);
      LabelsTrunc(t, [Last(s)]);
      TakeTake(Labels(s), b, |t|);
    } else {
      b := |s|;
      assert s[..b] == s && Labels(s)[..b] == Labels(s);
    }
  }

  /** A kept statement is its piece without the outer whitespace, and keeps the labels it had there. */
  lemma {:induction false} TrimLabels(p: string) returns (a: nat, b: nat)
    ensures a <= b <= |p| && Trim(p) == p[a..b]
    ensures AllSpace(p[..a]) && AllSpace(p[b..])
    ensures Labels(Trim(p)) == Labels(p)[a..b]
  {
    hide Labels, AllSpace, TrimLeft, TrimRight;
    a := TrimLeftLabels(p);
    var k := TrimRightLabels(p[a..]);
    b := a + k;
    DropDrop(p, a, k);
    DropDrop(Labels(p), a, k);
  }

  lemma {:induction false} KeptFrom(ps: seq<string>, st: string) returns (k: nat)
    requires st in Kept(ps)
    ensures k < |ps| && st == Trim(ps[k]) && st != ""
    decreases |ps|
  {
    hide Trim;
    if st in Keep(ps[0]) {
      k := 0;
    } else {
      var j := KeptFrom(ps[1..], st);
      k := j + 1;
    }
  }

  lemma {:induction false} Unkept(ps: seq<string>, k: nat)
    requires k < |ps|
    ensures Trim(ps[k]) in Kept(ps) || AllSpace(ps[k])
    decreases k
  {
    if k == 0 {
      var a, b := TrimLabels(ps[0]);
      hide Trim;
      if Trim(ps[0]) == "" {
        Split(ps[0], a);
        assert ps[0] == ps[0][..a] + ps[0][b..];
      }
    } else {
      hide Trim;
      Unkept(ps[1..], k - 1);
    }
  }

  /** `st` is `p[a..b]`, only whitespace is cut off, and `st` reads alone as it did in `p`. */
  predicate TrimmedFrom(st: string, p: string, a: nat, b: nat)
    requires a <= b <= |p|
  {
    st == p[a..b] && AllSpace(p[..a]) && AllSpace(p[b..]) && Labels(st) == Labels(p)[a..b]
  }

  /** What the splitter returns: each statement is a non-empty piece of the script without its outer
      whitespace, labelled as it was there; a piece that is not returned is whitespace only. */
  lemma {:induction false} StatementsAreSlices(script: string)
    ensures var ps := Pieces("", script, Code);
      && Join(ps) == script && JoinLabels(ps) == Labels(script)
      && (forall st :: st in Statements(script) ==>
            exists k, a, b :: 0 <= k < |ps| && 0 <= a < b <= |ps[k]| && TrimmedFrom(st, ps[k], a, b))
      && (forall k :: 0 <= k < |ps| ==> Trim(ps[k]) in Statements(script) || AllSpace(ps[k]))
  {
    hide Pieces, Kept, Labels, Join, JoinLabels, AllSpace, Trim;
    var ps := Pieces("", script, Code);
    SplitLosesNothing(script);
    StatementsReadAlone(script);
    forall st | st in Statements(script)
      ensures exists k, a, b :: 0 <= k < |ps| && 0 <= a < b <= |ps[k]| && TrimmedFrom(st, ps[k], a, b)
    {
      var k := KeptFrom(ps, st);
      var a, b := TrimLabels(ps[k]);
      assert TrimmedFrom(st, ps[k], a, b);
    }
    forall k | 0 <= k < |ps|
      ensures Trim(ps[k]) in Statements(script) || AllSpace(ps[k])
    {
      Unkept(ps, k);
    }
  }
}
