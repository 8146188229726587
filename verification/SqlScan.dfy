/**
 The reference reading of SQL text (shared/db/segments.go): which runes of a script are
 code and which belong to a quoted literal, a quoted identifier, a comment or a
 dollar-quoted body.  Everything here works on rune sequences and on the suffix of the
 script that is still to be read.
 */
module SqlScan {
  import opened Seqs

  datatype Segment = Segment(text: string, code: bool)

  predicate IsTagRune(c: char) {
    c == '_' || 'a' <= c <= 'z' || 'A' <= c <= 'Z' || '0' <= c <= '9'
  }

  predicate HasSuffix(s: string, suffix: string) {
    |suffix| <= |s| && s[|s| - |suffix|..] == suffix
  }

  // ---------------------------------------------------------------- literals

  /** Position after the `$` that closes a tag, looking at `s[k..]`; 0 when there is none. */
  function TagScan(s: string, k: nat): (n: nat)
    requires k <= |s|
    ensures n == 0 || (k < n <= |s| && n <= 64)
    decreases |s| - k
  {
    if k == |s| || k >= 64 then 0
    else if s[k] == '$' then k + 1
    else if !IsTagRune(s[k]) then 0
    else TagScan(s, k + 1)
  }

  /** Length of the `$tag$` opening at the start of `s`, or 0. */
  function TagLen(s: string): (n: nat)
    ensures n <= |s| && (n != 0 ==> 2 <= n && s[0] == '$')
  {
    if s == "" || s[0] != '$' then 0 else TagScan(s, 1)
  }

  /** Runes left in a single-quoted literal; `''` does not close it. */
  function SingleRest(s: string): (n: nat)
    ensures n <= |s|
  {
    if s == "" then 0
    else if s[0] == '\'' then
      if |s| > 1 && s[1] == '\'' then 2 + SingleRest(s[2..]) else 1
    else 1 + SingleRest(s[1..])
  }

  /** Runes left up to and including `stop`: quoted identifiers and line comments. */
  function RestTo(stop: char, s: string): (n: nat)
    ensures n <= |s|
  {
    if s == "" then 0 else if s[0] == stop then 1 else 1 + RestTo(stop, s[1..])
  }

  /** Runes left in a block comment whose last rune so far is `prev`. */
  function BlockRest(prev: char, s: string): (n: nat)
    ensures n <= |s|
    decreases |s|
  {
    if s == "" then 0
    else if s[0] == '/' && prev == '*' then 1
    else 1 + BlockRest(s[0], s[1..])
  }

  /** Runes left in a dollar-quoted body of which `seen` has been read. */
  function DollarRest(tag: string, seen: string, s: string): (n: nat)
    ensures n <= |s|
    decreases |s|
  {
    if s == "" then 0
    else if HasSuffix(seen + [s[0]], tag) then 1
    else 1 + DollarRest(tag, seen + [s[0]], s[1..])
  }

  /** Length of the literal or comment that opens at the start of `s`; 0 when `s` starts with code. */
  function LitLen(s: string): (n: nat)
    ensures n <= |s|
  {
    if s == "" then 0
    else if s[0] == '\'' then 1 + SingleRest(s[1..])
    else if s[0] == '"' then 1 + RestTo('"', s[1..])
    else if s[0] == '-' && |s| > 1 && s[1] == '-' then 1 + RestTo('\n', s[1..])
    else if s[0] == '/' && |s| > 1 && s[1] == '*' then 1 + BlockRest('/', s[1..])
    else if TagLen(s) > 0 then
      TagLen(s) + DollarRest(s[..TagLen(s)], s[..TagLen(s)], s[TagLen(s)..])
    else 0
  }

  lemma {:induction false} SingleStep(c: char, r: string)
    ensures c != '\'' ==> SingleRest([c] + r) == 1 + SingleRest(r)
    ensures c == '\'' && r != "" && r[0] == '\'' ==> SingleRest([c] + r) == 2 + SingleRest(r[1..])
    ensures c == '\'' && !(r != "" && r[0] == '\'') ==> SingleRest([c] + r) == 1
  {
    Cons(c, r);
    if r != "" {
      Head(r);
      Cons2(c, r[0], r[1..]);
    }
  }

  lemma {:induction false} ToStep(stop: char, c: char, r: string)
    ensures RestTo(stop, [c] + r) == if c == stop then 1 else 1 + RestTo(stop, r)
  {
    Cons(c, r);
  }

  lemma {:induction false} BlockStep(prev: char, c: char, r: string)
    ensures BlockRest(prev, [c] + r) == if c == '/' && prev == '*' then 1 else 1 + BlockRest(c, r)
  {
    Cons(c, r);
  }

  lemma {:induction false} DollarStep(tag: string, seen: string, c: char, r: string)
    ensures DollarRest(tag, seen, [c] + r)
         == if HasSuffix(seen + [c], tag) then 1 else 1 + DollarRest(tag, seen + [c], r)
  {
    Cons(c, r);
  }

  // ------------------------------------------------------------------ labels

  /** `n` labels that are all `b`. */
  function Same(n: nat, b: bool): (l: seq<bool>)
    ensures |l| == n
  {
    if n == 0 then [] else [b] + Same(n - 1, b)
  }

  lemma {:induction false} SameAt(n: nat, b: bool, k: nat)
    requires k < n
    ensures Same(n, b)[k] == b
  {
    if k > 0 { SameAt(n - 1, b, k - 1); }
  }

  lemma {:induction false} SameSnoc(n: nat, b: bool)
    ensures Same(n + 1, b) == Same(n, b) + [b]
  {
    if n > 0 {
      SameSnoc(n - 1, b);
      Assoc([b], Same(n - 1, b), [b]);
    }
  }

  /** One label a rune: true for code. */
  function Labels(s: string): (l: seq<bool>)
    ensures |l| == |s|
    decreases |s|
  {
    if s == "" then []
    else if LitLen(s) > 0 then Same(LitLen(s), false) + Labels(s[LitLen(s)..])
    else [true] + Labels(s[1..])
  }

  lemma {:induction false} LabelsLit(lit: string, rest: string)
    requires |lit| == LitLen(lit + rest) > 0
    ensures Labels(lit + rest) == Same(|lit|, false) + Labels(rest)
  {
    hide LitLen, Same;
    Parts(lit, rest);
  }

  lemma {:induction false} LabelsCode(c: char, rest: string)
    requires LitLen([c] + rest) == 0
    ensures Labels([c] + rest) == [true] + Labels(rest)
  {
    hide LitLen, Same;
    Cons(c, rest);
  }

  // ---------------------------------------------------------------- segments

  function Run(text: string, code: bool): seq<Segment> {
    if text == "" then [] else [Segment(text, code)]
  }

  /** The segments of `s`, given the code run `cur` that precedes it. */
  function SegmentsFrom(cur: string, s: string): seq<Segment>
    decreases |s|
  {
    if s == "" then Run(cur, true)
    else if LitLen(s) > 0 then
      Run(cur, true) + ([Segment(s[..LitLen(s)], false)] + SegmentsFrom("", s[LitLen(s)..]))
    else SegmentsFrom(cur + [s[0]], s[1..])
  }

  lemma {:induction false} SegmentsLit(cur: string, lit: string, rest: string)
    requires |lit| == LitLen(lit + rest) > 0
    ensures SegmentsFrom(cur, lit + rest) == Run(cur, true) + ([Segment(lit, false)] + SegmentsFrom("", rest))
  {
    hide LitLen, Run;
    Parts(lit, rest);
  }

  lemma {:induction false} SegmentsCode(cur: string, c: char, rest: string)
    requires LitLen([c] + rest) == 0
    ensures SegmentsFrom(cur, [c] + rest) == SegmentsFrom(cur + [c], rest)
  {
    hide LitLen, Run;
    Cons(c, rest);
  }

  lemma {:induction false} SegmentsEnd(cur: string)
    ensures SegmentsFrom(cur, "") == Run(cur, true)
  {
  }

  function Segments(s: string): seq<Segment> { SegmentsFrom("", s) }

  function Text(segs: seq<Segment>): string {
    if segs == [] then "" else segs[0].text + Text(segs[1..])
  }

  function FlatLabels(segs: seq<Segment>): seq<bool> {
    if segs == [] then [] else Same(|segs[0].text|, segs[0].code) + FlatLabels(segs[1..])
  }

  lemma {:induction false} TextCons(x: Segment, r: seq<Segment>)
    ensures Text([x] + r) == x.text + Text(r)
    ensures FlatLabels([x] + r) == Same(|x.text|, x.code) + FlatLabels(r)
  {
    hide Same;
    Cons(x, r);
  }

  lemma {:induction false} RunThen(text: string, code: bool, segs: seq<Segment>)
    ensures Text(Run(text, code) + segs) == text + Text(segs)
    ensures FlatLabels(Run(text, code) + segs) == Same(|text|, code) + FlatLabels(segs)
  {
    hide Text, FlatLabels;
    if text == "" {
      Empty(segs);
      Empty(Text(segs));
      Empty(FlatLabels(segs));
    } else {
      TextCons(Segment(text, code), segs);
    }
  }

  lemma {:induction false} SegmentsFromMeaning(cur: string, s: string)
    ensures Text(SegmentsFrom(cur, s)) == cur + s
    ensures FlatLabels(SegmentsFrom(cur, s)) == Same(|cur|, true) + Labels(s)
    decreases |s|
  {
    if s == "" {
      hide Same, Run;
      RunThen(cur, true, []);
      Empty(Run(cur, true));
    } else if LitLen(s) > 0 {
      hide LitLen, SegmentsFrom, Text, FlatLabels, Same, Run, Labels;
      var lit, rest := s[..LitLen(s)], s[LitLen(s)..];
      Split(s, LitLen(s));
      SegmentsFromMeaning("", rest);
      RunThen("", true, SegmentsFrom("", rest));
      NoLabels(rest);
      SegmentsLit(cur, lit, rest);
      LabelsLit(lit, rest);
      TextCons(Segment(lit, false), SegmentsFrom("", rest));
      RunThen(cur, true, [Segment(lit, false)] + SegmentsFrom("", rest));
    } else {
      hide LitLen, SegmentsFrom, Text, FlatLabels, Same, Labels;
      var c, rest := s[0], s[1..];
      Head(s);
      SegmentsFromMeaning(cur + [c], rest);
      SegmentsCode(cur, c, rest);
      LabelsCode(c, rest);
      Assoc(cur, [c], rest);
      SameSnoc(|cur|, true);
      Assoc(Same(|cur|, true), [true], Labels(rest));
    }
  }

  lemma {:induction false} NoLabels(s: string)
    ensures "" + s == s && Same(0, true) + Labels(s) == Labels(s)
  {
    hide Labels;
    Empty(s);
    Empty(Labels(s));
  }

  /** Segmentation loses nothing and labels every rune as the reference does. */
  lemma {:induction false} SegmentsMeaning(s: string)
    ensures Text(Segments(s)) == s
    ensures FlatLabels(Segments(s)) == Labels(s)
  {
    hide SegmentsFrom, Text, FlatLabels, Labels, Same;
    SegmentsFromMeaning("", s);
    NoLabels(s);
  }

  // ------------------------------------------------- the scanner, as it runs

  /** The `$tag$` at the start of `r`, or "". */
  method DollarQuoteTag(r: string) returns (tag: string)
    ensures tag == r[..TagLen(r)]
  {
    if |r| == 0 || r[0] != '$' {
      return "";
    }
    var i := 1;
    while i < |r| && i < 64
      invariant 1 <= i <= |r| && i <= 64
      invariant TagLen(r) == TagScan(r, i)
    {
      if r[i] == '$' {
        return r[..i + 1];
      }
      if !IsTagRune(r[i]) {
        return "";
      }
      i := i + 1;
    }
    return "";
  }

  method ScanSingle(r: string, open: nat) returns (i: nat, text: string)
    requires open < |r|
    ensures open < i <= |r| && i == open + 1 + SingleRest(r[open + 1..]) && text == r[open..i]
  {
    hide SingleRest;
    i, text := open + 1, [r[open]];
    ghost var end := i + SingleRest(r[i..]);
    while i < |r|
      invariant open < i <= |r| && text == r[open..i]
      invariant end == i + SingleRest(r[i..])
    {
      var c := r[i];
      SingleStep(c, r[i + 1..]);
      Snoc(r, open, i);
      text := text + [c];
      i := i + 1;
      if c == '\'' {
        if i < |r| && r[i] == '\'' {
          DropDrop(r, i, 1);
          Snoc(r, open, i);
          text := text + [r[i]];
          i := i + 1;
          continue;
        }
        return;
      }
    }
  }

  /** Reads from `open` up to and including `stop`: quoted identifiers and line comments. */
  method ScanTo(r: string, open: nat, stop: char) returns (i: nat, text: string)
    requires open < |r|
    ensures open < i <= |r| && i == open + 1 + RestTo(stop, r[open + 1..]) && text == r[open..i]
  {
    hide RestTo;
    i, text := open + 1, [r[open]];
    ghost var end := i + RestTo(stop, r[i..]);
    while i < |r|
      invariant open < i <= |r| && text == r[open..i]
      invariant end == i + RestTo(stop, r[i..])
    {
      var c := r[i];
      ToStep(stop, c, r[i + 1..]);
      Snoc(r, open, i);
      text := text + [c];
      i := i + 1;
      if c == stop {
        return;
      }
    }
  }

  method ScanBlock(r: string, open: nat) returns (i: nat, text: string)
    requires open < |r|
    ensures open < i <= |r| && i == open + 1 + BlockRest(r[open], r[open + 1..]) && text == r[open..i]
  {
    hide BlockRest;
    i, text := open + 1, [r[open]];
    ghost var end := i + BlockRest(r[open], r[i..]);
    while i < |r|
      invariant open < i <= |r| && text == r[open..i]
      invariant end == i + BlockRest(r[i - 1], r[i..])
    {
      var c := r[i];
      BlockStep(r[i - 1], c, r[i + 1..]);
      Snoc(r, open, i);
      text := text + [c];
      i := i + 1;
      if c == '/' && r[i - 2] == '*' {
        return;
      }
    }
  }

  method ScanDollar(r: string, open: nat, tag: string) returns (i: nat, text: string)
    requires open + |tag| <= |r| && r[open..open + |tag|] == tag
    ensures open + |tag| <= i <= |r| && text == r[open..i]
    ensures i == open + |tag| + DollarRest(tag, tag, r[open + |tag|..])
  {
    hide DollarRest, HasSuffix;
    i, text := open + |tag|, tag;
    ghost var end := i + DollarRest(tag, tag, r[i..]);
    while i < |r|
      invariant open + |tag| <= i <= |r| && text == r[open..i]
      invariant end == i + DollarRest(tag, text, r[i..])
    {
      DollarStep(tag, text, r[i], r[i + 1..]);
      Snoc(r, open, i);
      text := text + [r[i]];
      i := i + 1;
      if HasSuffix(text, tag) {
        return;
      }
    }
  }

  /** The literal opening at `open`, if one does: where it ends, and its text. */
  method ScanLiteral(r: string, open: nat) returns (next: nat, text: string)
    requires open < |r|
    ensures next == open + LitLen(r[open..]) && next <= |r| && text == r[open..next]
  {
    hide SingleRest, RestTo, BlockRest, DollarRest, TagLen;
    ghost var rest := r[open..];
    DropDrop(r, open, 1);
    var c := r[open];
    next, text := open, "";
    if c == '\'' {
      next, text := ScanSingle(r, open);
    } else if c == '"' {
      next, text := ScanTo(r, open, '"');
    } else if c == '-' && open + 1 < |r| && r[open + 1] == '-' {
      next, text := ScanTo(r, open, '\n');
    } else if c == '/' && open + 1 < |r| && r[open + 1] == '*' {
      next, text := ScanBlock(r, open);
    } else if c == '$' {
      var tag := DollarQuoteTag(r[open..]);
      if tag != "" {
        DropDrop(r, open, |tag|);
        next, text := ScanDollar(r, open, tag);
      }
    }
  }

  /** `scanSegments`: one pass over the runes, flushing the pending code run before each literal. */
  method ScanSegments(sql: string) returns (out: seq<Segment>)
    ensures out == Segments(sql)
    ensures Text(out) == sql
    ensures FlatLabels(out) == Labels(sql)
  {
    hide LitLen, SegmentsFrom, Run, Text, FlatLabels, Labels;
    out := [];
    var cur := "";
    var i := 0;
    Empty(SegmentsFrom("", sql));
    assert sql[0..] == sql;
    while i < |sql|
      invariant i <= |sql|
      invariant out + SegmentsFrom(cur, sql[i..]) == SegmentsFrom("", sql)
    {
      var next, text := ScanLiteral(sql, i);
      DropDrop(sql, i, next - i);
      if next > i {
        Split(sql[i..], next - i);
        ghost var todo := SegmentsFrom("", sql[next..]);
        SegmentsLit(cur, text, sql[next..]);
        Assoc(out, Run(cur, true), [Segment(text, false)] + todo);
        Assoc(out + Run(cur, true), [Segment(text, false)], todo);
        out := out + Run(cur, true) + [Segment(text, false)];
        i, cur := next, "";
      } else {
        Snoc(sql, i, i);
        SegmentsCode(cur, sql[i], sql[i + 1..]);
        i, cur := i + 1, cur + [sql[i]];
      }
    }
    SegmentsEnd(cur);
    assert sql[i..] == "";
    out := out + Run(cur, true);
    SegmentsMeaning(sql);
  }

  /** `mapCode`: `f` on the code parts, everything else as it was. */
  function MapSegments(segs: seq<Segment>, f: string -> string): string {
    if segs == [] then ""
    else MapSegments(segs[..|segs| - 1], f) + Mapped(segs[|segs| - 1], f)
  }

  function Mapped(seg: Segment, f: string -> string): string {
    if seg.code then f(seg.text) else seg.text
  }

  lemma {:induction false} MapSnoc(segs: seq<Segment>, x: Segment, f: string -> string)
    ensures MapSegments(segs + [x], f) == MapSegments(segs, f) + Mapped(x, f)
  {
    hide Mapped;
    Parts(segs, [x]);
  }

  lemma {:induction false} MapCons(x: Segment, segs: seq<Segment>, f: string -> string)
    ensures MapSegments([x] + segs, f) == Mapped(x, f) + MapSegments(segs, f)
    decreases |segs|
  {
    hide MapSegments, Mapped;
    MapEmpty(f);
    if segs == [] {
      MapSnoc([], x, f);
      Empty([x]);
      Empty(Mapped(x, f));
    } else {
      var init, z := segs[..|segs| - 1], segs[|segs| - 1];
      InitLast(segs);
      MapCons(x, init, f);
      Assoc([x], init, [z]);
      MapSnoc([x] + init, z, f);
      MapSnoc(init, z, f);
      Assoc(Mapped(x, f), MapSegments(init, f), Mapped(z, f));
    }
  }

  lemma {:induction false} MapEmpty(f: string -> string)
    ensures MapSegments([], f) == ""
  {
  }

  method MapCode(sql: string, f: string -> string) returns (b: string)
    ensures b == MapSegments(Segments(sql), f)
  {
    hide Segments, Text, FlatLabels, Labels, MapSegments;
    var segs := ScanSegments(sql);
    MapEmpty(f);
    b := "";
    for k := 0 to |segs|
      invariant b == MapSegments(segs[..k], f)
    {
      Snoc(segs, 0, k);
      MapSnoc(segs[..k], segs[k], f);
      b := b + if segs[k].code then f(segs[k].text) else segs[k].text;
    }
    assert segs[..|segs|] == segs;
  }
}
