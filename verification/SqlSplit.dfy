/**
 Statement splitting (`splitStatements` in shared/db/rewrite.go): a second lexer, written as
 a machine of flags over a growing buffer.  The theorems relate it to the segment scanner.
 */
module SqlSplit {
  import opened Seqs
  import opened SqlScan
  import opened Spaces

  /** Which of the five flags is up; `Code` when none is. */
  datatype Mode = Code | Single | Double | Line | Block | Dollar(tag: string)

  function Last(s: string): char
    requires s != ""
  {
    s[|s| - 1]
  }

  /** The raw pieces between cuts: `cur` is the buffer so far, `s` the runes still to read. */
  function Pieces(cur: string, s: string, m: Mode): (ps: seq<string>)
    ensures |ps| > 0
    decreases |s|
  {
    if s == "" then [cur]
    else
      var c, rest := s[0], s[1..];
      var grown := cur + [c];
      match m
      case Line => Pieces(grown, rest, if c == '\n' then Code else Line)
      case Block => Pieces(grown, rest, if c == '/' && cur != "" && Last(cur) == '*' then Code else Block)
      case Dollar(tag) => Pieces(grown, rest, if HasSuffix(grown, tag) then Code else m)
      case Single => Pieces(grown, rest, if c == '\'' then Code else Single)
      case Double => Pieces(grown, rest, if c == '"' then Code else Double)
      case Code =>
        if c == '-' && |s| > 1 && s[1] == '-' then Pieces(grown, rest, Line)
        else if c == '/' && |s| > 1 && s[1] == '*' then Pieces(grown, rest, Block)
        else if c == '\'' then Pieces(grown, rest, Single)
        else if c == '"' then Pieces(grown, rest, Double)
        else if TagLen(s) > 0 then
          Pieces(cur + s[..TagLen(s)], s[TagLen(s)..], Dollar(s[..TagLen(s)]))
        else if c == ';' then [cur] + Pieces("", rest, Code)
        else Pieces(grown, rest, Code)
  }

  lemma {:induction false} PiecesEnd(cur: string, m: Mode)
    ensures Pieces(cur, "", m) == [cur]
  {
  }

  /** Inside a literal or comment, the machine takes one rune at a time. */
  lemma {:induction false} PiecesInside(cur: string, c: char, r: string, m: Mode)
    ensures m.Line? ==> Pieces(cur, [c] + r, m) == Pieces(cur + [c], r, if c == '\n' then Code else m)
    ensures m.Single? ==> Pieces(cur, [c] + r, m) == Pieces(cur + [c], r, if c == '\'' then Code else m)
    ensures m.Double? ==> Pieces(cur, [c] + r, m) == Pieces(cur + [c], r, if c == '"' then Code else m)
    ensures m.Block? ==>
      Pieces(cur, [c] + r, m) == Pieces(cur + [c], r, if c == '/' && cur != "" && Last(cur) == '*' then Code else m)
    ensures m.Dollar? ==> Pieces(cur, [c] + r, m) == Pieces(cur + [c], r, if HasSuffix(cur + [c], m.tag) then Code else m)
  {
    hide TagLen, HasSuffix;
    Cons(c, r);
  }

  predicate Opens(c: char, d: char, r: string) {
    c == d && r != "" && r[0] == (if d == '-' then '-' else '*')
  }

  /** In code, a rune opens a literal, cuts, or is just kept. */
  lemma {:induction false} PiecesCode(cur: string, c: char, r: string)
    ensures var s := [c] + r;
      Pieces(cur, s, Code) ==
        if Opens(c, '-', r) then Pieces(cur + [c], r, Line)
        else if Opens(c, '/', r) then Pieces(cur + [c], r, Block)
        else if c == '\'' then Pieces(cur + [c], r, Single)
        else if c == '"' then Pieces(cur + [c], r, Double)
        else if TagLen(s) > 0 then Pieces(cur + s[..TagLen(s)], s[TagLen(s)..], Dollar(s[..TagLen(s)]))
        else if c == ';' then [cur] + Pieces("", r, Code)
        else Pieces(cur + [c], r, Code)
  {
    hide TagLen;
    Cons(c, r);
    if r != "" {
      Head(r);
      Cons2(c, r[0], r[1..]);
    }
  }

  /** The same cut, read off a labelling: at every `;` that is code. */
  function PiecesByLabel(cur: string, s: string, l: seq<bool>): (ps: seq<string>)
    requires |l| == |s|
    ensures |ps| > 0
    decreases |s|
  {
    if s == "" then [cur]
    else if l[0] && s[0] == ';' then [cur] + PiecesByLabel("", s[1..], l[1..])
    else PiecesByLabel(cur + [s[0]], s[1..], l[1..])
  }

  // ---------------------------------------------------- trimming and keeping

  function TrimLeft(s: string): string {
    if s != "" && IsSpace(s[0]) then TrimLeft(s[1..]) else s
  }

  function TrimRight(s: string): string {
    if s != "" && IsSpace(Last(s)) then TrimRight(s[..|s| - 1]) else s
  }

  function Trim(s: string): string { TrimRight(TrimLeft(s)) }

  function Keep(piece: string): seq<string> {
    if Trim(piece) == "" then [] else [Trim(piece)]
  }

  function Kept(ps: seq<string>): seq<string> {
    if ps == [] then [] else Keep(ps[0]) + Kept(ps[1..])
  }

  function Statements(script: string): seq<string> { Kept(Pieces("", script, Code)) }

  // ------------------------------------------------------ the machine itself

  predicate Flags(m: Mode, inSingle: bool, inDouble: bool, inDollar: bool, inLine: bool, inBlock: bool, tag: string) {
    && inSingle == m.Single? && inDouble == m.Double? && inLine == m.Line? && inBlock == m.Block?
    && inDollar == m.Dollar? && (inDollar ==> m.tag == tag)
  }

  lemma {:induction false} KeptCons(p: string, ps: seq<string>, out: seq<string>)
    ensures out + Kept([p] + ps) == (out + Keep(p)) + Kept(ps)
  {
    hide Keep;
    Cons(p, ps);
    Assoc(out, Keep(p), Kept(ps));
  }

  /** `splitStatements`. */
  method SplitStatements(script: string) returns (out: seq<string>)
    ensures out == Statements(script)
  {
    hide Pieces, Kept, Keep, TagLen, HasSuffix;
    out := [];
    var cur := "";
    var inSingle, inDouble, inDollar, inLine, inBlock := false, false, false, false, false;
    var dollarTag := "";
    var i := 0;
    ghost var m := Code;
    Empty(Kept(Pieces("", script, Code)));
    assert script[0..] == script;
    while i < |script|
      invariant i <= |script|
      invariant Flags(m, inSingle, inDouble, inDollar, inLine, inBlock, dollarTag)
      invariant m.Block? ==> i > 0 && cur != "" && Last(cur) == script[i - 1]
      invariant out + Kept(Pieces(cur, script[i..], m)) == Kept(Pieces("", script, Code))
      decreases |script| - i
    {
      var c := script[i];
      Snoc(script, i, i);
      PiecesInside(cur, c, script[i + 1..], m);
      PiecesCode(cur, c, script[i + 1..]);
      if inLine {
        cur := cur + [c];
        if c == '\n' { inLine := false; m := Code; }
        i := i + 1;
        continue;
      } else if inBlock {
        if c == '/' && i > 0 && script[i - 1] == '*' { inBlock := false; m := Code; }
        cur := cur + [c];
        i := i + 1;
        continue;
      } else if inDollar {
        cur := cur + [c];
        if HasSuffix(cur, dollarTag) { inDollar := false; m := Code; }
        i := i + 1;
        continue;
      }
      if !inSingle && !inDouble {
        if c == '-' && i + 1 < |script| && script[i + 1] == '-' {
          inLine, m := true, Line;
          cur := cur + [c];
          i := i + 1;
          continue;
        }
        if c == '/' && i + 1 < |script| && script[i + 1] == '*' {
          inBlock, m := true, Block;
          cur := cur + [c];
          i := i + 1;
          continue;
        }
      }
      if c == '\'' && !inDouble {
        inSingle := !inSingle;
        m := if inSingle then Single else Code;
      } else if c == '"' && !inSingle {
        inDouble := !inDouble;
        m := if inDouble then Double else Code;
      } else if c == '$' && !inSingle && !inDouble {
        var tag := DollarQuoteTag(script[i..]);
        if tag != "" {
          inDollar, dollarTag, m := true, tag, Dollar(tag);
          cur := cur + tag;
          DropDrop(script, i, |tag|);
          i := i + |tag|;
          continue;
        }
      } else if c == ';' && !inSingle && !inDouble {
        KeptCons(cur, Pieces("", script[i + 1..], Code), out);
        out := out + Keep(cur);
        cur := "";
        i := i + 1;
        continue;
      }
      cur := cur + [c];
      i := i + 1;
    }
    assert script[i..] == "";
    PiecesEnd(cur, m);
    KeptLast(cur, out);
    out := out + Keep(cur);
  }

  lemma {:induction false} KeptLast(p: string, out: seq<string>)
    ensures out + Kept([p]) == out + Keep(p)
  {
    hide Keep;
    Empty(Keep(p));
  }
}
