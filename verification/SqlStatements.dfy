/**
 What `splitStatements` returns (shared/db/rewrite.go), said without its own parts: the script is the
 statements in their order, with whitespace and cut semicolons between them and around them.
 */
module SqlStatements {
  import opened Seqs
  import opened Spaces
  import opened SqlScan
  import opened SqlSplit
  import opened SqlAgreement

  /** Unicode's White_Space, by number. */
  predicate White(c: char) {
    var n := c as int;
    9 <= n <= 13 || n in {32, 133, 160, 5760, 8232, 8233, 8239, 8287, 12288} || 8192 <= n <= 8202
  }

  lemma {:induction false} SpaceIsWhite(c: char)
    ensures IsSpace(c) <==> White(c)
  {
  }

  /** gap, statement, gap, …, statement, gap */
  function Weave<T>(gaps: seq<seq<T>>, sts: seq<seq<T>>): seq<T>
    requires |gaps| == |sts| + 1
  {
    if sts == [] then gaps[0] else gaps[0] + (sts[0] + Weave(gaps[1..], sts[1..]))
  }

  function LabelsOf(sts: seq<string>): (ls: seq<seq<bool>>)
    ensures |ls| == |sts| && forall k :: 0 <= k < |sts| ==> ls[k] == Labels(sts[k])
  {
    seq(|sts|, k requires 0 <= k < |sts| => Labels(sts[k]))
  }

  /** Only whitespace and semicolons, and each semicolon one that the scanner takes for code. */
  predicate Gap(g: string, l: seq<bool>) {
    |l| == |g| && forall k :: 0 <= k < |g| ==> White(g[k]) || (g[k] == ';' && l[k])
  }

  predicate Statement(st: string) {
    && st != "" && !White(st[0]) && !White(st[|st| - 1])
    && forall k :: 0 <= k < |st| && Labels(st)[k] ==> st[k] != ';'
  }

  /** `gaps` and `labels` show how `ps` weave into `text`. */
  predicate Woven(text: string, l: seq<bool>, sts: seq<string>, gaps: seq<string>, labels: seq<seq<bool>>) {
    && |gaps| == |labels| == |sts| + 1
    && text == Weave(gaps, sts) && l == Weave(labels, LabelsOf(sts))
    && (forall k :: 0 <= k < |gaps| ==> Gap(gaps[k], labels[k]))
    && (forall k :: 0 < k < |sts| ==> ';' in gaps[k])
    && (forall k :: 0 <= k < |sts| ==> Statement(sts[k]))
  }

  lemma {:induction false} TrimLeftEnds(s: string)
    ensures TrimLeft(s) == "" || !IsSpace(TrimLeft(s)[0])
  {
    hide IsSpace;
    if s != "" && IsSpace(s[0]) { TrimLeftEnds(s[1..]); }
  }

  lemma {:induction false} TrimRightEnds(s: string)
    ensures TrimRight(s) == "" || (s != "" && TrimRight(s)[0] == s[0] && !IsSpace(Last(TrimRight(s))))
  {
    hide IsSpace;
    if s != "" && IsSpace(Last(s)) { TrimRightEnds(s[..|s| - 1]); }
  }

  lemma {:induction false} TrimEnds(p: string)
    ensures var t := Trim(p); t == "" || (!White(t[0]) && !White(t[|t| - 1]))
  {
    hide IsSpace, White;
    TrimLeftEnds(p);
    TrimRightEnds(TrimLeft(p));
    hide TrimLeft, TrimRight;
    var t := Trim(p);
    if t != "" {
      SpaceIsWhite(t[0]);
      SpaceIsWhite(t[|t| - 1]);
    }
  }

  lemma {:induction false} SpaceGap(s: string, l: seq<bool>)
    requires AllSpace(s) && |l| == |s|
    ensures Gap(s, l)
  {
    hide IsSpace, White;
    forall k | 0 <= k < |s| ensures White(s[k]) { SpaceIsWhite(s[k]); }
  }

  lemma {:induction false} OnlyGap(p: string, l: seq<bool>)
    requires Gap(p, l)
    ensures Woven(p, l, [], [p], [l])
  {
    hide Gap, Labels;
    assert LabelsOf([]) == [];
  }

  lemma {:induction false} OneStatement(g: string, gl: seq<bool>, t: string, h: string, hl: seq<bool>)
    requires Gap(g, gl) && Gap(h, hl) && Statement(t)
    ensures Woven(g + (t + h), gl + (Labels(t) + hl), [t], [g, h], [gl, hl])
  {
    hide Gap, Labels, Statement;
    var one, alone := [t], [Labels(t)];
    assert LabelsOf(one) == alone && one[1..] == [] && alone[1..] == [];
    assert [g, h][1..] == [h] && [gl, hl][1..] == [hl];
    assert Weave([h], one[1..]) == h && Weave([hl], alone[1..]) == hl;
    assert Weave([g, h], one) == g + (t + h) && Weave([gl, hl], alone) == gl + (Labels(t) + hl);
    assert one[0] == t && |one| == 1;
  }

  /** One piece: whitespace, and in it the statement if there is one. */
  lemma {:induction false} PieceWoven(p: string) returns (gaps: seq<string>, labels: seq<seq<bool>>)
    requires NoCodeSemicolon(p)
    ensures Woven(p, Labels(p), Keep(p), gaps, labels)
  {
    var a, b := TrimLabels(p);
    TrimEnds(p);
    hide Labels, Trim, AllSpace, White, Woven, Gap;
    var t, l := Trim(p), Labels(p);
    if t == "" {
      assert p == p[..a] + p[b..];
      Joined(p[..a], p[b..]);
      SpaceGap(p, l);
      OnlyGap(p, l);
      gaps, labels := [p], [l];
    } else {
      SpaceGap(p[..a], l[..a]);
      SpaceGap(p[b..], l[b..]);
      assert forall k :: 0 <= k < |t| ==> t[k] == p[a + k] && Labels(t)[k] == l[a + k];
      OneStatement(p[..a], l[..a], t, p[b..], l[b..]);
      assert p == p[..a] + (t + p[b..]);
      assert l == l[..a] + (Labels(t) + l[b..]);
      gaps, labels := [p[..a], p[b..]], [l[..a], l[b..]];
    }
  }

  lemma {:induction false} Joined(a: string, b: string)
    requires AllSpace(a) && AllSpace(b)
    ensures AllSpace(a + b)
  {
  }

  /** The gaps of both sides, the two at the cut made one. */
  function Merged<T>(g: seq<seq<T>>, mid: seq<T>, h: seq<seq<T>>): seq<seq<T>>
    requires g != [] && h != []
  {
    g[..|g| - 1] + ([mid] + h[1..])
  }

  lemma {:induction false} WeaveCons<T>(a: seq<T>, t: seq<T>, g: seq<seq<T>>, s: seq<seq<T>>)
    requires |g| == |s| + 1
    ensures Weave([a] + g, [t] + s) == a + (t + Weave(g, s))
  {
    Cons(a, g);
    Cons(t, s);
  }

  lemma {:induction false} MergedCons<T>(a: seq<T>, g: seq<seq<T>>, mid: seq<T>, h: seq<seq<T>>)
    requires g != [] && h != []
    ensures Merged([a] + g, mid, h) == [a] + Merged(g, mid, h)
    ensures Merged([a], mid, h) == [mid] + h[1..]
  {
    var x := [a] + g;
    assert x[..|x| - 1] == [a] + g[..|g| - 1];
    Assoc([a], g[..|g| - 1], [mid] + h[1..]);
  }

  lemma {:induction false} WeaveMid<T>(a: seq<T>, cut: T, h: seq<seq<T>>, r: seq<seq<T>>)
    requires |h| == |r| + 1
    ensures a + ([cut] + Weave(h, r)) == Weave([a + ([cut] + h[0])] + h[1..], r)
  {
    var mid := a + ([cut] + h[0]);
    var all := [mid] + h[1..];
    Cons(mid, h[1..]);
    if r != [] {
      Assoc(a, [cut] + h[0], r[0] + Weave(h[1..], r[1..]));
      Assoc([cut], h[0], r[0] + Weave(h[1..], r[1..]));
    }
  }

  /** Two woven texts with a cut semicolon between them: the gaps on its two sides become one. */
  lemma {:induction false} WeaveOn<T>(g: seq<seq<T>>, s: seq<seq<T>>, cut: T, h: seq<seq<T>>, r: seq<seq<T>>)
    requires |g| == |s| + 1 && |h| == |r| + 1
    ensures var mid := g[|s|] + ([cut] + h[0]);
      Weave(g, s) + ([cut] + Weave(h, r)) == Weave(Merged(g, mid, h), s + r)
    decreases |s|
  {
    var mid := g[|s|] + ([cut] + h[0]);
    if s == [] {
      Empty(r);
      assert g == [g[0]];
      MergedCons(g[0], g, mid, h);
      WeaveMid(g[0], cut, h, r);
    } else {
      var a, t, g', s' := g[0], s[0], g[1..], s[1..];
      Head(g);
      Head(s);
      assert g'[|s'|] == g[|s|];
      hide Weave, Merged;
      WeaveOn(g', s', cut, h, r);
      WeaveCons(a, t, g', s');
      MergedCons(a, g', mid, h);
      Assoc([t], s', r);
      MergedSize(g', mid, h);
      WeaveCons(a, t, Merged(g', mid, h), s' + r);
      var rest, on := Weave(g', s'), [cut] + Weave(h, r);
      Assoc(a, t + rest, on);
      Assoc(t, rest, on);
    }
  }

  lemma {:induction false} MergedSize<T>(g: seq<seq<T>>, mid: seq<T>, h: seq<seq<T>>)
    requires g != [] && h != []
    ensures |Merged(g, mid, h)| == |g| + |h| - 1
  {
  }

  lemma {:induction false} GapJoined(g: string, gl: seq<bool>, h: string, hl: seq<bool>)
    requires Gap(g, gl) && Gap(h, hl)
    ensures Gap(g + (";" + h), gl + ([true] + hl)) && ';' in g + (";" + h)
  {
    hide White;
    var x, l := g + (";" + h), gl + ([true] + hl);
    assert x[|g|] == ';';
    forall k | 0 <= k < |x| ensures White(x[k]) || (x[k] == ';' && l[k]) {
      if k > |g| {
        assert x[k] == h[k - |g| - 1] && l[k] == hl[k - |g| - 1];
      }
    }
  }

  lemma {:induction false} LabelsOfJoined(s: seq<string>, r: seq<string>)
    ensures LabelsOf(s + r) == LabelsOf(s) + LabelsOf(r)
  {
    hide Labels;
  }

  lemma {:induction false} MergedAt<T>(g: seq<seq<T>>, mid: seq<T>, h: seq<seq<T>>, k: nat)
    requires g != [] && h != [] && k < |g| + |h| - 1
    ensures |Merged(g, mid, h)| == |g| + |h| - 1
    ensures Merged(g, mid, h)[k] == if k < |g| - 1 then g[k] else if k == |g| - 1 then mid else h[k - (|g| - 1)]
  {
  }

  lemma {:induction false} GapsOn(g: seq<string>, gl: seq<seq<bool>>, h: seq<string>, hl: seq<seq<bool>>, n: nat, m: nat)
    requires |g| == |gl| == n + 1 && |h| == |hl| == m + 1
    requires (forall k :: 0 <= k <= n ==> Gap(g[k], gl[k])) && forall k :: 0 <= k <= m ==> Gap(h[k], hl[k])
    requires (forall k :: 0 < k < n ==> ';' in g[k]) && forall k :: 0 < k < m ==> ';' in h[k]
    ensures var gaps, labels := Merged(g, g[n] + (";" + h[0]), h), Merged(gl, gl[n] + ([true] + hl[0]), hl);
      && |gaps| == |labels| == n + m + 1
      && (forall k :: 0 <= k < |gaps| ==> Gap(gaps[k], labels[k]))
      && (forall k :: 0 < k < n + m ==> ';' in gaps[k])
  {
    GapJoined(g[n], gl[n], h[0], hl[0]);
    hide Gap, Merged;
    var x, y := g[n] + (";" + h[0]), gl[n] + ([true] + hl[0]);
    MergedAt(g, x, h, n);
    MergedAt(gl, y, hl, n);
    forall k: nat | k < n + m + 1
      ensures Gap(Merged(g, x, h)[k], Merged(gl, y, hl)[k]) && (0 < k < n + m ==> ';' in Merged(g, x, h)[k])
    {
      MergedAt(g, x, h, k);
      MergedAt(gl, y, hl, k);
    }
  }

  lemma {:induction false} WovenOn(p: string, l: seq<bool>, s: seq<string>, g: seq<string>, gl: seq<seq<bool>>,
      q: string, m: seq<bool>, r: seq<string>, h: seq<string>, hl: seq<seq<bool>>)
    returns (gaps: seq<string>, labels: seq<seq<bool>>)
    requires Woven(p, l, s, g, gl) && Woven(q, m, r, h, hl)
    ensures Woven(p + (";" + q), l + ([true] + m), s + r, gaps, labels)
  {
    var n := |s|;
    gaps := Merged(g, g[n] + (";" + h[0]), h);
    labels := Merged(gl, gl[n] + ([true] + hl[0]), hl);
    WeaveOn(g, s, ';', h, r);
    LabelsOfJoined(s, r);
    WeaveOn(gl, LabelsOf(s), true, hl, LabelsOf(r));
    GapsOn(g, gl, h, hl, n, |r|);
    hide Weave, Gap, Statement, Labels, LabelsOf;
  }

  lemma {:induction false} PiecesWoven(ps: seq<string>) returns (gaps: seq<string>, labels: seq<seq<bool>>)
    requires |ps| > 0 && forall p :: p in ps ==> NoCodeSemicolon(p)
    ensures Woven(Join(ps), JoinLabels(ps), Kept(ps), gaps, labels)
    decreases |ps|
  {
    hide Woven, Keep, NoCodeSemicolon, Labels;
    var g, gl := PieceWoven(ps[0]);
    if |ps| == 1 {
      assert Kept(ps[1..]) == [];
      Empty(Keep(ps[0]));
      gaps, labels := g, gl;
    } else {
      var rest := ps[1..];
      assert forall p :: p in rest ==> p in ps;
      var h, hl := PiecesWoven(rest);
      gaps, labels := WovenOn(ps[0], Labels(ps[0]), Keep(ps[0]), g, gl, Join(rest), JoinLabels(rest), Kept(rest), h, hl);
    }
  }

  /** The script is exactly its statements, in order, separated and surrounded by whitespace and cut
      semicolons, at least one between any two.  No statement is empty, starts or ends with whitespace
      or holds a code semicolon, and every label of the script is accounted for. */
  lemma {:induction false} StatementsInOrder(script: string) returns (gaps: seq<string>, labels: seq<seq<bool>>)
    ensures Woven(script, Labels(script), Statements(script), gaps, labels)
  {
    hide Pieces, Kept, Join, JoinLabels, Labels, Woven, NoCodeSemicolon;
    SplitLosesNothing(script);
    StatementsReadAlone(script);
    gaps, labels := PiecesWoven(Pieces("", script, Code));
  }
}
