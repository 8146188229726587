/**
 The grammar both lexers share (shared/db/rewrite.go `dollarQuoteTag`, `isTagRune`; segments.go), in
 plain characters: what opens a literal or comment, and where a dollar-quoted one ends.
 */
module SqlLiterals {
  import opened Seqs
  import opened SqlScan

  /** `$name$` of at most 64 runes, the name made of ASCII letters, digits and underscores. */
  predicate OpensWith(s: string, n: nat) {
    && 2 <= n <= |s| && n <= 64 && s[0] == '$' && s[n - 1] == '$'
    && forall k :: 1 <= k < n - 1 ==>
         'a' <= s[k] <= 'z' || 'A' <= s[k] <= 'Z' || '0' <= s[k] <= '9' || s[k] == '_'
  }

  lemma {:induction false} TagScanFinds(s: string, k: nat)
    requires 1 <= k <= |s| && s[0] == '$'
    requires forall j :: 1 <= j < k ==> IsTagRune(s[j])
    ensures TagScan(s, k) > 0 ==> OpensWith(s, TagScan(s, k))
    ensures forall n: nat :: OpensWith(s, n) ==> TagScan(s, k) == n
    decreases |s| - k
  {
    if k < |s| && k < 64 && s[k] != '$' && IsTagRune(s[k]) {
      TagScanFinds(s, k + 1);
    }
    forall n: nat | OpensWith(s, n) ensures TagScan(s, k) == n {
      assert n - 1 < k ==> IsTagRune(s[n - 1]) || n == 1;
      assert k < n - 1 ==> IsTagRune(s[k]);
    }
  }

  /** What `dollarQuoteTag` reads off the front: the one opening there is, or nothing. */
  lemma {:induction false} TagIsTheOpening(s: string)
    ensures TagLen(s) > 0 ==> OpensWith(s, TagLen(s))
    ensures forall n: nat :: OpensWith(s, n) ==> TagLen(s) == n
  {
    if s != "" && s[0] == '$' { TagScanFinds(s, 1); }
  }

  // A literal or comment opens with a quote, two dashes, a slash and a star, or a dollar tag, and with
  // nothing else.
  lemma {:induction false} WhatOpens(s: string)
    ensures LitLen(s) > 0 <==>
      s != "" && (s[0] == '\'' || s[0] == '"' || (|s| > 1 && s[..2] == "--") || (|s| > 1 && s[..2] == "/*") || exists n: nat :: OpensWith(s, n))
  {
    TagIsTheOpening(s);
    hide OpensWith, TagScan, DollarRest, SingleRest, BlockRest, RestTo;
    if |s| > 1 {
      assert s[..2] == [s[0], s[1]];
      assert s[..2] == "--" <==> s[0] == '-' && s[1] == '-';
      assert s[..2] == "/*" <==> s[0] == '/' && s[1] == '*';
    }
    if exists n: nat :: OpensWith(s, n) {
      var n: nat :| OpensWith(s, n);
      DollarFirst(s, n);
      assert TagLen(s) == n > 0;
      assert LitLen(s) >= TagLen(s);
    }
  }

  lemma {:induction false} DollarFirst(s: string, n: nat)
    requires OpensWith(s, n)
    ensures n >= 2 && s[0] == '$'
  {
  }

  /** The text `tag` ends at position `k`. */
  predicate EndsAt(text: string, tag: string, k: nat) { |tag| <= k <= |text| && text[k - |tag|..k] == tag }

  /** A dollar-quoted body ends where its tag first ends again, or with the text. */
  lemma {:induction false} DollarEnds(tag: string, seen: string, s: string)
    requires |tag| <= |seen|
    ensures var n := DollarRest(tag, seen, s);
      && (n < |s| ==> EndsAt(seen + s, tag, |seen| + n))
      && forall m :: |seen| < m < |seen| + n ==> !EndsAt(seen + s, tag, m)
    decreases |s|
  {
    if s != "" {
      var next := seen + [s[0]];
      assert seen + s == next + s[1..];
      assert HasSuffix(next, tag) <==> EndsAt(seen + s, tag, |seen| + 1) by {
        assert (seen + s)[|seen| + 1 - |tag|..|seen| + 1] == next[|next| - |tag|..];
      }
      if !HasSuffix(next, tag) {
        DollarEnds(tag, next, s[1..]);
      }
    }
  }
}
