/** Small facts about sequences, each proved once so that longer proofs stay equational. */
module Seqs {

  lemma {:induction false} Assoc<T>(a: seq<T>, b: seq<T>, c: seq<T>)
    ensures (a + b) + c == a + (b + c)
  {
  }

  lemma {:induction false} Empty<T>(a: seq<T>)
    ensures [] + a == a && a + [] == a
  {
  }

  lemma {:induction false} Head<T>(s: seq<T>)
    requires s != []
    ensures s == [s[0]] + s[1..]
  {
  }

  lemma {:induction false} Cons<T>(x: T, r: seq<T>)
    ensures |[x] + r| == 1 + |r| && ([x] + r)[0] == x && ([x] + r)[1..] == r && [x] + r != []
  {
  }

  lemma {:induction false} Cons2<T>(x: T, y: T, r: seq<T>)
    ensures |[x, y] + r| == 2 + |r| && ([x, y] + r)[0] == x && ([x, y] + r)[1] == y
    ensures ([x, y] + r)[2..] == r && ([x, y] + r)[1..] == [y] + r && [x, y] + r == [x] + ([y] + r)
  {
  }

  lemma {:induction false} ConsSlices<T>(x: T, r: seq<T>, n: nat)
    requires 1 <= n <= |r| + 1
    ensures ([x] + r)[..n] == [x] + r[..n - 1] && ([x] + r)[n..] == r[n - 1..]
  {
  }

  lemma {:induction false} Split<T>(s: seq<T>, n: nat)
    requires n <= |s|
    ensures s[..n] + s[n..] == s
  {
  }

  lemma {:induction false} Parts<T>(a: seq<T>, b: seq<T>)
    ensures (a + b)[..|a|] == a && (a + b)[|a|..] == b
  {
  }

  lemma {:induction false} DropDrop<T>(s: seq<T>, i: nat, j: nat)
    requires i + j <= |s|
    ensures s[i..][j..] == s[i + j..] && s[i..][..j] == s[i..i + j]
  {
  }

  lemma {:induction false} TakeTake<T>(s: seq<T>, i: nat, j: nat)
    requires i <= j <= |s|
    ensures s[..j][..i] == s[..i] && s[..j][i..] == s[i..j]
  {
  }

  /** Appending to a prefix before the cut, or taking the cut inside `a`. */
  lemma {:induction false} Within<T>(a: seq<T>, b: seq<T>, n: nat)
    requires n <= |a|
    ensures (a + b)[..n] == a[..n] && (a + b)[n..] == a[n..] + b
  {
  }

  lemma {:induction false} Snoc<T>(s: seq<T>, open: nat, i: nat)
    requires open <= i < |s|
    ensures s[open..i] + [s[i]] == s[open..i + 1]
    ensures s[i..] == [s[i]] + s[i + 1..]
  {
  }

  lemma {:induction false} InitLast<T>(s: seq<T>)
    requires s != []
    ensures s == s[..|s| - 1] + [s[|s| - 1]]
  {
  }
}
