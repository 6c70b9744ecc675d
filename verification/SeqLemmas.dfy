/** Facts about sequences that proofs elsewhere need by name. */
module SeqLemmas {

  lemma ConcatAssoc<T>(a: seq<T>, b: seq<T>, c: seq<T>)
    ensures a + b + c == a + (b + c)
  {
  }

  lemma CutAt<T>(s: seq<T>, i: nat)
    requires i < |s|
    ensures s == s[..i] + [s[i]] + s[i + 1..]
  {
  }

  lemma TakeDrop<T>(s: seq<T>, n: nat)
    requires n <= |s|
    ensures s[..n] + s[n..] == s
  {
  }

  lemma DropDrop<T>(s: seq<T>, a: nat, b: nat)
    requires a + b <= |s|
    ensures s[a..][b..] == s[a + b..]
  {
  }

  lemma DropConcat<T>(s: seq<T>, t: seq<T>, n: nat)
    requires n <= |s|
    ensures (s + t)[n..] == s[n..] + t
  {
  }

  /** Equal concatenations of parts no longer than their counterparts have equal parts. */
  lemma SplitsEvenly<T>(a: seq<T>, b: seq<T>, p: seq<T>, q: seq<T>)
    requires |a| <= |p| && |b| <= |q|
    ensures a + b == p + q <==> a == p && b == q
  {
    if a + b == p + q {
      assert |a| == |p|;
      assert a == (a + b)[..|a|] && b == (a + b)[|a|..];
      assert p == (p + q)[..|p|] && q == (p + q)[|p|..];
    }
  }
}
