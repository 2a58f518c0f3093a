/**
  Facts about concatenation and slices that proofs about texts and logs call by name.
 */
module Sequences {

  lemma ConcatAssoc<T>(a: seq<T>, b: seq<T>, c: seq<T>)
    ensures a + b + c == a + (b + c)
  {
  }

  lemma ConcatEmpty<T>(a: seq<T>)
    ensures [] + a == a && a + [] == a
  {
  }

  lemma HeadOfConcat<T>(a: seq<T>, b: seq<T>)
    requires a != []
    ensures a + b == [a[0]] + (a[1..] + b) && (a + b)[1..] == a[1..] + b && (a + b)[0] == a[0]
  {
  }

  lemma SliceOfFront<T>(s: seq<T>, n: nat, i: nat, m: nat)
    requires i + m <= n <= |s|
    ensures s[..n][i..i + m] == s[i..i + m]
  {
  }

  lemma SplitSeq<T>(s: seq<T>, i: nat)
    requires i <= |s|
    ensures s == s[..i] + s[i..]
  {
  }
}
