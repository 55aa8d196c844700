/** Facts about slices of sequences that the solver is slow to find by itself. */
module Slices {
  lemma SliceLeft<T>(a: seq<T>, b: seq<T>, from: nat, to: nat)
    requires from <= to <= |a|
    ensures (a + b)[from..to] == a[from..to]
  {
  }

  lemma SliceRight<T>(a: seq<T>, b: seq<T>)
    ensures (a + b)[|a|..|a| + |b|] == b
  {
  }

  lemma SliceOfSlice<T>(s: seq<T>, k: nat, from: nat, to: nat)
    requires from <= to <= k <= |s|
    ensures s[..k][from..to] == s[from..to]
  {
  }

  /** A window of the data that holds s holds every slice of s. */
  lemma SliceWithin<T>(data: seq<T>, at: nat, s: seq<T>, from: nat, to: nat)
    requires at + |s| <= |data| && data[at..at + |s|] == s && from <= to <= |s|
    ensures data[at + from..at + to] == s[from..to]
  {
    forall i | from <= i < to
      ensures data[at + i] == s[i]
    {
      assert data[at..at + |s|][i] == s[i];
    }
  }

  lemma WindowAfter<T>(before: seq<T>, s: seq<T>, after: seq<T>)
    ensures (before + s + after)[|before|..|before| + |s|] == s
  {
  }

  lemma InConcat<T>(x: T, a: seq<T>, b: seq<T>)
    ensures x in a + b <==> x in a || x in b
  {
  }

  lemma AfterHead<T>(a: seq<T>, rest: seq<T>, i: nat)
    requires i < |rest|
    ensures (a + rest)[|a| + i] == rest[i] && (a + rest)[|a| + i + 1..] == rest[i + 1..]
  {
  }
}
