/** Order and multiplicity facts about invocation traces. */
module Sequences {

  /** No element of `s` occurs twice. */
  predicate NoDup<T(==)>(s: seq<T>) {
    forall i, j :: 0 <= i < j < |s| ==> s[i] != s[j]
  }

  /** Some occurrence of `a` in `s` comes strictly before some occurrence of `b`. */
  predicate Before<T(==)>(s: seq<T>, a: T, b: T) {
    exists i, j :: 0 <= i < j < |s| && s[i] == a && s[j] == b
  }

  /** Two positions in order witness `Before`. */
  lemma BeforeAt<T>(s: seq<T>, i: int, j: int)
    requires 0 <= i < j < |s|
    ensures Before(s, s[i], s[j])
  {
  }

  /** A sequence whose multiset has no element twice has no repeated element. */
  lemma NoDupFromCounts<T>(s: seq<T>)
    requires forall x :: multiset(s)[x] <= 1
    ensures NoDup(s)
  {
    forall i, j | 0 <= i < j < |s|
      ensures s[i] != s[j]
    {
      assert s == s[..i] + [s[i]] + s[i+1..j] + [s[j]] + s[j+1..];
      assert multiset(s) == multiset(s[..i]) + multiset{s[i]} + multiset(s[i+1..j])
                          + multiset{s[j]} + multiset(s[j+1..]);
      assert multiset(s)[s[i]] >= 1 + multiset{s[j]}[s[i]];
    }
  }

  /** In a sequence without repeats, `Before` is a strict order: it never holds both ways. */
  lemma BeforeAsymmetric<T>(s: seq<T>, a: T, b: T)
    requires NoDup(s)
    requires Before(s, a, b)
    ensures !Before(s, b, a)
  {
  }
}
