/** Result types and a few facts about finite sets and sequences shared by the whole project. */
module Wrappers {
  datatype Option<+T> = None | Some(value: T)

  datatype Result<+T, +E> = Ok(value: T) | Err(error: E)

  /** A run of a transition system: the states it goes through, and the actions between them. */
  datatype Run<+S, +A> = Run(states: seq<S>, actions: seq<A>)

  const U32_LIMIT: nat := 0x1_0000_0000

  /** Unsigned 32-bit integers; as in a release build, arithmetic on them wraps around. */
  type u32 = n: nat | n < 0x1_0000_0000

  /** No two elements share their identifier. */
  ghost predicate Distinct<T>(s: seq<T>, id: T -> string) {
    forall i, j :: 0 <= i < j < |s| ==> id(s[i]) != id(s[j])
  }

  /** A subset is no larger, and it is the whole set as soon as it is as large. */
  lemma {:induction false} SubsetSize<T>(a: set<T>, b: set<T>)
    requires a <= b
    ensures |a| <= |b|
    ensures |a| == |b| ==> a == b
    decreases b
  {
    if b != {} {
      var x :| x in b;
      SubsetSize(a - {x}, b - {x});
      if x in a {
        assert a == (a - {x}) + {x} && b == (b - {x}) + {x};
      } else {
        assert a - {x} == a;
      }
    }
  }

  lemma Associative<T>(a: seq<T>, b: seq<T>, c: seq<T>)
    ensures a + b + c == a + (b + c)
  {
  }

  function Min(a: int, b: int): int {
    if a <= b then a else b
  }

  function Max(a: int, b: int): int {
    if a <= b then b else a
  }

  /** Multiplication by repeated addition, which keeps the reasoning about bounds linear. */
  function Times(n: nat, k: nat): nat {
    if n == 0 then 0 else Times(n - 1, k) + k
  }

  lemma {:induction false} TimesIsProduct(n: nat, k: nat)
    ensures Times(n, k) == n * k
  {
    if n > 0 {
      TimesIsProduct(n - 1, k);
      assert n * k == (n - 1) * k + k;
    }
  }

  /** One more summand makes room for k more. */
  lemma {:induction false} TimesGrows(n: nat, n': nat, k: nat)
    requires n < n'
    ensures Times(n, k) + k <= Times(n', k)
  {
    if n < n' - 1 {
      TimesGrows(n, n' - 1, k);
    }
  }
}
