/** Running a numbered sequence of steps forwards and backwards. */
module Rounds {

  /** Steps 1 to n. */
  function Iterate<T>(f: (nat, T) -> T, a: T, n: nat): T {
    if n == 0 then a else f(n, Iterate(f, a, n - 1))
  }

  /** Steps n down to 1. */
  function Unwind<T>(g: (nat, T) -> T, a: T, n: nat): T
    decreases n
  {
    if n == 0 then a else Unwind(g, g(n, a), n - 1)
  }

  /** Steps that are undone one by one are undone as a whole. */
  lemma {:induction false} UnwindIterate<T(!new)>(f: (nat, T) -> T, g: (nat, T) -> T, a: T, n: nat)
    requires forall k: nat, b | 1 <= k <= n :: g(k, f(k, b)) == b
    ensures Unwind(g, Iterate(f, a, n), n) == a
  {
    if n > 0 {
      assert g(n, f(n, Iterate(f, a, n - 1))) == Iterate(f, a, n - 1);
      UnwindIterate(f, g, a, n - 1);
    }
  }

  /** Steps that commute with an abstraction one by one commute with it as a whole. */
  lemma {:induction false} IterateRefines<T(!new), U>(
    f: (nat, T) -> T, g: (nat, U) -> U, abs: T -> U, a: T, n: nat)
    requires forall k: nat, b | 1 <= k <= n :: abs(f(k, b)) == g(k, abs(b))
    ensures abs(Iterate(f, a, n)) == Iterate(g, abs(a), n)
  {
    if n > 0 {
      assert abs(f(n, Iterate(f, a, n - 1))) == g(n, abs(Iterate(f, a, n - 1)));
      IterateRefines(f, g, abs, a, n - 1);
    }
  }

  method Run<T>(f: (nat, T) -> T, a: T, n: nat) returns (b: T)
    ensures b == Iterate(f, a, n)
  {
    b := a;
    for r := 1 to n + 1
      invariant b == Iterate(f, a, r - 1)
    {
      b := f(r, b);
    }
  }

  method RunBack<T>(g: (nat, T) -> T, a: T, n: nat) returns (b: T)
    ensures b == Unwind(g, a, n)
  {
    b := a;
    var r := n;
    while r > 0
      invariant 0 <= r <= n
      invariant Unwind(g, b, r) == Unwind(g, a, n)
    {
      b := g(r, b);
      r := r - 1;
    }
  }
}
