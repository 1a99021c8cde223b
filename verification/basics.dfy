/** Options, minima, sequences of sequences and division rounded up, shared by the other modules. */
module Basics {
  datatype Option<+T> = None | Some(value: T)

  function Min(a: int, b: int): int { if a <= b then a else b }

  function Max(a: int, b: int): int { if a >= b then a else b }

  /** The number of elements of a tensor of this shape. */
  function Numel(shape: seq<nat>): nat {
    if shape == [] then 1 else shape[0] * Numel(shape[1..])
  }

  /** `a / b` rounded up. */
  function CeilDiv(a: int, b: int): int
    requires b > 0
  {
    (a + b - 1) / b
  }

  lemma CeilBounds(a: int, b: int)
    requires b > 0
    ensures (CeilDiv(a, b) - 1) * b < a <= CeilDiv(a, b) * b
  {
    var c := CeilDiv(a, b);
    assert (c - 1) * b == c * b - b;
  }

  lemma Scale(a: int, b: int, k: nat)
    requires a <= b
    ensures a * k <= b * k
  {
  }

  predicate MultipleOf(x: nat, divisor: nat) { divisor > 0 && x % divisor == 0 }

  lemma Multiple(n: nat, unit: nat)
    requires unit > 0
    ensures (n * unit) % unit == 0 && (n * unit) / unit == n
  {
    var q, r := (n * unit) / unit, (n * unit) % unit;
    assert n * unit == q * unit + r;
    if q <= n - 1 { Scale(q, n - 1, unit); }
    if n <= q - 1 { Scale(n, q - 1, unit); }
  }

  lemma MultiplesAdd(a: nat, b: nat, k: nat)
    requires MultipleOf(a, k) && MultipleOf(b, k)
    ensures MultipleOf(a + b, k) && (a >= b ==> MultipleOf(a - b, k))
  {
    var p, q := a / k, b / k;
    assert a == p * k && b == q * k;
    assert a + b == (p + q) * k;
    Multiple(p + q, k);
    if a >= b {
      assert a - b == (p - q) * k;
      if p < q { Scale(p + 1, q, k); }
      Multiple(p - q, k);
    }
  }

  function Flatten<T>(groups: seq<seq<T>>): seq<T> {
    if groups == [] then [] else groups[0] + Flatten(groups[1..])
  }

  lemma {:induction false} FlattenSnoc<T>(a: seq<seq<T>>, b: seq<T>)
    ensures Flatten(a + [b]) == Flatten(a) + b
  {
    if a == [] {
      assert a + [b] == [b];
      assert Flatten([b]) == b + Flatten([]);
    } else {
      assert (a + [b])[1..] == a[1..] + [b];
      FlattenSnoc(a[1..], b);
    }
  }

  lemma {:induction false} FlattenTake<T>(a: seq<seq<T>>, k: nat, j: nat)
    requires k < |a| && j <= |a[k]|
    ensures Flatten(a[..k]) + a[k][..j] <= Flatten(a)
    ensures k + 1 == |a| && j == |a[k]| ==> Flatten(a[..k]) + a[k][..j] == Flatten(a)
  {
    if k == 0 {
      assert a[..0] == [];
      assert Flatten(a) == a[0] + Flatten(a[1..]);
      assert a[0][..j] <= a[0] <= a[0] + Flatten(a[1..]);
    } else {
      FlattenTake(a[1..], k - 1, j);
      assert a[1..][..k - 1] == a[..k][1..];
      assert Flatten(a[..k]) + a[k][..j] == a[0] + (Flatten(a[1..][..k - 1]) + a[1..][k - 1][..j]);
    }
  }
}
