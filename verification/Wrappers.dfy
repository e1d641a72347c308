/** Small value types shared by every part of the model. */
module Wrappers {

  datatype Option<+T> = None | Some(value: T)

  /** One byte of a transcript file or of an encoded row. */
  type byte = x: int | 0 <= x < 256

  /** The largest `u64`; counters that saturate stop here. */
  const U64_MAX: nat := 0xFFFF_FFFF_FFFF_FFFF

  function SaturatingAdd(a: nat, b: nat): (r: nat) {
    if a + b > U64_MAX then U64_MAX else a + b
  }

  function Min(a: nat, b: nat): (r: nat) {
    if a < b then a else b
  }

  function Reverse<T>(s: seq<T>): (r: seq<T>)
    ensures |r| == |s|
    ensures forall i :: 0 <= i < |s| ==> r[i] == s[|s| - 1 - i]
  {
    if s == [] then [] else [s[|s| - 1]] + Reverse(s[..|s| - 1])
  }

  lemma {:induction false} ReverseSnoc<T>(s: seq<T>, x: T)
    ensures Reverse(s + [x]) == [x] + Reverse(s)
  {
    assert (s + [x])[..|s|] == s;
  }

  lemma {:induction false} DivideTwice(n: nat, b: nat, p: nat)
    requires b > 0 && p > 0
    ensures b * p > 0 && n / (b * p) == n / b / p
  {
    var m, d := QuotientAndRest(n, b);
    var q, r := QuotientAndRest(m, p);
    ProductIsFar(b, p);
    DivideParts(n, b, p, q, r, d);
  }

  lemma {:induction false} QuotientAndRest(n: nat, m: nat) returns (q: nat, rest: nat)
    requires m > 0
    ensures q == n / m && n == m * q + rest && rest < m
  {
    q, rest := n / m, n % m;
  }

  lemma {:induction false} DivideParts(n: nat, b: nat, p: nat, q: nat, r: nat, d: nat)
    requires n == b * (p * q + r) + d && r < p && d < b && b * p > 0
    ensures n / (b * p) == q
  {
    Regroup(b, q, p, r);
    RestIsSmall(b, r, d, p);
    QuotientIs(n, b * p, q, b * r + d);
  }

  lemma {:induction false} Regroup(b: nat, q: nat, p: nat, r: nat)
    ensures b * (q * p + r) == q * (b * p) + b * r
  {
    assert b * (q * p + r) == b * (q * p) + b * r;
    assert b * (q * p) == b * q * p == q * (b * p);
  }

  lemma {:induction false} RestIsSmall(b: nat, r: nat, d: nat, p: nat)
    requires r < p && d < b
    ensures 0 <= b * r + d < b * p
  {
    assert b * p - b * r == b * (p - r);
    ProductIsFar(p - r, b);
  }

  lemma {:induction false} QuotientIs(n: nat, m: nat, q: nat, rest: nat)
    requires n == q * m + rest && rest < m
    ensures n / m == q
  {
    var p := n / m;
    assert n == p * m + n % m && (q - p) * m == n % m - rest;
    ProductIsFar(q - p, m);
  }

  lemma {:induction false} ProductIsFar(x: int, m: nat)
    ensures (x >= 1 ==> x * m >= m) && (x <= -1 ==> x * m + m <= 0)
  {
  }

  lemma {:induction false} InsertBetween<T>(a: seq<T>, x: T, b: seq<T>)
    ensures a + ([x] + b) == (a + [x]) + b
  {
  }
}
