/** Shared vocabulary: optional values, bytes, message bodies and the reply of a service. */
module Prelude {

  datatype Option<+T> = None | Some(value: T)

  type U8 = x: int | 0 <= x < 0x100
  type U16 = x: int | 0 <= x < 0x1_0000

  /** A message body: the runtime never looks inside it except through the host functions. */
  type Body = seq<U8>

  /** What calling a service gives back. */
  datatype Reply = Ok(body: Body) | Fault(msg: string)

  function Reverse<T>(s: seq<T>): (r: seq<T>)
    ensures |r| == |s|
    ensures forall i :: 0 <= i < |s| ==> r[i] == s[|s| - 1 - i]
  {
    if s == [] then [] else [s[|s| - 1]] + Reverse(s[..|s| - 1])
  }

  ghost predicate Distinct<T>(s: seq<T>) {
    forall i, j :: 0 <= i < j < |s| ==> s[i] != s[j]
  }

  /** Quotient and remainder are unique. */
  lemma DivUnique(x: nat, n: nat, q: nat, r: nat)
    requires n > 0 && x == n * q + r && r < n
    ensures x % n == r && x / n == q
  {
    var q', r' := x / n, x % n;
    MulGap(n, q, q');
    MulGap(n, q', q);
  }

  lemma {:induction false} MulGap(n: nat, a: nat, b: nat)
    ensures a < b ==> n * a + n <= n * b
    decreases b
  {
    if a < b {
      assert n * b == n * (b - 1) + n;
      MulGap(n, a, b - 1);
    }
  }
}
