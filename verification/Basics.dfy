/** Small value types shared by the models. */
module Basics {
  datatype Option<+T> = None | Some(value: T)

  /** One more than the largest value of a C `uint32`. */
  const TWO32: int := 0x1_0000_0000

  /** One more than the largest value of a C `int32`. */
  const TWO31: int := 0x8000_0000

  type Byte = b: int | 0 <= b < 256

  /** `data` put into `s` at position `at`. */
  function Overwrite<T>(s: seq<T>, at: nat, data: seq<T>): (r: seq<T>)
    requires at + |data| <= |s|
    ensures |r| == |s|
  {
    s[..at] + data + s[at + |data|..]
  }

  /** There is one way to divide. */
  lemma DivModUnique(x: nat, m: nat, q: nat, s: nat)
    requires 0 < m && s < m && x == m * q + s
    ensures x / m == q && x % m == s
  {
    var q', s' := x / m, x % m;
    assert x == m * q' + s';
    if q < q' {
      Apart(m, q, q');
    } else if q' < q {
      Apart(m, q', q);
    }
  }

  lemma {:induction false} Apart(m: nat, a: nat, b: nat)
    requires a < b
    ensures m * a + m <= m * b
  {
    assert m * b == m * (b - 1) + m;
    if a < b - 1 {
      Apart(m, a, b - 1);
    }
  }
}
