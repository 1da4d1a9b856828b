/** The constant-time string comparison used for task tokens and webhook signatures: equal
    lengths, then every position's codes XOR-ed and OR-ed into one accumulator. */
module ConstantTime {
  import opened Crypto

  /** Bitwise or of two naturals, one bit at a time from the least significant. */
  function BitOr(a: nat, b: nat): (r: nat)
    ensures r == 0 <==> a == 0 && b == 0
    decreases a
  {
    if a == 0 then b
    else if b == 0 then a
    else 2 * BitOr(a / 2, b / 2) + (if a % 2 == 1 || b % 2 == 1 then 1 else 0)
  }

  /** The accumulator after the first `n` positions: `result |= a[i] ^ b[i]`. */
  function Mismatch(a: string, b: string, n: nat): nat
    requires n <= |a| && n <= |b|
  {
    if n == 0 then 0 else BitOr(Mismatch(a, b, n - 1), BitXor(a[n - 1] as int, b[n - 1] as int))
  }

  lemma {:induction false} MismatchZero(a: string, b: string, n: nat)
    requires n <= |a| && n <= |b|
    ensures Mismatch(a, b, n) == 0 <==> a[..n] == b[..n]
  {
    if n > 0 {
      MismatchZero(a, b, n - 1);
      var x := a[n - 1] as int;
      var y := b[n - 1] as int;
      if BitXor(x, y) == 0 {
        BitXorZero(x, y);
      } else if x == y {
        BitXorSelf(x);
      }
      assert a[..n] == a[..n - 1] + [a[n - 1]];
      assert b[..n] == b[..n - 1] + [b[n - 1]];
    }
  }

  /** `timingSafeEqual(a, b)`: false on different lengths, otherwise whether no position differs. */
  function TimingSafeEqual(a: string, b: string): (r: bool)
    ensures r <==> a == b
  {
    if |a| != |b| then false
    else
      MismatchZero(a, b, |a|);
      Mismatch(a, b, |a|) == 0
  }

  /** The loop of the source, position by position; it computes the same verdict. */
  method TimingSafeEqualLoop(a: string, b: string) returns (r: bool)
    ensures r <==> a == b
  {
    if |a| != |b| {
      return false;
    }
    var result: nat := 0;
    var i := 0;
    while i < |a|
      invariant 0 <= i <= |a|
      invariant result == 0 <==> a[..i] == b[..i]
    {
      var d := BitXor(a[i] as int, b[i] as int);
      if d == 0 {
        BitXorZero(a[i] as int, b[i] as int);
      } else if a[i] == b[i] {
        BitXorSelf(a[i] as int);
      }
      assert a[..i + 1] == a[..i] + [a[i]];
      assert b[..i + 1] == b[..i] + [b[i]];
      result := BitOr(result, d);
      i := i + 1;
    }
    assert a[..i] == a && b[..i] == b;
    return result == 0;
  }
}
