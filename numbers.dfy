/** Shared vocabulary: optional values, the three outcomes of a JSON-RPC call,
    and decimal rounding as `Number.prototype.toFixed` followed by `parseFloat`
    performs it (on exact reals, not IEEE doubles). */
module Numbers {

  datatype Option<+T> = None | Some(value: T)

  /** What an awaited RPC call yields: it threw, it answered without a
      `result`, or it answered with one. */
  datatype RpcResult<+T> = RpcFailed | RpcNull | RpcOk(value: T)

  function Abs(x: real): (r: real)
    ensures r >= 0.0 && (r == x || r == -x)
  {
    if x < 0.0 then -x else x
  }

  /** `parseFloat(x.toFixed(places))` for the given power of ten
      `scale == 10^places`: the multiple of 1/scale nearest to `x`; a tie goes
      to the larger magnitude, since toFixed rounds the absolute value and
      puts the sign back. */
  function ToFixed(x: real, scale: real): real
    requires scale >= 1.0
  {
    if x < 0.0 then -(((-x) * scale + 0.5).Floor as real / scale)
    else (x * scale + 0.5).Floor as real / scale
  }

  /** `toFixed(4)`, the precision the aggregator keeps SOL amounts in. */
  function Round4(x: real): real
  {
    ToFixed(x, 10000.0)
  }

  /** `toFixed(8)`, the precision the merge keeps SOL amounts in. */
  function Round8(x: real): real
  {
    ToFixed(x, 100000000.0)
  }

  /** `toFixed(2)`, the precision of percentages. */
  function Round2(x: real): real
  {
    ToFixed(x, 100.0)
  }

  /** `x` has at most four decimal places. */
  predicate OnGrid4(x: real)
  {
    (x * 10000.0).Floor as real == x * 10000.0
  }

  /** `x` has at most eight decimal places. */
  predicate OnGrid8(x: real)
  {
    (x * 100000000.0).Floor as real == x * 100000000.0
  }

  /** `Floor` of a value within half a unit above an integer is that integer. */
  lemma FloorNear(y: real, k: int)
    requires k as real <= y < k as real + 1.0
    ensures y.Floor == k
  {
  }

  lemma Round4OnGrid(x: real)
    ensures OnGrid4(Round4(x))
  {
    var k := if x < 0.0 then -(((-x) * 10000.0 + 0.5).Floor) else (x * 10000.0 + 0.5).Floor;
    assert Round4(x) == k as real / 10000.0;
    assert Round4(x) * 10000.0 == k as real;
  }

  /** A value already on the grid is left as it is. */
  lemma Round4Fixes(x: real)
    requires OnGrid4(x)
    ensures Round4(x) == x
  {
    var k := (x * 10000.0).Floor;
    if x < 0.0 {
      FloorNear((-x) * 10000.0 + 0.5, -k);
      assert Round4(x) == -((-k) as real / 10000.0);
    } else {
      FloorNear(x * 10000.0 + 0.5, k);
      assert Round4(x) == k as real / 10000.0;
    }
  }

  /** Adding a non-negative amount to a non-negative four-place value and
      rounding never goes below the starting value. */
  lemma Round4Grows(g: real, a: real)
    requires OnGrid4(g) && g >= 0.0 && a >= 0.0
    ensures Round4(g + a) >= g
  {
    var k := (g * 10000.0).Floor;
    var j := ((g + a) * 10000.0 + 0.5).Floor;
    assert (g + a) * 10000.0 + 0.5 >= k as real;
    assert j >= k;
    assert Round4(g + a) == j as real / 10000.0;
  }

  lemma Round8Fixes(x: real)
    requires OnGrid8(x)
    ensures Round8(x) == x
  {
    var k := (x * 100000000.0).Floor;
    if x < 0.0 {
      FloorNear((-x) * 100000000.0 + 0.5, -k);
      assert Round8(x) == -((-k) as real / 100000000.0);
    } else {
      FloorNear(x * 100000000.0 + 0.5, k);
      assert Round8(x) == k as real / 100000000.0;
    }
  }

  /** Sums of values on a grid stay on it. */
  lemma OnGrid8Add(x: real, y: real)
    requires OnGrid8(x) && OnGrid8(y)
    ensures OnGrid8(x + y)
  {
    var a := (x * 100000000.0).Floor;
    var b := (y * 100000000.0).Floor;
    assert (x + y) * 100000000.0 == (a + b) as real;
  }

  /** Four decimal places are also eight. */
  lemma OnGridWiden(x: real)
    requires OnGrid4(x)
    ensures OnGrid8(x)
  {
    var k := (x * 10000.0).Floor;
    assert k as real == x * 10000.0;
    assert x * 100000000.0 == (k as real) * 10000.0;
    assert (k * 10000) as real == (k as real) * 10000.0;
    FloorNear(x * 100000000.0, k * 10000);
  }

  // ------------------------------------------------------------ digits

  function Pow10(n: nat): (r: nat)
    ensures r >= 1
  {
    if n == 0 then 1 else 10 * Pow10(n - 1)
  }

  predicate IsDigit(c: char)
  {
    '0' <= c <= '9'
  }

  predicate AllDigits(s: string)
  {
    forall i :: 0 <= i < |s| ==> IsDigit(s[i])
  }

  /** The length of the longest run of decimal digits at the start of `s`. */
  function DigitRun(s: string): (n: nat)
    ensures n <= |s| && AllDigits(s[..n])
    ensures n < |s| ==> !IsDigit(s[n])
  {
    if |s| == 0 || !IsDigit(s[0]) then 0 else 1 + DigitRun(s[1..])
  }

  /** The number a string of decimal digits denotes. */
  function DigitsValue(d: string): (v: nat)
    requires AllDigits(d)
    ensures v < Pow10(|d|)
  {
    if |d| == 0 then 0
    else DigitsValue(d[..|d| - 1]) * 10 + (d[|d| - 1] as int - '0' as int)
  }

  /** The digit run of digits followed by a non-digit is exactly those digits. */
  lemma {:induction false} DigitRunOf(d: string, rest: string)
    requires AllDigits(d)
    requires |rest| == 0 || !IsDigit(rest[0])
    ensures DigitRun(d + rest) == |d|
    decreases |d|
  {
    if |d| > 0 {
      assert (d + rest)[1..] == d[1..] + rest;
      DigitRunOf(d[1..], rest);
    }
  }
}
