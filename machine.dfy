/** Machine-level vocabulary shared by the model: Rust's fixed-width unsigned
    integers, their checked (debug build) and wrapping (release build)
    arithmetic, Option/Result, the panics the command can raise, and the
    decimal rendering that Rust's `{:}` formatting gives to an integer. */
module Machine {

  const U32_MODULUS: nat := 0x1_0000_0000
  const U64_MODULUS: nat := 0x1_0000_0000_0000_0000

  /** Rust `u32` */
  type u32 = x: nat | x < U32_MODULUS
  /** Rust `u64` */
  type u64 = x: nat | x < U64_MODULUS

  datatype Option<+T> = None | Some(value: T)

  datatype Result<+T, +E> = Ok(value: T) | Err(error: E)

  /** How `*` and `-=` on `u32` behave on overflow: a debug build panics,
      a release build wraps around modulo 2^32. */
  datatype ArithMode = DebugChecks | ReleaseWrap

  /** The panics the command can raise. */
  datatype Panic =
    | MultiplyOverflow          // `attempt to multiply with overflow` (debug build)
    | SubtractOverflow          // `attempt to subtract with overflow` (debug build)
    | ProbabilitiesDoNotSumToOne
    | UnknownProbas(name: string)

  /** `a * b` on `u32`; `None` is the debug-build overflow panic. */
  function Mul32(mode: ArithMode, a: u32, b: u32): (r: Option<u32>)
    ensures r.None? <==> mode == DebugChecks && a * b >= U32_MODULUS
    ensures r.Some? ==> r.value == (a * b) % U32_MODULUS
  {
    if a * b < U32_MODULUS then Some(a * b)
    else if mode == DebugChecks then None
    else Some((a * b) % U32_MODULUS)
  }

  /** `a - b` on `u32`; `None` is the debug-build underflow panic. A result
      is always the value that gives `a` back when `b` is added modulo 2^32. */
  function Sub32(mode: ArithMode, a: u32, b: u32): (r: Option<u32>)
    ensures r.None? <==> mode == DebugChecks && a < b
    ensures r.Some? ==> (r.value + b) % U32_MODULUS == a
    ensures r.Some? && b <= a ==> r.value == a - b
  {
    if b <= a then Some(a - b)
    else if mode == DebugChecks then None
    else Some(a - b + U32_MODULUS)
  }

  predicate IsDigit(c: char) {
    '0' <= c <= '9'
  }

  predicate AllDigits(s: string) {
    forall i :: 0 <= i < |s| ==> IsDigit(s[i])
  }

  function DigitChar(d: nat): (c: char)
    requires d < 10
    ensures IsDigit(c) && DigitValue(c) == d
  {
    (48 + d) as char
  }

  function DigitValue(c: char): nat
    requires IsDigit(c)
  {
    c as nat - 48
  }

  /** The decimal text of `n` (what `{:}` prints for an unsigned integer):
      only digits, never empty, and no leading zero except for `0` itself. */
  function Decimal(n: nat): (s: string)
    ensures |s| >= 1 && AllDigits(s)
    ensures s[0] == '0' ==> n == 0
    decreases n
  {
    if n < 10 then [DigitChar(n)] else Decimal(n / 10) + [DigitChar(n % 10)]
  }

  /** Reads a string of decimal digits back as a number. */
  function DecimalValue(s: string): nat
    requires AllDigits(s)
  {
    if s == [] then 0 else DecimalValue(s[..|s| - 1]) * 10 + DigitValue(s[|s| - 1])
  }

  lemma {:induction false} DecimalRoundTrip(n: nat)
    ensures DecimalValue(Decimal(n)) == n
    decreases n
  {
    if n >= 10 {
      var s := Decimal(n);
      assert s[..|s| - 1] == Decimal(n / 10);
      DecimalRoundTrip(n / 10);
    }
  }

  /** Distinct numbers have distinct decimal texts. */
  lemma DecimalInjective(m: nat, n: nat)
    requires Decimal(m) == Decimal(n)
    ensures m == n
  {
    DecimalRoundTrip(m);
    DecimalRoundTrip(n);
  }

  /** Digits followed by a non-digit cannot be a proper prefix of a longer
      run of digits. */
  lemma DigitsNotShorter(dx: string, u: string, dy: string, v: string)
    requires AllDigits(dy) && dx + u == dy + v
    requires u == [] || !IsDigit(u[0])
    ensures |dx| >= |dy|
  {
    if |dx| < |dy| {
      DigitAt(dy, v, |dx|);
    }
  }

  lemma DigitAt(dy: string, v: string, k: nat)
    requires AllDigits(dy) && k < |dy|
    ensures IsDigit((dy + v)[k])
  {
  }

  /** A number printed in decimal and followed by text that does not start
      with a digit can be read back: the number and the text that follows are
      both determined. */
  lemma DecimalThenText(x: nat, y: nat, u: string, v: string)
    requires Decimal(x) + u == Decimal(y) + v
    requires u == [] || !IsDigit(u[0])
    requires v == [] || !IsDigit(v[0])
    ensures x == y && u == v
  {
    var dx, dy := Decimal(x), Decimal(y);
    var t := dx + u;
    DigitsNotShorter(dx, u, dy, v);
    DigitsNotShorter(dy, v, dx, u);
    assert dx == t[..|dx|] == dy;
    DecimalInjective(x, y);
    assert u == t[|dx|..] == v;
  }
}
