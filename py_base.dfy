/**
 * Python and numpy behaviour that the minimizer and the ensemble rely on:
 * exceptions as values, `list.index`, `int()` on a float, powers of two,
 * `numpy.linspace` and slice-index normalisation.
 */
module PyBase {

  datatype Option<+T> = None | Some(value: T)

  /** A keyword-argument value as the modelled code can receive it. */
  datatype Value = Int(i: int) | Float(f: real) | Text(s: string)

  /** A point of the plane, such as a pair of parameter coordinates. */
  type Vec2 = (real, real)

  /** One variant per place where the modelled code raises. The doc comment
      of each names the Python exception class that is raised. */
  datatype PyError =
      /** AssertionError from an `assert` statement */
    | AssertionFailed
      /** ValueError from `list.index` when the name is not in the list */
    | NotInList(name: string)
      /** NotImplementedError from `fix` and `release` */
    | NotImplemented
      /** TypeError: item assignment on `None` (unlimit before any limit) */
    | NoneNotSubscriptable
      /** TypeError: calling the minimizer class with a single argument */
    | ConstructorArity
      /** TypeError: a non-numeric value where a number is needed */
    | NotANumber(key: string)
      /** ValueError from `int`: a string that is not an integer literal */
    | InvalidLiteral(key: string)
      /** ValueError from numpy: a negative number of samples */
    | NegativeSampleCount(num: int)
      /** ValueError from numpy: the minimum of an empty array */
    | EmptyArrayMinimum
      /** ValueError from numpy: an array of negative size */
    | NegativeDimensions
      /** IndexError: `[-1]` on an empty list */
    | EmptyListIndex
      /** ZeroDivisionError */
    | DivisionByZero
      /** UnboundLocalError: a local variable read before assignment */
    | UnboundLocal(variable: string)
      /** numpy.linalg.LinAlgError: the Hessian cannot be inverted */
    | SingularMatrix
      /** an exception raised inside scipy.optimize.brentq */
    | RootNotFound
      /** MinimizerScipyOptimizeException: no fit has been performed yet */
    | NoFitPerformed
      /** MinimizerScipyOptimizeException: unknown contour algorithm */
    | UnknownAlgorithm(algorithm: Value)
      /** MinimizerScipyOptimizeException: keywords left over after parsing */
    | UnknownParameters(algorithmName: string, keys: set<string>)
      /** MinimizerScipyOptimizeException: a grid-tracer argument is out of range */
    | InvalidGridArgument(message: string)
      /** ValueError: result names that are not available */
    | UnavailableResults(names: set<string>)
      /** FitEnsembleException: a result variable that was not collected */
    | ResultNotCollected(name: string)
      /** FitEnsembleException: an unknown statistic */
    | UnknownStatistic(name: string)

  datatype Result<+T> = Ok(value: T) | Err(error: PyError) {
    predicate IsFailure() { Err? }
    function PropagateFailure<U>(): Result<U> requires Err? { Err(error) }
    function Extract(): T requires Ok? { value }
  }

  /** `names.index(name)`: the position of the first occurrence, or a ValueError. */
  function IndexOf(names: seq<string>, name: string): (r: Result<nat>)
    ensures r.Ok? <==> name in names
    ensures r.Ok? ==> r.value < |names| && names[r.value] == name && name !in names[..r.value]
    ensures r.Err? ==> r.error == NotInList(name)
  {
    if |names| == 0 then Err(NotInList(name))
    else if names[0] == name then Ok(0)
    else
      match IndexOf(names[1..], name)
      case Ok(i) =>
        assert names[1..][..i] == names[1..i + 1];
        Ok(i + 1)
      case Err(e) => Err(e)
  }

  /** Python's `int(x)` on a float: truncation toward zero. */
  function Trunc(x: real): (t: int)
    ensures x >= 0.0 ==> 0 <= t && t as real <= x < t as real + 1.0
    ensures x < 0.0 ==> t <= 0 && t as real - 1.0 < x <= t as real
  {
    if x >= 0.0 then x.Floor else -((-x).Floor)
  }

  // ---------------------------------------------------------------------------
  // int() on a string

  /** The characters Python 2's `int` skips around a literal (C's `isspace`). */
  predicate IsSpace(c: char) {
    c == ' ' || c == '\t' || c == '\n' || c == '\r' || c == '\U{000B}' || c == '\U{000C}'
  }

  predicate IsDigit(c: char) {
    '0' <= c <= '9'
  }

  predicate AllDigits(d: string) {
    forall i :: 0 <= i < |d| ==> IsDigit(d[i])
  }

  predicate AllSpace(w: string) {
    forall i :: 0 <= i < |w| ==> IsSpace(w[i])
  }

  /** `s` without its leading white space. */
  function StripLeft(s: string): string {
    if s != [] && IsSpace(s[0]) then StripLeft(s[1..]) else s
  }

  /** `s` without its trailing white space. */
  function StripRight(s: string): string {
    if s != [] && IsSpace(s[|s| - 1]) then StripRight(s[..|s| - 1]) else s
  }

  /** `StripLeft` drops the longest all-space prefix. */
  lemma {:induction false} StripLeftShape(s: string)
    ensures var t := StripLeft(s);
      && |t| <= |s| && t == s[|s| - |t|..]
      && (t == [] || !IsSpace(t[0]))
      && AllSpace(s[..|s| - |t|])
  {
    if s != [] && IsSpace(s[0]) {
      StripLeftShape(s[1..]);
      var t := StripLeft(s);
      assert s[1..][|s| - 1 - |t|..] == s[|s| - |t|..];
      assert forall k :: 1 <= k < |s| - |t| ==> s[k] == s[1..][..|s| - 1 - |t|][k - 1];
    }
  }

  /** `StripRight` drops the longest all-space suffix. */
  lemma {:induction false} StripRightShape(s: string)
    ensures var t := StripRight(s);
      && |t| <= |s| && t == s[..|t|]
      && (t == [] || !IsSpace(t[|t| - 1]))
      && AllSpace(s[|t|..])
  {
    if s != [] && IsSpace(s[|s| - 1]) {
      StripRightShape(s[..|s| - 1]);
      var t := StripRight(s);
      assert s[..|s| - 1][..|t|] == s[..|t|];
      assert forall k :: |t| <= k < |s| - 1 ==> s[k] == s[..|s| - 1][|t|..][k - |t|];
    }
  }

  function Strip(s: string): string {
    StripRight(StripLeft(s))
  }

  /** The digits of a literal after its optional sign; white space may
      follow the sign, as C's `strtoul` skips it after `strtol` has read the
      sign. */
  function Unsigned(t: string): string {
    if |t| > 0 && (t[0] == '+' || t[0] == '-') then StripLeft(t[1..]) else t
  }

  /** An optional sign, then white space, then at least one decimal digit. */
  predicate IsIntLiteral(t: string) {
    |Unsigned(t)| >= 1 && AllDigits(Unsigned(t))
  }

  /** The number a string of decimal digits spells, leading zeros allowed. */
  function DigitsValue(d: string): (n: nat)
    requires AllDigits(d)
  {
    if d == [] then 0 else DigitsValue(d[..|d| - 1]) * 10 + (d[|d| - 1] as int - '0' as int)
  }

  /** Python 2's `int(s)` on a string: white space around an optionally
      signed decimal literal, and between its sign and its digits, is
      skipped; anything else raises ValueError. */
  function ParseInt(key: string, s: string): (r: Result<int>)
    ensures r.Ok? <==> IsIntLiteral(Strip(s))
    ensures r.Err? ==> r.error == InvalidLiteral(key)
    ensures r.Ok? && Strip(s)[0] == '-' ==> r.value == -(DigitsValue(Unsigned(Strip(s))) as int)
    ensures r.Ok? && Strip(s)[0] != '-' ==> r.value == DigitsValue(Unsigned(Strip(s)))
  {
    var t := Strip(s);
    if !IsIntLiteral(t) then Err(InvalidLiteral(key))
    else if t[0] == '-' then Ok(-(DigitsValue(Unsigned(t)) as int))
    else Ok(DigitsValue(Unsigned(t)))
  }

  function DigitChar(k: nat): (c: char)
    requires k < 10
    ensures IsDigit(c) && c as int - '0' as int == k
  {
    ('0' as int + k) as char
  }

  /** Python's `str(n)` for a natural number: its decimal digits, no leading zero. */
  function Digits(n: nat): (d: string)
    ensures |d| >= 1 && AllDigits(d)
    ensures n > 0 ==> d[0] != '0'
  {
    if n < 10 then [DigitChar(n)] else Digits(n / 10) + [DigitChar(n % 10)]
  }

  /** Python's `str(i)` for an integer. */
  function Decimal(i: int): string {
    if i < 0 then "-" + Digits(-i) else Digits(i)
  }

  lemma {:induction false} DigitsValueOf(n: nat)
    ensures DigitsValue(Digits(n)) == n
  {
    var d := Digits(n);
    if n >= 10 {
      DigitsValueOf(n / 10);
      assert d[..|d| - 1] == Digits(n / 10);
    }
  }

  /** White space around a literal is skipped. */
  lemma {:induction false} StripAround(w1: string, t: string, w2: string)
    requires AllSpace(w1) && AllSpace(w2) && |t| >= 1 && !IsSpace(t[0]) && !IsSpace(t[|t| - 1])
    ensures Strip(w1 + t + w2) == t
  {
    StripLeftSpace(w1, t + w2);
    assert w1 + t + w2 == w1 + (t + w2);
    StripRightSpace(t, w2);
  }

  lemma {:induction false} StripLeftSpace(w: string, t: string)
    requires AllSpace(w) && |t| >= 1 && !IsSpace(t[0])
    ensures StripLeft(w + t) == t
  {
    if w != [] {
      assert (w + t)[1..] == w[1..] + t;
      StripLeftSpace(w[1..], t);
    }
  }

  lemma {:induction false} StripRightSpace(t: string, w: string)
    requires AllSpace(w) && |t| >= 1 && !IsSpace(t[|t| - 1])
    ensures StripRight(t + w) == t
  {
    if w != [] {
      assert (t + w)[..|t + w| - 1] == t + w[..|w| - 1];
      StripRightSpace(t, w[..|w| - 1]);
    }
  }

  /** `str(i)` is the digits of `|i|`, after a minus sign for a negative `i`. */
  lemma DecimalShape(i: int)
    ensures var t := Decimal(i);
      && |t| >= 1 && !IsSpace(t[0]) && !IsSpace(t[|t| - 1])
      && (t[0] == '-' <==> i < 0)
      && Unsigned(t) == Digits(if i < 0 then -i else i)
  {
    var d := Digits(if i < 0 then -i else i);
    assert IsDigit(d[0]) && IsDigit(d[|d| - 1]);
    if i < 0 {
      var t := "-" + d;
      assert t[1..] == d;
      StripLeftNone(d);
      assert Unsigned(t) == d;
    } else {
      assert Unsigned(d) == d;
    }
  }

  lemma StripLeftNone(s: string)
    requires |s| >= 1 && !IsSpace(s[0])
    ensures StripLeft(s) == s
  {
  }

  lemma StripRightNone(s: string)
    requires |s| >= 1 && !IsSpace(s[|s| - 1])
    ensures StripRight(s) == s
  {
  }

  /** `int(str(i))` is `i`, with any white space around the digits. */
  lemma ParseDecimal(key: string, i: int, w1: string, w2: string)
    requires AllSpace(w1) && AllSpace(w2)
    ensures ParseInt(key, w1 + Decimal(i) + w2) == Ok(i)
  {
    var t := Decimal(i);
    var n: nat := if i < 0 then -i else i;
    DecimalShape(i);
    DigitsValueOf(n);
    StripAround(w1, t, w2);
    assert Strip(w1 + t + w2) == t;
    assert Unsigned(t) == Digits(n) && AllDigits(Digits(n));
    assert IsIntLiteral(t);
    assert DigitsValue(Unsigned(t)) == n;
  }

  /** White space between the sign and the digits changes nothing:
      `int("- 3") == int("-3")` and `int("+ 3") == int("+3")`. */
  lemma ParseSpacedSign(key: string, sign: char, w: string, d: string)
    requires sign == '+' || sign == '-'
    requires AllSpace(w) && |d| >= 1 && !IsSpace(d[0]) && !IsSpace(d[|d| - 1])
    ensures ParseInt(key, [sign] + w + d) == ParseInt(key, [sign] + d)
  {
    var spaced, tight := [sign] + w + d, [sign] + d;
    assert spaced[0] == sign && spaced[|spaced| - 1] == d[|d| - 1];
    assert tight[0] == sign && tight[|tight| - 1] == d[|d| - 1];
    StripLeftNone(spaced);
    StripRightNone(spaced);
    StripLeftNone(tight);
    StripRightNone(tight);
    assert spaced[1..] == w + d && tight[1..] == d;
    StripLeftSpace(w, d);
    StripLeftNone(d);
    SameSignAndDigits(key, spaced, tight);
  }

  lemma ParseMinusSpaceThree(key: string)
    ensures ParseInt(key, "- 3") == Ok(-3)
  {
    ParseSpacedSign(key, '-', " ", "3");
    assert ['-'] + " " + "3" == "- 3" && ['-'] + "3" == "-3";
    assert Decimal(-3) == "-3";
    ParseDecimal(key, -3, [], []);
    assert [] + Decimal(-3) + [] == "-3";
  }

  /** `int` of a stripped string depends only on its sign and its digits. */
  lemma SameSignAndDigits(key: string, s: string, t: string)
    requires StripLeft(s) == s && StripRight(s) == s && |s| >= 1
    requires StripLeft(t) == t && StripRight(t) == t && |t| >= 1
    requires s[0] == t[0] && Unsigned(s) == Unsigned(t)
    ensures ParseInt(key, s) == ParseInt(key, t)
  {
    assert Strip(s) == s && Strip(t) == t;
  }

  function Pow2(n: nat): (p: nat)
    ensures p >= 1
  {
    if n == 0 then 1 else 2 * Pow2(n - 1)
  }

  lemma {:induction false} Pow2Add(a: nat, b: nat)
    ensures Pow2(a + b) == Pow2(a) * Pow2(b)
  {
    if a > 0 {
      Pow2Add(a - 1, b);
      assert Pow2(a + b) == 2 * Pow2(a - 1 + b);
    }
  }

  /** A smaller power of two divides a larger one. */
  lemma Pow2Divides(a: nat, b: nat)
    requires a <= b
    ensures Pow2(b) % Pow2(a) == 0 && Pow2(b) / Pow2(a) == Pow2(b - a)
  {
    Pow2Add(a, b - a);
    MulDivCancel(Pow2(a), Pow2(b - a));
  }

  lemma MulDivCancel(p: nat, q: nat)
    requires p > 0
    ensures (p * q) / p == q && (p * q) % p == 0
  {
    var x := p * q;
    var d, m := x / p, x % p;
    assert x == d * p + m && 0 <= m < p;
    assert (d - q) * p + m == 0;
    if d > q {
      MulAtLeast(d - q, p);
    } else if d < q {
      MulAtLeast(q - d, p);
    }
  }

  lemma {:induction false} MulAtLeast(k: int, p: int)
    requires k >= 1 && p > 0
    ensures k * p >= p
  {
    if k > 1 {
      MulAtLeast(k - 1, p);
      assert k * p == (k - 1) * p + p;
    }
  }

  /** Division with remainder is unique: a quotient and remainder that
      rebuild `a` are Dafny's `/` and `%`. */
  lemma DivModUnique(a: int, m: int, q: int, r: int)
    requires m > 0 && a == q * m + r && 0 <= r < m
    ensures a / m == q && a % m == r
  {
    var d, rem := a / m, a % m;
    assert a == d * m + rem && 0 <= rem < m;
    assert (d - q) * m == r - rem;
    if d > q {
      MulAtLeast(d - q, m);
    } else if d < q {
      MulAtLeast(q - d, m);
    }
  }

  /** Stepping by half a period moves a residue modulo `2 * h` between 0 and `h`. */
  lemma {:induction false} HalfShift(a: int, h: int)
    requires h >= 1
    ensures a % (2 * h) == 0 ==> (a + h) % (2 * h) == h && (a - h) % (2 * h) == h
    ensures a % (2 * h) == h ==> (a + h) % (2 * h) == 0 && (a - h) % (2 * h) == 0
  {
    var q, r := a / (2 * h), a % (2 * h);
    assert a == q * (2 * h) + r;
    if r == 0 {
      DivModUnique(a + h, 2 * h, q, h);
      DivModUnique(a - h, 2 * h, q - 1, h);
    } else if r == h {
      DivModUnique(a + h, 2 * h, q + 1, 0);
      DivModUnique(a - h, 2 * h, q, 0);
    }
  }

  /** A whole step keeps the residue. */
  lemma StepKeepsResidue(a: int, m: int)
    requires m >= 1
    ensures (a + m) % m == a % m
  {
    DivModUnique(a + m, m, a / m + 1, a % m);
  }

  lemma StepBackKeepsResidue(a: int, m: int)
    requires m >= 1
    ensures (a - m) % m == a % m
  {
    DivModUnique(a - m, m, a / m - 1, a % m);
  }

  /** A non-negative number is at least its residue. */
  lemma ModAtMost(x: int, m: int)
    requires x >= 0 && m >= 1
    ensures x % m <= x
  {
    var q := x / m;
    assert x == q * m + x % m;
    if q >= 1 {
      MulAtLeast(q, m);
    }
  }

  /** Two points with the same residue lie a whole step apart. */
  lemma NextOnLattice(a: int, b: int, m: int)
    requires m >= 1 && a % m == b % m && a < b
    ensures a + m <= b
  {
    var qa, qb := a / m, b / m;
    assert a == qa * m + a % m && b == qb * m + b % m;
    var k := qb - qa;
    assert b - a == k * m;
    if k >= 1 {
      MulAtLeast(k, m);
    } else if k <= -1 {
      MulAtLeast(-k, m);
    }
  }

  /** A residue modulo `2 * h` that is 0 or `h` is a multiple of `h`. */
  lemma HalfResidue(a: int, h: int)
    requires h >= 1 && (a % (2 * h) == 0 || a % (2 * h) == h)
    ensures a % h == 0
  {
    var q := a / (2 * h);
    assert a == q * (2 * h) + a % (2 * h);
    if a % (2 * h) == 0 {
      assert a == (2 * q) * h + 0;
      DivModUnique(a, h, 2 * q, 0);
    } else {
      assert a == (2 * q + 1) * h + 0;
      DivModUnique(a, h, 2 * q + 1, 0);
    }
  }

  lemma Pow2Monotone(a: nat, b: nat)
    requires a <= b
    ensures Pow2(a) <= Pow2(b)
  {
    Pow2Add(a, b - a);
    MulAtLeast(Pow2(b - a), Pow2(a));
    assert Pow2(b - a) * Pow2(a) == Pow2(a) * Pow2(b - a);
  }

  /** Python's `a // b`, the floor of the quotient, also for negative operands. */
  function FloorDiv(a: int, b: int): (q: int)
    requires b != 0
    ensures b > 0 ==> q * b <= a < q * b + b
    ensures b < 0 ==> q * b >= a > q * b + b
  {
    if b > 0 then a / b
    else if a % (-b) == 0 then -(a / (-b))
    else -(a / (-b)) - 1
  }

  /** `numpy.linspace(start, stop, num, endpoint=True)`, in exact arithmetic. */
  function Linspace(start: real, stop: real, num: nat): (r: seq<real>)
    ensures |r| == num
    ensures num >= 1 ==> r[0] == start
    ensures num >= 2 ==> r[num - 1] == stop
    ensures num >= 2 ==> forall i :: 0 <= i < num - 1 ==> r[i + 1] - r[i] == (stop - start) / ((num - 1) as real)
  {
    if num == 1 then [start]
    else
      var step := if num < 2 then 0.0 else (stop - start) / ((num - 1) as real);
      var r := seq(num, i => if i == num - 1 && num >= 2 then stop else start + (i as real) * step);
      assert num >= 2 ==> r[num - 1] == start + ((num - 1) as real) * step by {
        if num >= 2 {
          assert ((num - 1) as real) * step == stop - start;
        }
      }
      r
  }

  /** A symmetric window with an odd number (at least three) of samples has its
      middle sample at the centre; a single sample sits at the window's start. */
  lemma LinspaceMidpoint(centre: real, half: real, m: nat)
    requires m >= 1
    ensures Linspace(centre - half, centre + half, 2 * m + 1)[m] == centre
  {
    var r := Linspace(centre - half, centre + half, 2 * m + 1);
    {
      var step := ((centre + half) - (centre - half)) / ((2 * m) as real);
      assert (centre + half) - (centre - half) == 2.0 * half;
      assert step * ((2 * m) as real) == 2.0 * half;
      assert 2.0 * ((m as real) * step) == step * ((2 * m) as real);
      assert (m as real) * step == half;
      assert r[m] == (centre - half) + (m as real) * step;
    }
  }

  /** The index Python uses for one bound of `s[a:b]` on a sequence of length `len`. */
  function SliceIndex(i: int, len: nat): (r: nat)
    ensures r <= len
    ensures 0 <= i <= len ==> r == i
  {
    if i < 0 then (if i + len < 0 then 0 else i + len)
    else if i > len then len
    else i
  }

  /** Python's `s[a:b]` for a step of one, negative and overlong bounds included. */
  function PySlice<T>(s: seq<T>, a: int, b: int): (r: seq<T>)
    ensures 0 <= a <= b <= |s| ==> r == s[a..b]
    ensures |r| <= |s| && SliceIndex(a, |s|) + |r| <= |s|
    ensures SliceIndex(a, |s|) < SliceIndex(b, |s|) ==> |r| == SliceIndex(b, |s|) - SliceIndex(a, |s|)
    ensures SliceIndex(a, |s|) >= SliceIndex(b, |s|) ==> r == []
    ensures forall i :: 0 <= i < |r| ==> r[i] == s[SliceIndex(a, |s|) + i]
  {
    var lo := SliceIndex(a, |s|);
    var hi := SliceIndex(b, |s|);
    if lo < hi then s[lo..hi] else []
  }

  /** Two slices with the same bounds of equally long sequences are equally long. */
  lemma PySliceSameLength<T, U>(s: seq<T>, t: seq<U>, a: int, b: int)
    requires |s| == |t|
    ensures |PySlice(s, a, b)| == |PySlice(t, a, b)|
  {
  }
}
