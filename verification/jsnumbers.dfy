/** The two pieces of JavaScript number semantics the services depend on:
    `parseInt(string)` with no radix, and arithmetic and comparison on
    numbers that may be `NaN` or infinite. Finite values are exact reals:
    binary floating-point rounding and the sign of zero are not modelled. */
module JsNumbers {
  import opened Options
  import opened Text

  // ------------------------------------------------------------ parseInt

  predicate IsHexDigit(c: char) { IsDigit(c) || 'a' <= c <= 'f' || 'A' <= c <= 'F' }

  function HexDigitValue(c: char): nat
    requires IsHexDigit(c)
  {
    if IsDigit(c) then DigitValue(c)
    else if 'a' <= c <= 'f' then c as int - 'a' as int + 10
    else c as int - 'A' as int + 10
  }

  /** Value of a string of hexadecimal digits. */
  function HexValue(s: string): nat
    requires forall i :: 0 <= i < |s| ==> IsHexDigit(s[i])
    decreases |s|
  {
    if |s| == 0 then 0 else HexValue(s[..|s| - 1]) * 16 + HexDigitValue(s[|s| - 1])
  }

  /** The digits `parseInt` reads after the sign: the longest prefix of hex
      digits when the text starts with `0x`/`0X`, else the longest prefix of
      decimal digits. */
  function Magnitude(body: string): Option<nat> {
    if |body| >= 2 && body[0] == '0' && (body[1] == 'x' || body[1] == 'X') then
      var e := RunEnd(body, 2, IsHexDigit);
      if e == 2 then None else Some(HexValue(body[2..e]))
    else
      var e := RunEnd(body, 0, IsDigit);
      if e == 0 then None else Some(DecimalValue(body[..e]))
  }

  /** `parseInt(s)` without a radix: leading white space is skipped, then an
      optional `+`/`-`, then a `0x`/`0X` prefix selects base 16; the longest
      run of digits that follows is read and the rest ignored. `None` stands
      for `NaN` (no digit where one was needed). */
  function ParseInt(s: string): (r: Option<int>)
    ensures r.Some? ==> exists k :: 0 <= k < |s| && IsDigit(s[k])
  {
    var t := TrimStart(s);
    var negative := |t| > 0 && t[0] == '-';
    var body := if |t| > 0 && (t[0] == '-' || t[0] == '+') then t[1..] else t;
    match Magnitude(body)
    case None => None
    case Some(m) =>
      assert IsDigit(body[0]) && body[0] == s[|s| - |body|];
      var value: int := if negative then -(m as int) else m;
      Some(value)
  }

  /** Decimal notation of an integer, as JavaScript prints it. */
  function IntToString(n: int): string {
    if n < 0 then "-" + NatToString(-n) else NatToString(n)
  }

  /** Reading back the decimal notation of an integer gives the integer. */
  lemma ParseIntOfDecimal(n: int)
    ensures ParseInt(IntToString(n)) == Some(n)
  {
    var digits := NatToString(if n < 0 then -n else n);
    assert |digits| >= 2 ==> IsDigit(digits[1]);
    assert digits[..|digits|] == digits;
    if n < 0 {
      NegativeDecimal(digits);
    } else {
      UnsignedDigits(digits, |digits|);
    }
  }

  lemma NegativeDecimal(digits: string)
    requires |digits| > 0 && IsDigits(digits)
    requires |digits| >= 2 ==> digits[1] != 'x' && digits[1] != 'X'
    ensures ParseInt("-" + digits) == Some(-(DecimalValue(digits) as int))
  {
    var s := "-" + digits;
    assert s[1..] == digits;
    TrimStartUnchanged(s);
    DecimalMagnitude(digits, |digits|);
    assert digits[..|digits|] == digits;
  }

  /** `parseInt` reads a leading run of decimal digits and ignores whatever
      follows it (unless the run is a lone `0` followed by `x`/`X`). */
  lemma ParseIntLeadingDigits(digits: string, rest: string)
    requires |digits| > 0 && IsDigits(digits)
    requires |rest| == 0 || !IsDigit(rest[0])
    requires !(digits == "0" && |rest| > 0 && (rest[0] == 'x' || rest[0] == 'X'))
    ensures ParseInt(digits + rest) == Some(DecimalValue(digits))
  {
    var s := digits + rest;
    assert s[..|digits|] == digits;
    assert |digits| >= 2 ==> s[1] == digits[1];
    assert |digits| == 1 && |s| >= 2 ==> s[1] == rest[0];
    UnsignedDigits(s, |digits|);
  }

  lemma TrimStartUnchanged(s: string)
    requires |s| > 0 && !IsSpace(s[0])
    ensures TrimStart(s) == s
  {
  }

  /** Text starting with a run of decimal digits and no hex prefix parses
      to the value of that run. */
  lemma UnsignedDigits(s: string, e: nat)
    requires 0 < e <= |s|
    requires forall k :: 0 <= k < e ==> IsDigit(s[k])
    requires e == |s| || !IsDigit(s[e])
    requires !(|s| >= 2 && s[0] == '0' && (s[1] == 'x' || s[1] == 'X'))
    ensures ParseInt(s) == Some(DecimalValue(s[..e]))
  {
    TrimStartUnchanged(s);
    DecimalMagnitude(s, e);
  }

  /** The magnitude of text that starts with a run of decimal digits (and no
      hex prefix) is the value of that run. */
  lemma DecimalMagnitude(body: string, e: nat)
    requires 0 < e <= |body|
    requires forall k :: 0 <= k < e ==> IsDigit(body[k])
    requires e == |body| || !IsDigit(body[e])
    requires !(|body| >= 2 && body[0] == '0' && (body[1] == 'x' || body[1] == 'X'))
    ensures Magnitude(body) == Some(DecimalValue(body[..e]))
  {
    RunEndExact(body, 0, e, IsDigit);
  }

  // ------------------------------------------------------ numeric values

  /** A JavaScript number: `NaN`, an infinity, or a finite value. */
  datatype Num = NaN | NegInf | Fin(v: real) | PosInf

  /** The number a possibly failed `parseInt` yields. */
  function FromInt(o: Option<int>): (n: Num)
    ensures n.Fin? <==> o.Some?
    ensures o.Some? ==> n.v == o.value as real
  {
    match o
    case Some(i) => Fin(i as real)
    case None => NaN
  }

  function Neg(a: Num): Num {
    match a
    case NaN => NaN
    case NegInf => PosInf
    case PosInf => NegInf
    case Fin(x) => Fin(-x)
  }

  function Add(a: Num, b: Num): Num {
    if a.NaN? || b.NaN? then NaN
    else if (a.PosInf? && b.NegInf?) || (a.NegInf? && b.PosInf?) then NaN
    else if a.PosInf? || b.PosInf? then PosInf
    else if a.NegInf? || b.NegInf? then NegInf
    else Fin(a.v + b.v)
  }

  function Sub(a: Num, b: Num): Num {
    Add(a, Neg(b))
  }

  /** -1, 0 or 1 for a non-NaN number. */
  function Sign(a: Num): int
    requires !a.NaN?
  {
    if a.PosInf? || (a.Fin? && a.v > 0.0) then 1
    else if a.NegInf? || (a.Fin? && a.v < 0.0) then -1
    else 0
  }

  function Mul(a: Num, b: Num): Num {
    if a.NaN? || b.NaN? then NaN
    else if a.Fin? && b.Fin? then Fin(a.v * b.v)
    else if Sign(a) == 0 || Sign(b) == 0 then NaN
    else if Sign(a) * Sign(b) > 0 then PosInf
    else NegInf
  }

  /** Division; a non-zero value divided by zero is an infinity carrying the
      sign of the dividend, and 0/0 is NaN. */
  function Div(a: Num, b: Num): Num {
    if a.NaN? || b.NaN? then NaN
    else if !a.Fin? && !b.Fin? then NaN
    else if !b.Fin? then Fin(0.0)
    else if b.v != 0.0 then
      (if a.Fin? then Fin(a.v / b.v) else if Sign(a) * (if b.v > 0.0 then 1 else -1) > 0 then PosInf else NegInf)
    else if a.Fin? && a.v == 0.0 then NaN
    else if Sign(a) > 0 then PosInf
    else NegInf
  }

  /** `Math.abs`: never negative. */
  function Abs(a: Num): (r: Num)
    ensures r.NaN? <==> a.NaN?
    ensures !r.NegInf? && (r.Fin? ==> r.v >= 0.0)
  {
    match a
    case NaN => NaN
    case Fin(x) => Fin(if x < 0.0 then -x else x)
    case _ => PosInf
  }

  /** `a < b`; false whenever either side is NaN. */
  predicate Less(a: Num, b: Num) {
    && !a.NaN? && !b.NaN?
    && match a
       case NegInf => !b.NegInf?
       case Fin(x) => b.PosInf? || (b.Fin? && x < b.v)
       case _ => false
  }

  predicate Greater(a: Num, b: Num) { Less(b, a) }

  predicate AtLeast(a: Num, b: Num) { !a.NaN? && !b.NaN? && !Less(a, b) }

  /** `Math.min(a, b)`: NaN if either argument is. */
  function Min(a: Num, b: Num): (r: Num)
    ensures r.NaN? <==> a.NaN? || b.NaN?
    ensures !r.NaN? ==> !Less(a, r) && !Less(b, r) && (r == a || r == b)
  {
    if a.NaN? || b.NaN? then NaN else if Less(b, a) then b else a
  }

  /** `Math.max(a, b)`: NaN if either argument is. */
  function Max(a: Num, b: Num): (r: Num)
    ensures r.NaN? <==> a.NaN? || b.NaN?
    ensures !r.NaN? ==> !Less(r, a) && !Less(r, b) && (r == a || r == b)
  {
    if a.NaN? || b.NaN? then NaN else if Less(a, b) then b else a
  }
}
