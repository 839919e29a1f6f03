/** The decimal-integer parser of src/parser/literal.rs: nom combinators that
    take the longest run of decimal digits and convert it with
    `i64::from_str_radix(_, 10)`.

    A nom result `IResult<&str, T>` is a `ParseResult`: `Parsed(rest, output)`
    carries the unconsumed remainder first, as nom does. */
module DecimalParser {
  import opened Int64
  import opened Errors

  /** The parser's own literal kind (src/parser/literal.rs:6-9). */
  datatype Literal = Integer(value: I64)

  /** nom's error value: the input at which `map_res` rejected the digits. */
  datatype NomError = MapResError(input: string)

  /** The interpreter-level wrapper that `literal` maps nom errors into. */
  datatype InterpreterError = ParseError(cause: NomError)

  datatype ParseResult<+T, +E> = Parsed(rest: string, output: T) | ParseFailure(error: E)

  /** `char::is_dec_digit`: the ASCII digits '0' to '9'. */
  predicate IsDecimalDigit(c: char) {
    '0' <= c <= '9'
  }

  predicate AllDigits(s: string) {
    forall i | 0 <= i < |s| :: IsDecimalDigit(s[i])
  }

  function DigitValue(c: char): nat
    requires IsDecimalDigit(c)
  {
    c as int - '0' as int
  }

  /** The base-10 reading of a run of digits, most significant first. */
  function DigitsValue(ds: string): nat
    requires AllDigits(ds)
  {
    if ds == [] then 0 else DigitsValue(ds[..|ds| - 1]) * 10 + DigitValue(ds[|ds| - 1])
  }

  /** The text `str::parse::<i64>` accepts: an optional '+' or '-' and then
      a non-empty run of decimal digits. */
  predicate DecimalSyntax(s: string) {
    && s != []
    && if s[0] == '+' || s[0] == '-' then |s| >= 2 && AllDigits(s[1..]) else AllDigits(s)
  }

  /** `from_decimal`, i.e. `i64::from_str_radix(input, 10)`, which is also what
      `str::parse::<i64>` does: an optional sign, then at least one digit and
      nothing else; a value outside the i64 range is an overflow error. The
      checked digit-by-digit accumulation of the standard library fails
      exactly when the final value is out of range, because the partial values
      only grow in magnitude. */
  function FromDecimal(s: string): (r: Option<I64>)
    ensures !DecimalSyntax(s) ==> r.None?
    ensures AllDigits(s) && s != [] ==> r == if DigitsValue(s) <= MAX then Some(DigitsValue(s)) else None
    ensures |s| >= 2 && s[0] == '+' && AllDigits(s[1..]) ==>
      r == if DigitsValue(s[1..]) <= MAX then Some(DigitsValue(s[1..])) else None
    ensures |s| >= 2 && s[0] == '-' && AllDigits(s[1..]) ==>
      r == if DigitsValue(s[1..]) <= -MIN then Some(-(DigitsValue(s[1..]) as int)) else None
    ensures r.Some? && s[0] == '-' ==> r.value <= 0
  {
    if s == [] then None
    else if (s[0] == '+' || s[0] == '-') && |s| == 1 then None
    else
      var negative := s[0] == '-';
      var digits := if s[0] == '+' || s[0] == '-' then s[1..] else s;
      if !AllDigits(digits) then None
      else
        var v: int := if negative then -(DigitsValue(digits) as int) else DigitsValue(digits);
        if InRange(v) then Some(v) else None
  }

  /** nom's `take_while(is_decimal_digit)` on a complete `&str`: splits off the
      longest prefix of digits and returns `(remainder, prefix)`. */
  function TakeWhileDigits(s: string): (r: (string, string))
    ensures r.1 + r.0 == s
    ensures AllDigits(r.1)
    ensures r.0 == [] || !IsDecimalDigit(r.0[0])
  {
    if s != [] && IsDecimalDigit(s[0]) then
      var (rest, taken) := TakeWhileDigits(s[1..]);
      (rest, [s[0]] + taken)
    else
      (s, [])
  }

  /** `decimal_number`: `map_res(take_while(is_decimal_digit), from_decimal)`.
      It consumes the longest digit prefix, reads it in base 10, and fails at
      the original input when that prefix is empty or does not fit an i64. */
  function DecimalNumber(input: string): (r: ParseResult<I64, NomError>)
    ensures r.Parsed? ==>
      var n := |input| - |r.rest|;
      && 0 < n <= |input|
      && input[n..] == r.rest
      && AllDigits(input[..n])
      && (r.rest == [] || !IsDecimalDigit(r.rest[0]))
      && r.output == DigitsValue(input[..n])
    ensures r.ParseFailure? <==>
      input == [] || !IsDecimalDigit(input[0]) || DigitsValue(TakeWhileDigits(input).1) > MAX
    ensures r.ParseFailure? ==> r.error == MapResError(input)
  {
    var (rest, digits) := TakeWhileDigits(input);
    assert digits == input[..|digits|];
    assert digits == [] <==> input == [] || !IsDecimalDigit(input[0]) by {
      if digits != [] { assert digits[0] == input[0]; }
    }
    match FromDecimal(digits)
    case Some(v) => Parsed(rest, v)
    case None => ParseFailure(MapResError(input))
  }

  /** `integer`: a decimal number wrapped as `Literal::Integer`. */
  function ParseInteger(input: string): (r: ParseResult<Literal, NomError>)
    ensures r.Parsed? <==>
      input != [] && IsDecimalDigit(input[0]) && DigitsValue(TakeWhileDigits(input).1) <= MAX
    ensures r.Parsed? ==>
      r.rest == TakeWhileDigits(input).0 && r.output == Integer(DigitsValue(TakeWhileDigits(input).1))
    ensures r.ParseFailure? ==> r.error == MapResError(input)
  {
    match DecimalNumber(input)
    case Parsed(rest, number) => Parsed(rest, Integer(number))
    case ParseFailure(e) => ParseFailure(e)
  }

  /** `literal`: `alt((integer, integer))` with the error mapped to
      `ParseError`. When both branches fail, nom's default error keeps the
      last branch's error. */
  function ParseLiteral(input: string): (r: ParseResult<Literal, InterpreterError>)
    ensures r.Parsed? <==>
      input != [] && IsDecimalDigit(input[0]) && DigitsValue(TakeWhileDigits(input).1) <= MAX
    ensures r.ParseFailure? ==> r.error == ParseError(MapResError(input))
  {
    match ParseInteger(input)
    case Parsed(rest, l) => Parsed(rest, l)
    case ParseFailure(_) =>
      match ParseInteger(input)
      case Parsed(rest, l) => Parsed(rest, l)
      case ParseFailure(e) => ParseFailure(ParseError(e))
  }

  /** What `from_decimal` makes of signed and zero-padded digits. */
  lemma FromDecimalExamples()
    ensures FromDecimal("-5") == Some(-5)
    ensures FromDecimal("+5") == Some(5)
    ensures FromDecimal("007") == Some(7)
    ensures FromDecimal("-0") == Some(0)
  {
    assert "-5"[1..] == "5" && "+5"[1..] == "5" && "-0"[1..] == "0";
    assert DigitsValue("5") == 5 && DigitsValue("0") == 0;
    assert "007"[..2] == "00" && "00"[..1] == "0";
    assert DigitsValue("00") == 0;
    assert DigitsValue("007") == 7;
  }

  /** Text that is not an optional sign followed by digits is refused. */
  lemma FromDecimalRefusals()
    ensures FromDecimal("-") == None
    ensures FromDecimal("+-1") == None
    ensures FromDecimal("1a") == None
    ensures FromDecimal(" 1") == None
  {
    assert !IsDecimalDigit("+-1"[1..][0]);
    assert !IsDecimalDigit("1a"[1]);
    assert !IsDecimalDigit(" 1"[0]);
  }

  /** No sign is accepted: input starting with '+' or '-' is rejected. */
  lemma SignRejected(input: string)
    requires input != [] && (input[0] == '+' || input[0] == '-')
    ensures DecimalNumber(input).ParseFailure?
    ensures ParseLiteral(input) == ParseFailure(ParseError(MapResError(input)))
  {}

  /** `literal` behaves exactly like `integer`, up to the error wrapper. */
  lemma LiteralIsInteger(input: string)
    ensures ParseLiteral(input).Parsed? <==> ParseInteger(input).Parsed?
    ensures ParseInteger(input).Parsed? ==> ParseLiteral(input) == Parsed(ParseInteger(input).rest, ParseInteger(input).output)
    ensures ParseInteger(input).ParseFailure? ==> ParseLiteral(input) == ParseFailure(ParseError(ParseInteger(input).error))
  {}

  /** The unit test of src/parser/literal.rs:38-41. */
  lemma IntegerParsesExample()
    ensures ParseInteger("381283") == Parsed("", Integer(381283))
  {
    assert DecimalString(381283) + "" == "381283";
    DecimalNumberRoundTrip(381283, "");
    assert DecimalNumber("381283") == Parsed("", 381283);
  }

  /** The canonical base-10 rendering of a natural number (how Rust prints a
      non-negative i64): the inverse of `DecimalNumber`. */
  function DecimalString(n: nat): (s: string)
    ensures s != [] && AllDigits(s)
  {
    var d := ['0' + (n % 10) as char];
    if n < 10 then d else DecimalString(n / 10) + d
  }

  lemma {:induction false} DecimalStringValue(n: nat)
    ensures DigitsValue(DecimalString(n)) == n
  {
    var s := DecimalString(n);
    if n >= 10 {
      DecimalStringValue(n / 10);
      assert s[..|s| - 1] == DecimalString(n / 10);
    }
  }

  lemma {:induction false} TakeWhileAllDigits(ds: string, rest: string)
    requires AllDigits(ds)
    requires rest == [] || !IsDecimalDigit(rest[0])
    ensures TakeWhileDigits(ds + rest) == (rest, ds)
  {
    if ds != [] {
      assert (ds + rest)[0] == ds[0];
      assert (ds + rest)[1..] == ds[1..] + rest;
      TakeWhileAllDigits(ds[1..], rest);
      assert [ds[0]] + ds[1..] == ds;
    } else {
      assert ds + rest == rest;
    }
  }

  /** Round trip: rendering an i64-range natural and parsing it back yields
      the number and leaves whatever non-digit text followed it. */
  lemma DecimalNumberRoundTrip(n: nat, rest: string)
    requires n <= MAX
    requires rest == [] || !IsDecimalDigit(rest[0])
    ensures DecimalNumber(DecimalString(n) + rest) == Parsed(rest, n)
    ensures ParseLiteral(DecimalString(n) + rest) == Parsed(rest, Integer(n))
  {
    TakeWhileAllDigits(DecimalString(n), rest);
    DecimalStringValue(n);
  }
}
