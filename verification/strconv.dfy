/** The two `strconv` parsers `convertToType` relies on, `ParseBool` and
    `Atoi`, with the formatters that render their results back to text.
    Go's `int` is taken to be 64 bits wide. */
module StrConv {
  import opened Wrappers

  const MaxInt: int := 0x7fff_ffff_ffff_ffff
  const MinInt: int := -0x8000_0000_0000_0000
  /** Largest value the unsigned digit scan of `strconv.ParseUint` accepts. */
  const MaxUint64: int := 0xffff_ffff_ffff_ffff

  datatype NumReason = Syntax | Range

  /** Go's `*strconv.NumError`: the failing function, the input, the reason. */
  datatype NumError = NumError(fn: string, input: string, reason: NumReason)

  // ---------------------------------------------------------------- booleans

  const TrueWords: set<string> := {"1", "t", "T", "TRUE", "true", "True"}
  const FalseWords: set<string> := {"0", "f", "F", "FALSE", "false", "False"}

  /** Exactly six spellings per truth value are accepted; case matters
      ("tRuE" and "yes" are syntax errors). */
  function ParseBool(s: string): (r: Result<bool, NumError>)
    ensures r.Success? <==> s in TrueWords + FalseWords
    ensures r.Success? ==> (r.value <==> s in TrueWords)
    ensures r.Failure? ==> r.error == NumError("ParseBool", s, Syntax)
  {
    if s == "1" || s == "t" || s == "T" || s == "true" || s == "TRUE" || s == "True" then
      Success(true)
    else if s == "0" || s == "f" || s == "F" || s == "false" || s == "FALSE" || s == "False" then
      Success(false)
    else
      Failure(NumError("ParseBool", s, Syntax))
  }

  /** `strconv.FormatBool`; its rendering parses back to the same boolean. */
  function FormatBool(b: bool): (s: string)
    ensures ParseBool(s) == Success(b)
  {
    if b then "true" else "false"
  }

  // ---------------------------------------------------------------- integers

  predicate IsDigit(c: char)
  {
    '0' <= c <= '9'
  }

  predicate AllDigits(s: string)
  {
    forall k :: 0 <= k < |s| ==> IsDigit(s[k])
  }

  function DigitValue(c: char): nat
    requires IsDigit(c)
  {
    c as int - '0' as int
  }

  function DigitChar(d: nat): (c: char)
    requires d < 10
    ensures IsDigit(c) && DigitValue(c) == d
  {
    ('0' as int + d) as char
  }

  /** The value of a run of decimal digits, most significant first. */
  function DigitsValue(s: string): nat
    requires AllDigits(s)
    decreases |s|
  {
    if |s| == 0 then 0
    else DigitsValue(s[..|s| - 1]) * 10 + DigitValue(s[|s| - 1])
  }

  /** `s` without one leading `+` or `-`. */
  function Unsigned(s: string): string
  {
    if |s| > 0 && (s[0] == '+' || s[0] == '-') then s[1..] else s
  }

  predicate Negative(s: string)
  {
    |s| > 0 && s[0] == '-'
  }

  /** The grammar `Atoi` accepts: an optional sign, then one or more decimal
      digits (base 10 given explicitly, so no prefix and no underscores). */
  predicate IsIntLiteral(s: string)
  {
    |Unsigned(s)| > 0 && AllDigits(Unsigned(s))
  }

  /** The integer a literal denotes, before any range check. */
  function LiteralValue(s: string): int
    requires IsIntLiteral(s)
  {
    if Negative(s) then -(DigitsValue(Unsigned(s)) as int) else DigitsValue(Unsigned(s))
  }

  /** The longest run of digits `s` starts with. */
  function DigitPrefix(s: string): (p: string)
    ensures p <= s && AllDigits(p)
    ensures |p| < |s| ==> !IsDigit(s[|p|])
  {
    if |s| == 0 || !IsDigit(s[0]) then ""
    else [s[0]] + DigitPrefix(s[1..])
  }

  /** `strconv.Atoi` on a 64-bit platform. The digits are scanned left to
      right as `ParseUint` does: once the digits read so far exceed the
      unsigned 64-bit range the scan stops with a range error, even if a
      non-digit follows; otherwise a non-digit is a syntax error, and a
      well-formed literal outside `int` is a range error. */
  function Atoi(s: string): (r: Result<int, NumError>)
    ensures r.Success? <==> IsIntLiteral(s) && MinInt <= LiteralValue(s) <= MaxInt
    ensures r.Success? ==> r.value == LiteralValue(s)
    ensures r.Failure? ==> r.error.fn == "Atoi" && r.error.input == s
    ensures r.Failure? && IsIntLiteral(s) ==> r.error.reason == Range
    ensures !IsIntLiteral(s) && DigitsValue(DigitPrefix(Unsigned(s))) <= MaxUint64 ==>
              r.Failure? && r.error.reason == Syntax
    ensures !IsIntLiteral(s) && DigitsValue(DigitPrefix(Unsigned(s))) > MaxUint64 ==>
              r.Failure? && r.error.reason == Range
  {
    var digits := Unsigned(s);
    var lead := DigitPrefix(digits);
    if |digits| == 0 then
      Failure(NumError("Atoi", s, Syntax))
    else if DigitsValue(lead) > MaxUint64 then
      assert IsIntLiteral(s) ==> lead == digits;
      Failure(NumError("Atoi", s, Range))
    else if |lead| < |digits| then
      Failure(NumError("Atoi", s, Syntax))
    else
      assert lead == digits;
      var v := if Negative(s) then -(DigitsValue(lead) as int) else DigitsValue(lead);
      if MinInt <= v <= MaxInt then Success(v) else Failure(NumError("Atoi", s, Range))
  }

  /** Decimal digits of `n`, without leading zeros. */
  function Decimal(n: nat): (s: string)
    ensures |s| > 0 && AllDigits(s)
    ensures DigitsValue(s) == n
    ensures |s| > 1 ==> s[0] != '0'
    decreases n
  {
    if n < 10 then [DigitChar(n)]
    else
      var hi := Decimal(n / 10);
      var s := hi + [DigitChar(n % 10)];
      assert s[..|s| - 1] == hi;
      s
  }

  /** `strconv.Itoa`: a minus sign for negative values, then the digits. The
      rendering is a literal denoting `i`, so an in-range `int` parses back. */
  function Itoa(i: int): (s: string)
    ensures IsIntLiteral(s) && LiteralValue(s) == i
    ensures MinInt <= i <= MaxInt ==> Atoi(s) == Success(i)
  {
    if i < 0 then "-" + Decimal(-i) else Decimal(i)
  }
}
