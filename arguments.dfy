/**
 * Request arguments and BaseHandler.get_non_negative_int.
 *
 * A request's arguments are a map from argument name to its (last) value.
 * Python's `repr` of the default and its `int()` conversion are written out
 * here: `repr` of an int is its decimal form with a leading `-` when
 * negative, `repr(None)` is "None", and `int()` accepts an optional sign
 * followed by one or more decimal digits.
 */
module Arguments {
  import opened Wrappers

  /** The value of argument `name`, or `default` when it is missing. */
  function Lookup(args: map<string, string>, name: string, default: string): (v: string)
    ensures name in args ==> v == args[name]
    ensures name !in args ==> v == default
  {
    if name in args then args[name] else default
  }

  /** The value of argument `name`, or None when it is missing. */
  function LookupOption(args: map<string, string>, name: string): (v: Option<string>)
    ensures v.Some? <==> name in args
    ensures v.Some? ==> v.value == args[name]
  {
    if name in args then Some(args[name]) else None
  }

  // ---------------------------------------------------------------- decimals

  predicate IsDigit(c: char) {
    '0' <= c <= '9'
  }

  predicate AllDigits(s: string) {
    forall i | 0 <= i < |s| :: IsDigit(s[i])
  }

  function DigitValue(c: char): (d: nat)
    requires IsDigit(c)
    ensures d < 10
  {
    (c as int) - ('0' as int)
  }

  function DigitChar(d: nat): (c: char)
    requires d < 10
    ensures IsDigit(c) && DigitValue(c) == d
  {
    (('0' as int) + d) as char
  }

  /** The number that a string of decimal digits denotes, most significant first. */
  function DigitsValue(s: string): nat
    requires AllDigits(s)
  {
    if s == [] then 0 else DigitsValue(s[..|s| - 1]) * 10 + DigitValue(s[|s| - 1])
  }

  /** Python's `int()` on a string: an optional sign and at least one digit. */
  function ParseInt(s: string): (r: Option<int>)
    ensures r.Some? ==> |s| > 0
  {
    if |s| > 0 && (s[0] == '-' || s[0] == '+') then
      var t := s[1..];
      if |t| > 0 && AllDigits(t) then
        Some(if s[0] == '-' then -(DigitsValue(t) as int) else DigitsValue(t) as int)
      else None
    else if |s| > 0 && AllDigits(s) then Some(DigitsValue(s))
    else None
  }

  /** Python's `repr` of a non-negative int. */
  function NatToDecimal(n: nat): string
  {
    if n < 10 then [DigitChar(n)] else NatToDecimal(n / 10) + [DigitChar(n % 10)]
  }

  /** Python's `repr` of an int. */
  function IntToDecimal(n: int): string
  {
    if n < 0 then "-" + NatToDecimal(-n) else NatToDecimal(n)
  }

  /** Python's `repr` of a default that is either None or an int. */
  function Repr(default: Option<int>): (s: string)
    ensures default.Some? ==> ParseInt(s) == default
    ensures default.None? ==> ParseInt(s).None?
  {
    match default
    case None => "None"
    case Some(n) => ParseIntRoundTrip(n); IntToDecimal(n)
  }

  lemma {:induction false} NatToDecimalDigits(n: nat)
    ensures |NatToDecimal(n)| > 0 && AllDigits(NatToDecimal(n))
    ensures DigitsValue(NatToDecimal(n)) == n
  {
    if n >= 10 {
      NatToDecimalDigits(n / 10);
      var s := NatToDecimal(n);
      assert s[..|s| - 1] == NatToDecimal(n / 10);
    }
  }

  /** `int(repr(n)) == n` for every int n. */
  lemma ParseIntRoundTrip(n: int)
    ensures ParseInt(IntToDecimal(n)) == Some(n)
  {
    if n < 0 {
      NatToDecimalDigits(-n);
      assert IntToDecimal(n)[1..] == NatToDecimal(-n);
    } else {
      NatToDecimalDigits(n);
    }
  }

  // ------------------------------------------------------ get_non_negative_int

  /** The ValueError raised by get_non_negative_int, with what its message names. */
  datatype ArgError =
    | CannotCast(name: string, argument: string)  // "<name>: can't cast <argument> to int."
    | Negative(name: string)                      // "<name> is negative."

  predicate IsEmptyLike(argument: string) {
    argument == "" || argument == "None"
  }

  /** The string get_non_negative_int works on: the argument, or repr(default). */
  function Argument(args: map<string, string>, name: string, default: Option<int>): string
  {
    Lookup(args, name, Repr(default))
  }

  /**
   * BaseHandler.get_non_negative_int: Ok(None) for an empty value when
   * allowed, Ok(Some(n)) for a parsed n >= 0, and the ValueError otherwise.
   */
  function GetNonNegativeInt(args: map<string, string>, name: string, default: Option<int>,
                             allowEmpty: bool): (r: Result<Option<nat>, ArgError>)
    ensures r == Ok(None) <==> allowEmpty && IsEmptyLike(Argument(args, name, default))
    ensures r.Ok? && r.value.Some? ==> ParseInt(Argument(args, name, default)) == Some(r.value.value as int)
    ensures r.Err? <==>
              !(allowEmpty && IsEmptyLike(Argument(args, name, default))) &&
              (ParseInt(Argument(args, name, default)).None? || ParseInt(Argument(args, name, default)).value < 0)
    ensures r == Err(CannotCast(name, Argument(args, name, default))) <==>
              !(allowEmpty && IsEmptyLike(Argument(args, name, default))) &&
              ParseInt(Argument(args, name, default)).None?
    ensures r == Err(Negative(name)) <==>
              !(allowEmpty && IsEmptyLike(Argument(args, name, default))) &&
              ParseInt(Argument(args, name, default)).Some? && ParseInt(Argument(args, name, default)).value < 0
    ensures r.Err? ==> r.error == CannotCast(name, Argument(args, name, default)) || r.error == Negative(name)
  {
    var argument := Argument(args, name, default);
    if allowEmpty && IsEmptyLike(argument) then Ok(None)
    else
      match ParseInt(argument)
      case None => Err(CannotCast(name, argument))
      case Some(n) => if n < 0 then Err(Negative(name)) else Ok(Some(n))
  }

  /** A decimal argument is read back as the number it spells. */
  lemma GivenNatIsRead(args: map<string, string>, name: string, n: nat, default: Option<int>,
                       allowEmpty: bool)
    requires name in args && args[name] == NatToDecimal(n)
    ensures GetNonNegativeInt(args, name, default, allowEmpty) == Ok(Some(n))
  {
    ParseIntRoundTrip(n);
    NatToDecimalDigits(n);
    assert !IsDigit('N');
  }

  /** A negative argument is refused with "<name> is negative.". */
  lemma GivenNegativeIsRefused(args: map<string, string>, name: string, n: int, default: Option<int>,
                               allowEmpty: bool)
    requires n < 0 && name in args && args[name] == IntToDecimal(n)
    ensures GetNonNegativeInt(args, name, default, allowEmpty) == Err(Negative(name))
  {
    ParseIntRoundTrip(n);
  }

  /** A missing argument falls back to repr(default), which reads back as default. */
  lemma MissingUsesDefault(args: map<string, string>, name: string, n: int, allowEmpty: bool)
    requires name !in args
    ensures n >= 0 ==> GetNonNegativeInt(args, name, Some(n), allowEmpty) == Ok(Some(n))
    ensures n < 0 ==> GetNonNegativeInt(args, name, Some(n), allowEmpty) == Err(Negative(name))
  {
    ParseIntRoundTrip(n);
    if n >= 0 {
      NatToDecimalDigits(n);
      assert !IsDigit('N');
    }
  }

  /**
   * A missing argument whose default is None becomes "None": None when empty
   * values are allowed, and the cast error when they are not.
   */
  lemma MissingWithoutDefault(args: map<string, string>, name: string, allowEmpty: bool)
    requires name !in args
    ensures allowEmpty ==> GetNonNegativeInt(args, name, None, allowEmpty) == Ok(None)
    ensures !allowEmpty ==> GetNonNegativeInt(args, name, None, allowEmpty) == Err(CannotCast(name, "None"))
  {
    assert !IsDigit('N');
  }
}
