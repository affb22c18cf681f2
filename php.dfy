/** The pieces of PHP and WordPress behaviour the plugin relies on: the values it
    passes around, string truthiness, `abs($count) == 1`, the `%d` conversion of
    `sprintf` and WordPress's `untrailingslashit`. */
module Php {

  datatype Option<+T> = None | Some(value: T)

  /** A PHP value as the plugin handles it: the arguments of a translation call,
      the arrays it serializes for hashing and the cache array it exports. */
  datatype Value =
    | Null
    | Int(i: int)
    | Str(s: string)
    | List(items: seq<Value>)            // an array with keys 0, 1, ..., n - 1
    | Dict(entries: map<string, string>) // an array from string keys to strings

  /** PHP's truthiness of a string: only "" and "0" are false. */
  predicate Truthy(s: string) {
    s != "" && s != "0"
  }

  /** `abs($count) == 1` for an integer count; any other value is not one. */
  predicate AbsIsOne(count: Value) {
    count.Int? && (count.i == 1 || count.i == -1)
  }

  predicate IsDigit(c: char) {
    '0' <= c <= '9'
  }

  function DigitChar(d: nat): (c: char)
    requires d < 10
    ensures IsDigit(c) && c as int - '0' as int == d
  {
    (d + '0' as int) as char
  }

  /** The number a string of decimal digits denotes (the reading side of `%d`). */
  function DigitsValue(s: string): int {
    if s == [] then 0 else DigitsValue(s[..|s| - 1]) * 10 + (s[|s| - 1] as int - '0' as int)
  }

  /** The number a `%d` rendering denotes, with an optional leading minus sign. */
  function DecimalValue(s: string): int {
    if s != [] && s[0] == '-' then -DigitsValue(s[1..]) else DigitsValue(s)
  }

  /** A PHP integer literal: an optional minus sign, then at least one digit. */
  predicate Numeral(s: string) {
    var start := if s != [] && s[0] == '-' then 1 else 0;
    start < |s| && forall i :: start <= i < |s| ==> IsDigit(s[i])
  }

  /** The decimal digits of `n`, most significant first, without leading zeros. */
  function NatDigits(n: nat): (s: string)
    ensures |s| > 0 && forall i :: 0 <= i < |s| ==> IsDigit(s[i])
    ensures |s| > 1 ==> s[0] != '0'
    ensures DigitsValue(s) == n
    decreases n
  {
    if n < 10 then [DigitChar(n)]
    else
      var prefix := NatDigits(n / 10);
      var s := prefix + [DigitChar(n % 10)];
      assert s[..|s| - 1] == prefix;
      s
  }

  /** `sprintf('%d', n)`: a minus sign for negative numbers, then the digits. */
  function Decimal(n: int): (s: string)
    ensures |s| > 0 && (s[0] == '-' <==> n < 0)
    ensures forall i :: (if n < 0 then 1 else 0) <= i < |s| ==> IsDigit(s[i])
    ensures Numeral(s)
    ensures DecimalValue(s) == n
  {
    if n < 0 then
      var digits := NatDigits(-n);
      assert ("-" + digits)[1..] == digits;
      "-" + digits
    else NatDigits(n)
  }

  predicate IsSlash(c: char) {
    c == '/' || c == '\\'
  }

  /** WordPress `untrailingslashit`: strips every trailing '/' and '\'. */
  function Untrailingslashit(s: string): (r: string)
    ensures r <= s
    ensures r == [] || !IsSlash(r[|r| - 1])
    ensures forall i :: |r| <= i < |s| ==> IsSlash(s[i])
  {
    if s != [] && IsSlash(s[|s| - 1]) then Untrailingslashit(s[..|s| - 1]) else s
  }
}
