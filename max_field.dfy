/**
 * The fetch limit max_mails (6 at start) and its update from the text
 * field: on every edit the text is parsed as with Integer.parseInt, and a
 * blank or unparseable text leaves the limit as it was. The field starts
 * with Integer.toString of the limit.
 */
module MaxField {
  import opened Outcomes

  const MinInt: int := -0x8000_0000
  const MaxInt: int := 0x7fff_ffff

  /**
   * Character.isWhitespace: the ASCII controls tab through carriage return
   * and the four separators U+001C to U+001F, and the Unicode space, line and
   * paragraph separators other than the non-breaking ones.
   */
  predicate IsJavaWhitespace(c: char) {
    var n := c as int;
    || 0x09 <= n <= 0x0D
    || 0x1C <= n <= 0x20
    || n == 0x1680
    || 0x2000 <= n <= 0x2006
    || 0x2008 <= n <= 0x200A
    || n == 0x2028 || n == 0x2029 || n == 0x205F || n == 0x3000
  }

  /** String.isBlank: empty or whitespace only. */
  predicate IsBlank(s: string) {
    forall i :: 0 <= i < |s| ==> IsJavaWhitespace(s[i])
  }

  predicate IsDigit(c: char) {
    '0' <= c <= '9'
  }

  predicate AllDigits(s: string) {
    forall i :: 0 <= i < |s| ==> IsDigit(s[i])
  }

  /** The value of a string of decimal digits, most significant first. */
  function DigitsValue(s: string): nat
    requires AllDigits(s)
  {
    if s == [] then 0 else DigitsValue(s[..|s| - 1]) * 10 + (s[|s| - 1] - '0') as int
  }

  /**
   * Integer.parseInt with radix 10, for ASCII digits: an optional sign, at
   * least one digit, and a value within the 32-bit range; anything else is
   * a NumberFormatException (None).
   */
  function ParseInt(s: string): (r: Option<int>)
    ensures r.Some? ==> MinInt <= r.value <= MaxInt
  {
    if s == [] then None
    else
      var signed := s[0] == '-' || s[0] == '+';
      var digits := if signed then s[1..] else s;
      if digits == [] || !AllDigits(digits) then None
      else
        var v: int := if s[0] == '-' then -(DigitsValue(digits) as int) else DigitsValue(digits);
        if MinInt <= v <= MaxInt then Some(v) else None
  }

  /** The decimal digits of n, most significant first, without leading zeros. */
  function Digits(n: nat): (r: string)
    ensures r != [] && AllDigits(r)
  {
    if n < 10 then [('0' as int + n) as char]
    else Digits(n / 10) + [('0' as int + n % 10) as char]
  }

  /** Integer.toString: a minus sign for negative values, then the digits. */
  function ToDecimal(n: int): string {
    if n < 0 then "-" + Digits(-n) else Digits(n)
  }

  lemma {:induction false} DigitsValueOfDigits(n: nat)
    ensures DigitsValue(Digits(n)) == n
  {
    if n >= 10 {
      DigitsValueOfDigits(n / 10);
      var d := Digits(n);
      assert d[..|d| - 1] == Digits(n / 10);
    }
  }

  /** Parsing what Integer.toString printed gives the value back, for every 32-bit value. */
  lemma ParseToDecimal(n: int)
    requires MinInt <= n <= MaxInt
    ensures ParseInt(ToDecimal(n)) == Some(n)
  {
    var s := ToDecimal(n);
    if n < 0 {
      var d := Digits(-n);
      DigitsValueOfDigits(-n);
      assert s[0] == '-' && s[1..] == d;
      assert DigitsValue(s[1..]) == -n;
    } else {
      var d := Digits(n);
      DigitsValueOfDigits(n);
      assert IsDigit(d[0]);
      assert s == d;
    }
  }

  /** A blank text never parses, so the blank check only spares the exception. */
  lemma BlankNeverParses(s: string)
    requires IsBlank(s)
    ensures ParseInt(s).None?
  {
    if s != [] {
      assert IsJavaWhitespace(s[0]);
    }
  }

  /** The limit after the field shows `text`. */
  function Updated(current: int, text: string): int {
    if !IsBlank(text) && ParseInt(text).Some? then ParseInt(text).value else current
  }

  /**
   * The effect of one edit: the limit becomes exactly the parsed value when
   * the text parses, and otherwise (blank, not a number, out of range) stays;
   * a limit reached this way, or the default, is always a 32-bit value.
   */
  lemma UpdatedCases(current: int, text: string)
    ensures ParseInt(text).Some? ==> Updated(current, text) == ParseInt(text).value
    ensures ParseInt(text).None? ==> Updated(current, text) == current
    ensures MinInt <= current <= MaxInt ==> MinInt <= Updated(current, text) <= MaxInt
  {
    if ParseInt(text).Some? {
      if IsBlank(text) {
        BlankNeverParses(text);
      }
    }
  }

  class Settings {
    var maxMails: int

    constructor ()
      ensures maxMails == 6
    {
      maxMails := 6;
    }

    /** The text field's listener: reads the text and updates the limit if it parses. */
    method Update(text: string)
      modifies this
      ensures maxMails == Updated(old(maxMails), text)
    {
      if !IsBlank(text) {
        var parsed := ParseInt(text);
        if parsed.Some? {
          maxMails := parsed.value;
        }
      }
    }
  }
}
