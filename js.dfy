/** The few JavaScript runtime facilities the player relies on: optional values
    (`undefined`), the conversions `String(n)` and `Number(s)` on the values the
    program stores, and the browser's `localStorage`. */
module Js {

  datatype Option<+T> = None | Some(value: T)

  /** A JavaScript number as the player produces and reads it: a whole
      non-negative number, or `NaN`. */
  datatype Number = Whole(n: nat) | NaN

  predicate IsDigit(c: char) {
    '0' <= c <= '9'
  }

  predicate AllDigits(s: string) {
    forall i :: 0 <= i < |s| ==> IsDigit(s[i])
  }

  function DigitChar(d: nat): (c: char)
    requires d < 10
    ensures IsDigit(c) && c as int - '0' as int == d
  {
    ('0' as int + d) as char
  }

  /** `String(n)` for a whole number: its shortest decimal numeral.  Exact for
      the numbers the program writes; JavaScript switches to exponent form
      from 1e21 up. */
  function NatToString(n: nat): (s: string)
    ensures |s| >= 1 && AllDigits(s)
    ensures s[0] == '0' <==> n == 0
    ensures n < 10 <==> |s| == 1
    decreases n
  {
    if n < 10 then [DigitChar(n)] else NatToString(n / 10) + [DigitChar(n % 10)]
  }

  /** The value of a numeral, most significant digit first. */
  function DecimalValue(s: string): nat
    requires AllDigits(s)
  {
    if s == [] then 0 else DecimalValue(s[..|s| - 1]) * 10 + (s[|s| - 1] as int - '0' as int)
  }

  /** `String(x)` for the numbers the player writes. */
  function NumberToString(x: Number): string {
    match x
    case Whole(n) => NatToString(n)
    case NaN => "NaN"
  }

  /** `String(i)` for an integer, as written for a song index. */
  function IntToString(i: int): string {
    if i >= 0 then NatToString(i) else "-" + NatToString(-i)
  }

  /** `Number(s)` restricted to numerals: a non-empty string of decimal digits
      is read as its value, anything else as `NaN`. */
  function ToNumber(s: string): (x: Number)
    ensures x.Whole? <==> s != [] && AllDigits(s)
  {
    if s != [] && AllDigits(s) then Whole(DecimalValue(s)) else NaN
  }

  lemma {:induction false} DecimalValueOfNatToString(n: nat)
    ensures DecimalValue(NatToString(n)) == n
    decreases n
  {
    var s := NatToString(n);
    if n >= 10 {
      DecimalValueOfNatToString(n / 10);
      assert s[..|s| - 1] == NatToString(n / 10);
    }
  }

  /** Reading back what `String` wrote gives the same number, `NaN` included. */
  lemma NumberRoundTrip(x: Number)
    ensures ToNumber(NumberToString(x)) == x
  {
    match x
    case Whole(n) => DecimalValueOfNatToString(n);
    case NaN => assert !IsDigit(NumberToString(x)[0]);
  }

  /** A stored index read back with `Number` is the index that was written;
      a negative one, or the text `undefined`, reads as no index at all. */
  lemma IndexRoundTrip(i: int)
    ensures ToNumber(IntToString(i)) == if i >= 0 then Whole(i) else NaN
    ensures ToNumber("undefined") == NaN
  {
    if i >= 0 {
      NumberRoundTrip(Whole(i));
    } else {
      assert !IsDigit(IntToString(i)[0]);
    }
    assert !IsDigit("undefined"[0]);
  }

  /** The browser's `localStorage`: one string-to-string map shared by every
      part of the program. */
  class Storage {
    var items: map<string, string>

    constructor (items: map<string, string>)
      ensures this.items == items
    {
      this.items := items;
    }

    /** `getItem(key)`: `null` (here `None`) when the key is not set. */
    function GetItem(key: string): (r: Option<string>)
      reads this
      ensures r.Some? <==> key in items
      ensures r.Some? ==> r.value == items[key]
    {
      if key in items then Some(items[key]) else None
    }

    method SetItem(key: string, value: string)
      modifies this
      ensures items == old(items)[key := value]
    {
      items := items[key := value];
    }

    method RemoveItem(key: string)
      modifies this
      ensures items == old(items) - {key}
    {
      items := items - {key};
    }
  }
}
