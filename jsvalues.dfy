/** JavaScript values and conversions that the dialogs rely on: `parseInt(s, 10)`,
    `Number(v) || 0` and `n.toString()`, restricted to integers. A JavaScript `NaN`
    is `None`. */
module JsValues {

  datatype Option<+T> = None | Some(value: T) {
    function GetOr(default: T): T {
      match this
      case Some(v) => v
      case None => default
    }
  }

  /** One slot of an `(number | string)[]` array. `Hole` is a slot never assigned,
      left by assigning past the end of the array; `Undefined` is a slot that holds the
      value `undefined`. Iteration (a spread) reads a hole as `undefined`, while `map`
      and `reduce` skip it. */
  datatype Cell = Num(n: int) | Str(s: string) | Undefined | Hole

  predicate IsDigit(c: char) {
    '0' <= c <= '9'
  }

  predicate AllDigits(s: string) {
    forall i :: 0 <= i < |s| ==> IsDigit(s[i])
  }

  /** The white space that `parseInt` and `Number` skip. */
  predicate IsSpace(c: char) {
    c == ' ' || c == '\t' || c == '\n' || c == '\r' || c == '\U{B}' || c == '\U{C}'
    || c == '\U{A0}' || c == '\U{2028}' || c == '\U{2029}' || c == '\U{FEFF}'
  }

  function TrimStart(s: string): (r: string)
    ensures |r| <= |s| && r == s[|s| - |r|..]
    ensures r != [] ==> !IsSpace(r[0])
    ensures forall i :: 0 <= i < |s| - |r| ==> IsSpace(s[i])
  {
    if s != [] && IsSpace(s[0]) then TrimStart(s[1..]) else s
  }

  function TrimEnd(s: string): (r: string)
    ensures |r| <= |s| && r == s[..|r|]
    ensures r != [] ==> !IsSpace(r[|r| - 1])
    ensures forall i :: |r| <= i < |s| ==> IsSpace(s[i])
  {
    if s != [] && IsSpace(s[|s| - 1]) then TrimEnd(s[..|s| - 1]) else s
  }

  /** The longest prefix of `s` made of decimal digits. */
  function DigitPrefix(s: string): (r: string)
    ensures |r| <= |s| && r == s[..|r|]
    ensures AllDigits(r)
    ensures |r| < |s| ==> !IsDigit(s[|r|])
  {
    if s != [] && IsDigit(s[0]) then [s[0]] + DigitPrefix(s[1..]) else []
  }

  function DigitValue(c: char): nat
    requires IsDigit(c)
  {
    (c - '0') as nat
  }

  /** The value of a string of decimal digits, read left to right. */
  function DigitsValue(ds: string): nat
    requires AllDigits(ds)
  {
    if ds == [] then 0 else DigitsValue(ds[..|ds| - 1]) * 10 + DigitValue(ds[|ds| - 1])
  }

  /** `parseInt(s, 10)`: leading white space is skipped, one optional sign is read,
      then the longest run of digits; `None` (NaN) when that run is empty. */
  function ParseInt(s: string): (r: Option<int>)
    ensures r.Some? ==> exists i :: 0 <= i < |s| && IsDigit(s[i])
  {
    var t := TrimStart(s);
    var negative := t != [] && t[0] == '-';
    var unsigned := if t != [] && (t[0] == '-' || t[0] == '+') then t[1..] else t;
    var ds := DigitPrefix(unsigned);
    var magnitude: int := if ds == [] then 0 else DigitsValue(ds);
    if ds == [] then None
    else Some(if negative then -magnitude else magnitude)
  }

  /** `Number(s)` for a string, limited to optionally signed decimal integers:
      the whole string, once trimmed, must be numeric; the empty string is 0. */
  function StringToNumber(s: string): (r: Option<int>)
    ensures (forall i :: 0 <= i < |s| ==> IsSpace(s[i])) ==> r == Some(0)
  {
    var t := TrimEnd(TrimStart(s));
    var negative := t != [] && t[0] == '-';
    var unsigned := if t != [] && (t[0] == '-' || t[0] == '+') then t[1..] else t;
    if t == [] then Some(0)
    else if unsigned != [] && AllDigits(unsigned) then
      var magnitude: int := DigitsValue(unsigned);
      Some(if negative then -magnitude else magnitude)
    else None
  }

  /** `Number(v) || 0`: NaN (and 0) read as 0. */
  function NumberOrZero(v: Cell): (r: int)
    ensures v == Undefined || v == Hole ==> r == 0
  {
    match v
    case Num(n) => n
    case Str(s) => StringToNumber(s).GetOr(0)
    case Undefined => 0
    case Hole => 0
  }

  function DigitChar(d: nat): (c: char)
    requires d < 10
    ensures IsDigit(c) && DigitValue(c) == d
  {
    ('0' as int + d) as char
  }

  /** The decimal rendering of a natural number, without leading zeros. */
  function NatToString(n: nat): (r: string)
    ensures r != [] && AllDigits(r)
    ensures r[0] == '0' ==> n == 0
  {
    if n < 10 then [DigitChar(n)] else NatToString(n / 10) + [DigitChar(n % 10)]
  }

  /** `n.toString()` for an integer. */
  function IntToString(n: int): (r: string)
    ensures r != [] && (r[0] == '-' || IsDigit(r[0]))
  {
    if n < 0 then "-" + NatToString(-n) else NatToString(n)
  }

  lemma {:induction false} NatToStringValue(n: nat)
    ensures DigitsValue(NatToString(n)) == n
  {
    var r := NatToString(n);
    if n >= 10 {
      NatToStringValue(n / 10);
      assert r[..|r| - 1] == NatToString(n / 10);
    }
  }

  lemma TrimStartUnspaced(s: string)
    requires s == [] || !IsSpace(s[0])
    ensures TrimStart(s) == s
  {
  }

  lemma TrimEndUnspaced(s: string)
    requires s == [] || !IsSpace(s[|s| - 1])
    ensures TrimEnd(s) == s
  {
  }

  lemma DigitPrefixOfDigits(ds: string)
    requires AllDigits(ds)
    ensures DigitPrefix(ds) == ds
  {
    DigitPrefixOfConcat(ds, []);
    assert ds + [] == ds;
  }

  /** A plain digit string parses to its value, with `parseInt` and with `Number`. */
  lemma ParseDigits(ds: string)
    requires ds != [] && AllDigits(ds)
    ensures ParseInt(ds) == Some(DigitsValue(ds))
    ensures StringToNumber(ds) == Some(DigitsValue(ds))
  {
    assert IsDigit(ds[0]) && IsDigit(ds[|ds| - 1]);
    TrimStartUnspaced(ds);
    TrimEndUnspaced(ds);
    DigitPrefixOfDigits(ds);
  }

  /** `parseInt` reads back what `toString` wrote. */
  lemma ParseIntOfIntToString(n: int)
    ensures ParseInt(IntToString(n)) == Some(n)
  {
    var m: nat := if n < 0 then -n else n;
    var digits := NatToString(m);
    NatToStringValue(m);
    if n < 0 {
      var s := IntToString(n);
      assert s == "-" + digits;
      TrimStartUnspaced(s);
      assert s[1..] == digits;
      DigitPrefixOfDigits(digits);
    } else {
      ParseDigits(digits);
    }
  }

  /** `parseInt` stops at the first character that is not a digit. */
  lemma ParseIntIgnoresSuffix(ds: string, rest: string)
    requires ds != [] && AllDigits(ds)
    requires rest == [] || !IsDigit(rest[0])
    ensures ParseInt(ds + rest) == Some(DigitsValue(ds))
  {
    var s := ds + rest;
    assert s[0] == ds[0] && IsDigit(s[0]);
    TrimStartUnspaced(s);
    DigitPrefixOfConcat(ds, rest);
    assert DigitPrefix(s) == ds;
  }

  lemma {:induction false} DigitPrefixOfConcat(ds: string, rest: string)
    requires AllDigits(ds)
    requires rest == [] || !IsDigit(rest[0])
    ensures DigitPrefix(ds + rest) == ds
  {
    if ds != [] {
      assert (ds + rest)[1..] == ds[1..] + rest;
      DigitPrefixOfConcat(ds[1..], rest);
    }
  }

  /** A digit string is worth more than 0 exactly when one of its digits is not '0'. */
  lemma {:induction false} DigitsValuePositive(ds: string)
    requires AllDigits(ds)
    ensures DigitsValue(ds) > 0 <==> exists i :: 0 <= i < |ds| && ds[i] != '0'
  {
    if ds != [] {
      var init := ds[..|ds| - 1];
      DigitsValuePositive(init);
      if DigitsValue(ds) > 0 {
        if DigitsValue(init) > 0 {
          var i :| 0 <= i < |init| && init[i] != '0';
          assert ds[i] != '0';
        } else {
          assert ds[|ds| - 1] != '0';
        }
      } else {
        forall i | 0 <= i < |ds| ensures ds[i] == '0' {
          if i < |init| {
            assert init[i] == ds[i];
          }
        }
      }
    }
  }
}
