/** The pieces of JavaScript value semantics the booking code relies on:
    truthiness of the values read out of a parsed JSON body, the text a
    template literal gives them, `String.prototype.trim`, and decimal
    number text as the passenger select writes it and `Number` reads it. */
module Js {

  /** A property read from a parsed JSON object: `Undefined` is a key that
      is not there; JSON itself supplies null, booleans, numbers, strings. */
  datatype Value = Undefined | Null | Bool(b: bool) | Num(n: int) | Str(s: string)

  /** JavaScript's ToBoolean: the falsy values are undefined, null, false, 0 and "". */
  predicate Truthy(v: Value) {
    match v
    case Undefined => false
    case Null => false
    case Bool(b) => b
    case Num(n) => n != 0
    case Str(s) => s != ""
  }

  /** The text `${v}` inserts into a template literal. */
  function ToText(v: Value): (t: string)
    ensures v.Str? ==> t == v.s
    ensures Truthy(v) ==> t != ""
  {
    match v
    case Undefined => "undefined"
    case Null => "null"
    case Bool(b) => if b then "true" else "false"
    case Num(n) => IntToDecimal(n)
    case Str(s) => s
  }

  // ---------------------------------------------------------------------
  // Decimal digit strings

  predicate IsDigit(c: char) {
    '0' <= c <= '9'
  }

  predicate AllDigits(s: string) {
    forall i :: 0 <= i < |s| ==> IsDigit(s[i])
  }

  function DigitValue(c: char): (d: nat)
    requires IsDigit(c)
    ensures d < 10
  {
    (c as int) - ('0' as int)
  }

  function DigitChar(d: nat): (c: char)
    requires d < 10
    ensures IsDigit(c) && DigitValue(c) == d
  {
    ('0' as int + d) as char
  }

  /** `Number(s)` for a string made only of decimal digits (leading zeros
      are read as JavaScript reads them: "05" is 5). */
  function DecimalValue(s: string): (n: nat)
    requires AllDigits(s)
    ensures n < Pow10(|s|)
  {
    if s == [] then 0 else 10 * DecimalValue(s[..|s| - 1]) + DigitValue(s[|s| - 1])
  }

  function Pow10(k: nat): (p: nat)
    ensures p >= 1
  {
    if k == 0 then 1 else 10 * Pow10(k - 1)
  }

  /** The decimal text of a natural number, as `toString()` writes it. */
  function NatToDecimal(n: nat): (s: string)
    ensures |s| > 0 && AllDigits(s)
    ensures s[0] == '0' <==> n == 0
    ensures n == 0 ==> s == "0"
  {
    if n < 10 then [DigitChar(n)] else NatToDecimal(n / 10) + [DigitChar(n % 10)]
  }

  /** The decimal text of an integer, with a leading minus sign when negative. */
  function IntToDecimal(n: int): (s: string)
    ensures |s| > 0
    ensures n < 0 <==> s[0] == '-'
  {
    if n < 0 then "-" + NatToDecimal(-n) else NatToDecimal(n)
  }

  /** Reading back the text of a number gives the number. */
  lemma {:induction false} DecimalRoundTrip(n: nat)
    ensures DecimalValue(NatToDecimal(n)) == n
  {
    var s := NatToDecimal(n);
    if n >= 10 {
      DecimalRoundTrip(n / 10);
      assert s[..|s| - 1] == NatToDecimal(n / 10);
    }
  }

  /** Two numbers with the same text are the same number. */
  lemma DecimalInjective(m: nat, n: nat)
    requires NatToDecimal(m) == NatToDecimal(n)
    ensures m == n
  {
    DecimalRoundTrip(m);
    DecimalRoundTrip(n);
  }

  // ---------------------------------------------------------------------
  // String.prototype.trim

  /** The characters `trim` removes from both ends: the WhiteSpace code
      points (tab, vertical tab, form feed, the byte order mark and every
      space separator) and the LineTerminator code points. */
  predicate IsBlank(c: char) {
    || c == '\t' || c == '\n' || c == '\U{000B}' || c == '\U{000C}' || c == '\r'
    || c == ' ' || c == '\U{00A0}' || c == '\U{1680}'
    || ('\U{2000}' <= c <= '\U{200A}')
    || c == '\U{2028}' || c == '\U{2029}' || c == '\U{202F}' || c == '\U{205F}'
    || c == '\U{3000}' || c == '\U{FEFF}'
  }

  predicate AllBlank(s: string) {
    forall i :: 0 <= i < |s| ==> IsBlank(s[i])
  }

  function TrimStart(s: string): string {
    if s != [] && IsBlank(s[0]) then TrimStart(s[1..]) else s
  }

  function TrimEnd(s: string): string {
    if s != [] && IsBlank(s[|s| - 1]) then TrimEnd(s[..|s| - 1]) else s
  }

  /** `s.trim()` */
  function Trim(s: string): string {
    TrimEnd(TrimStart(s))
  }

  lemma {:induction false} TrimStartAt(s: string, i: nat)
    requires i <= |s|
    requires forall k :: 0 <= k < i ==> IsBlank(s[k])
    requires i < |s| ==> !IsBlank(s[i])
    ensures TrimStart(s) == s[i..]
  {
    if i > 0 {
      TrimStartAt(s[1..], i - 1);
      assert s[1..][i - 1..] == s[i..];
    }
  }

  lemma {:induction false} TrimEndAt(s: string, j: nat)
    requires j <= |s|
    requires forall k :: j <= k < |s| ==> IsBlank(s[k])
    requires 0 < j ==> !IsBlank(s[j - 1])
    ensures TrimEnd(s) == s[..j]
  {
    if j < |s| {
      TrimEndAt(s[..|s| - 1], j);
      assert s[..|s| - 1][..j] == s[..j];
    }
  }

  /** Trimming keeps exactly the part between the first and the last
      character that is not blank: for any split of `s` into a blank
      prefix, a core that starts and ends with a non-blank character (or
      is empty, when all of `s` is blank) and a blank suffix, `Trim(s)` is
      that core. */
  lemma TrimIsCore(s: string, i: nat, j: nat)
    requires i <= j <= |s|
    requires forall k :: 0 <= k < i ==> IsBlank(s[k])
    requires forall k :: j <= k < |s| ==> IsBlank(s[k])
    requires i < j ==> !IsBlank(s[i]) && !IsBlank(s[j - 1])
    requires i == j ==> AllBlank(s)
    ensures Trim(s) == s[i..j]
  {
    if i < j {
      TrimStartAt(s, i);
      TrimEndAt(s[i..], j - i);
      assert s[i..][..j - i] == s[i..j];
    } else {
      TrimStartAt(s, |s|);
      TrimEndAt(s[|s|..], 0);
    }
  }

  /** Trimming leaves nothing exactly when every character is blank. */
  lemma {:induction false} TrimEmptyIffAllBlank(s: string)
    ensures Trim(s) == [] <==> AllBlank(s)
  {
    if AllBlank(s) {
      TrimIsCore(s, |s|, |s|);
    } else {
      var i :| 0 <= i < |s| && !IsBlank(s[i]);
      TrimStartNonBlank(s, i);
    }
  }

  /** A string with a non-blank character keeps one after trimming. */
  lemma {:induction false} TrimStartNonBlank(s: string, i: nat)
    requires i < |s| && !IsBlank(s[i])
    ensures Trim(s) != []
  {
    var a :| 0 <= a <= i && (forall k :: 0 <= k < a ==> IsBlank(s[k])) && !IsBlank(s[a]) by {
      FirstNonBlank(s, i);
    }
    var b :| i <= b < |s| && (forall k :: b < k < |s| ==> IsBlank(s[k])) && !IsBlank(s[b]) by {
      LastNonBlank(s, i);
    }
    TrimIsCore(s, a, b + 1);
  }

  lemma {:induction false} FirstNonBlank(s: string, i: nat)
    requires i < |s| && !IsBlank(s[i])
    ensures exists a :: 0 <= a <= i && (forall k :: 0 <= k < a ==> IsBlank(s[k])) && !IsBlank(s[a])
  {
    if exists k :: 0 <= k < i && !IsBlank(s[k]) {
      var k :| 0 <= k < i && !IsBlank(s[k]);
      FirstNonBlank(s, k);
    } else {
      assert (forall k :: 0 <= k < i ==> IsBlank(s[k])) && !IsBlank(s[i]);
    }
  }

  lemma {:induction false} LastNonBlank(s: string, i: nat)
    requires i < |s| && !IsBlank(s[i])
    ensures exists b :: i <= b < |s| && (forall k :: b < k < |s| ==> IsBlank(s[k])) && !IsBlank(s[b])
    decreases |s| - i
  {
    if exists k :: i < k < |s| && !IsBlank(s[k]) {
      var k :| i < k < |s| && !IsBlank(s[k]);
      LastNonBlank(s, k);
    } else {
      assert (forall k :: i < k < |s| ==> IsBlank(s[k])) && !IsBlank(s[i]);
    }
  }
}
