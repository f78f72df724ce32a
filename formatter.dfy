/**
 * The formatter of the lotto generator: one number pair of a bet becomes one
 * ticket line, "NN NN AMOUNT", with " R" appended for a Rambolito bet.
 *
 * JavaScript's `String(n)` on an integer is `IntToString` (plain decimal, a
 * leading '-' for negatives) and `padStart(2, '0')` is `PadStart`.
 * `ParseInt` reads a rendered integer back; it is the inverse that shows two
 * different bets never share a ticket line.
 */
module Formatter {
  import opened Expander

  predicate IsDigit(c: char) {
    '0' <= c <= '9'
  }

  /** The character of the decimal digit `d`. */
  function DigitChar(d: int): (c: char)
    requires 0 <= d <= 9
    ensures IsDigit(c) && c as int == 48 + d
  {
    (48 + d) as char
  }

  /** The value of a decimal digit character. */
  function DigitValue(c: char): (d: int)
    requires IsDigit(c)
    ensures 0 <= d <= 9 && DigitChar(d) == c
  {
    c as int - 48
  }

  /** Decimal digits of `n`, without leading zeros. */
  function NatToString(n: nat): string
    decreases n
  {
    if n < 10 then [DigitChar(n)] else NatToString(n / 10) + [DigitChar(n % 10)]
  }

  /** JavaScript's `String(n)` for an integer `n`. */
  function IntToString(n: int): string {
    if n < 0 then "-" + NatToString(-n) else NatToString(n)
  }

  /** `s.padStart(width, fill)` for a one-character `fill`. */
  function PadStart(s: string, width: nat, fill: char): string {
    if |s| >= width then s else seq(width - |s|, _ => fill) + s
  }

  /** The marker that ends the line of a Rambolito bet. */
  const RambolitoMarker: string := " R"

  /** The source's `formatCombination`. */
  function FormatCombination(num1: int, num2: int, amount: int, isRambolito: bool): string {
    PadStart(IntToString(num1), 2, '0') + " " + PadStart(IntToString(num2), 2, '0') + " "
      + IntToString(amount) + (if isRambolito then RambolitoMarker else "")
  }

  // ---------------------------------------------------------------------------
  // Reading numbers back
  // ---------------------------------------------------------------------------

  predicate AllDigits(s: string) {
    forall i :: 0 <= i < |s| ==> IsDigit(s[i])
  }

  /** The value of a string of decimal digits. */
  function ParseNat(s: string): nat
    requires AllDigits(s)
    decreases |s|
  {
    if s == [] then 0 else ParseNat(s[..|s| - 1]) * 10 + DigitValue(s[|s| - 1])
  }

  /** A rendered integer: digits, optionally after a '-'. */
  predicate IsIntText(s: string) {
    if |s| > 0 && s[0] == '-' then AllDigits(s[1..]) else AllDigits(s)
  }

  /** The value of a rendered integer. */
  function ParseInt(s: string): int
    requires IsIntText(s)
  {
    if |s| > 0 && s[0] == '-' then 0 - ParseNat(s[1..]) else ParseNat(s)
  }

  // ---------------------------------------------------------------------------
  // Properties
  // ---------------------------------------------------------------------------

  /** Padding keeps the text at the end, reaches at least `width` characters
      and fills the front with `fill` only. */
  lemma PadStartShape(s: string, width: nat, fill: char)
    ensures |PadStart(s, width, fill)| == if |s| < width then width else |s|
    ensures PadStart(s, width, fill)[|PadStart(s, width, fill)| - |s|..] == s
    ensures forall i :: 0 <= i < |PadStart(s, width, fill)| - |s| ==> PadStart(s, width, fill)[i] == fill
  {
  }

  /** The decimal digits of `n` read back as `n`; a single digit exactly when n < 10. */
  lemma {:induction false} NatToStringRoundTrip(n: nat)
    ensures AllDigits(NatToString(n)) && ParseNat(NatToString(n)) == n
    ensures |NatToString(n)| >= 1 && (|NatToString(n)| == 1 <==> n < 10)
    decreases n
  {
    var s := NatToString(n);
    if n < 10 {
      assert s[..0] == [];
    } else {
      NatToStringRoundTrip(n / 10);
      assert s[..|s| - 1] == NatToString(n / 10);
    }
  }

  /** `IntToString` is undone by `ParseInt`, and its text ends in a digit. */
  lemma IntToStringRoundTrip(n: int)
    ensures IsIntText(IntToString(n)) && ParseInt(IntToString(n)) == n
    ensures |IntToString(n)| >= 1 && IsDigit(IntToString(n)[|IntToString(n)| - 1])
    ensures forall i :: 0 <= i < |IntToString(n)| ==> IsDigit(IntToString(n)[i]) || IntToString(n)[i] == '-'
  {
    if n < 0 {
      NatToStringRoundTrip(-n);
      assert IntToString(n)[1..] == NatToString(-n);
    } else {
      NatToStringRoundTrip(n);
      assert IntToString(n)[0] == NatToString(n)[0];
    }
  }

  /** A game number is padded to exactly its two decimal digits. */
  lemma TwoDigits(n: int)
    requires InRange(n)
    ensures PadStart(IntToString(n), 2, '0') == [DigitChar(n / 10), DigitChar(n % 10)]
  {
    if n >= 10 {
      assert NatToString(n) == NatToString(n / 10) + [DigitChar(n % 10)];
    }
  }

  /** The layout of a ticket line: two two-digit numbers, the amount, the marker. */
  lemma FormatShape(num1: int, num2: int, amount: int, isRambolito: bool)
    requires InRange(num1) && InRange(num2)
    ensures FormatCombination(num1, num2, amount, isRambolito) ==
      [DigitChar(num1 / 10), DigitChar(num1 % 10), ' ', DigitChar(num2 / 10), DigitChar(num2 % 10), ' ']
      + IntToString(amount) + (if isRambolito then RambolitoMarker else "")
  {
    var pad1 := PadStart(IntToString(num1), 2, '0');
    var pad2 := PadStart(IntToString(num2), 2, '0');
    TwoDigits(num1);
    TwoDigits(num2);
    var text := IntToString(amount);
    var marker := if isRambolito then RambolitoMarker else "";
    var head := [DigitChar(num1 / 10), DigitChar(num1 % 10), ' ', DigitChar(num2 / 10), DigitChar(num2 % 10), ' '];
    assert pad1 + " " + pad2 + " " == head;
    assert FormatCombination(num1, num2, amount, isRambolito) == (pad1 + " " + pad2 + " ") + text + marker;
  }

  /** A line made of a six-character head, a text ending in a digit and the
      optional marker can be taken apart again. */
  lemma SplitLine(head: string, text: string, isRambolito: bool)
    requires |head| == 6 && |text| >= 1 && IsDigit(text[|text| - 1])
    ensures var s := head + text + (if isRambolito then RambolitoMarker else "");
      && s[..6] == head
      && (s[|s| - 1] == 'R' <==> isRambolito)
      && s[6..|s| - (if isRambolito then 2 else 0)] == text
  {
    var s := head + text + (if isRambolito then RambolitoMarker else "");
    if !isRambolito {
      assert s == head + text;
    }
  }

  /** What a ticket line on game numbers reveals: both numbers, the amount's
      text and whether the bet is Rambolito. */
  lemma FormatParts(num1: int, num2: int, amount: int, isRambolito: bool)
    requires InRange(num1) && InRange(num2)
    ensures var s := FormatCombination(num1, num2, amount, isRambolito);
      && |s| >= 7
      && s[0] as int - 48 == num1 / 10 && s[1] as int - 48 == num1 % 10
      && s[3] as int - 48 == num2 / 10 && s[4] as int - 48 == num2 % 10
      && (s[|s| - 1] == 'R' <==> isRambolito)
      && s[6..|s| - (if isRambolito then 2 else 0)] == IntToString(amount)
  {
    FormatShape(num1, num2, amount, isRambolito);
    var text := IntToString(amount);
    assert |text| >= 1 && IsDigit(text[|text| - 1]) by {
      IntToStringRoundTrip(amount);
    }
    var head := [DigitChar(num1 / 10), DigitChar(num1 % 10), ' ', DigitChar(num2 / 10), DigitChar(num2 % 10), ' '];
    SplitLine(head, IntToString(amount), isRambolito);
  }

  /** Two bets on game numbers give the same ticket line exactly when they are
      the same bet. */
  lemma FormatInjective(a1: int, a2: int, aAmount: int, aFlag: bool, b1: int, b2: int, bAmount: int, bFlag: bool)
    requires InRange(a1) && InRange(a2) && InRange(b1) && InRange(b2)
    ensures FormatCombination(a1, a2, aAmount, aFlag) == FormatCombination(b1, b2, bAmount, bFlag)
        <==> a1 == b1 && a2 == b2 && aAmount == bAmount && aFlag == bFlag
  {
    FormatParts(a1, a2, aAmount, aFlag);
    FormatParts(b1, b2, bAmount, bFlag);
    IntToStringRoundTrip(aAmount);
    IntToStringRoundTrip(bAmount);
  }

  /** A ticket line is a single line of text. */
  lemma FormatNoNewline(num1: int, num2: int, amount: int, isRambolito: bool)
    ensures '\n' !in FormatCombination(num1, num2, amount, isRambolito)
  {
    var pad1 := PadStart(IntToString(num1), 2, '0');
    var pad2 := PadStart(IntToString(num2), 2, '0');
    var text := IntToString(amount);
    NoNewlineInInt(num1);
    NoNewlineInInt(num2);
    NoNewlineInInt(amount);
    assert '\n' !in pad1 by {
      PadStartShape(IntToString(num1), 2, '0');
      assert forall i :: 0 <= i < |pad1| ==> pad1[i] == '0' || pad1[i] in IntToString(num1);
    }
    assert '\n' !in pad2 by {
      PadStartShape(IntToString(num2), 2, '0');
      assert forall i :: 0 <= i < |pad2| ==> pad2[i] == '0' || pad2[i] in IntToString(num2);
    }
    var marker := if isRambolito then RambolitoMarker else "";
    assert FormatCombination(num1, num2, amount, isRambolito) == pad1 + " " + pad2 + " " + text + marker;
  }

  lemma NoNewlineInInt(n: int)
    ensures '\n' !in IntToString(n)
  {
    IntToStringRoundTrip(n);
  }

  /** The line of the source's own example: 1 and 2 for 20 as a Rambolito bet. */
  lemma FormatExample()
    ensures FormatCombination(1, 2, 20, true) == "01 02 20 R"
    ensures FormatCombination(1, 2, 20, false) == "01 02 20"
  {
    assert NatToString(20) == "20";
  }
}
