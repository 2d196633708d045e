/** The hex-width computation of the `uuid!` macro's diagnostics: the number of
    hexadecimal digits (nibbles) needed to write a character's code point,
    counted by shifting the code point right by four bits until it is zero.
 */
module HexWidth {

  /** 16 to the power n. */
  function Pow16(n: nat): (p: nat)
    ensures p >= 1
  {
    if n == 0 then 1 else 16 * Pow16(n - 1)
  }

  /** The number of hex digits of n, with no digit at all for zero: the count
      the shifting loop arrives at. */
  function HexDigits(n: nat): nat
  {
    if n == 0 then 0 else 1 + HexDigits(n / 16)
  }

  /** The lowercase hexadecimal digit of a value below 16. */
  function HexDigit(d: nat): (ch: char)
    requires d < 16
    ensures '0' <= ch <= '9' || 'a' <= ch <= 'f'
  {
    if d < 10 then '0' + d as char else 'a' + (d - 10) as char
  }

  /** The value of a lowercase hexadecimal digit. */
  function DigitValue(ch: char): (d: nat)
    requires '0' <= ch <= '9' || 'a' <= ch <= 'f'
    ensures d < 16
  {
    if ch <= '9' then (ch - '0') as nat else (ch - 'a') as nat + 10
  }

  /** A reference rendering of n in lowercase hexadecimal without leading
      zeros, as `{:x}` formatting prints it (zero prints as "0"). */
  function HexString(n: nat): (s: seq<char>)
    ensures |s| >= 1
    ensures forall k :: 0 <= k < |s| ==> '0' <= s[k] <= '9' || 'a' <= s[k] <= 'f'
    ensures n > 0 ==> s[0] != '0'
  {
    if n < 16 then [HexDigit(n)] else HexString(n / 16) + [HexDigit(n % 16)]
  }

  /** The number a string of lowercase hexadecimal digits denotes. */
  function HexValue(s: seq<char>): nat
    requires forall k :: 0 <= k < |s| ==> '0' <= s[k] <= '9' || 'a' <= s[k] <= 'f'
  {
    if s == [] then 0 else 16 * HexValue(s[..|s| - 1]) + DigitValue(s[|s| - 1])
  }

  /** The nibble-counting loop of the `Char` arm: `bytes` starts as the code
      point, is shifted right by 4 until it is zero, and `width` counts the
      shifts. The code point is an unsigned 32-bit value, so the shift is a
      division by 16 rounding down. The result is the number of hex digits of
      the code point. */
  method NibbleWidth(character: char) returns (width: nat)
    ensures width == HexDigits(character as int)
    ensures width == 0 <==> character == '\0'
    ensures character as int < Pow16(width)
    ensures width > 0 ==> Pow16(width - 1) <= character as int
  {
    var bytes: nat := character as nat;
    width := 0;
    while bytes != 0
      invariant width + HexDigits(bytes) == HexDigits(character as int)
      decreases bytes
    {
      bytes := bytes / 16;
      width := width + 1;
    }
    HexDigitsBounds(character as int);
  }

  /** HexDigits(n) is the least w with n < 16^w: for a positive n,
      16^(w-1) <= n < 16^w. */
  lemma {:induction false} HexDigitsBounds(n: nat)
    ensures n < Pow16(HexDigits(n))
    ensures n > 0 ==> Pow16(HexDigits(n) - 1) <= n
  {
    if n > 0 {
      HexDigitsBounds(n / 16);
    }
  }

  /** The bounds determine the digit count: any w with 16^(w-1) <= n < 16^w
      is HexDigits(n). */
  lemma {:induction false} HexDigitsUnique(n: nat, w: nat)
    requires w > 0 && Pow16(w - 1) <= n < Pow16(w)
    ensures HexDigits(n) == w
  {
    if w > 1 {
      assert Pow16(w - 2) <= n / 16 < Pow16(w - 1);
      HexDigitsUnique(n / 16, w - 1);
    } else {
      assert n / 16 == 0;
    }
  }

  /** Every code point from 0x10 to 0xFF, printable ASCII among them, has
      exactly two hex digits. */
  lemma TwoDigitCodePoints(c: char)
    requires 0x10 <= c as int <= 0xFF
    ensures HexDigits(c as int) == 2
  {
    HexDigitsUnique(c as int, 2);
  }

  /** 16^w grows with w. */
  lemma {:induction false} Pow16Monotone(v: nat, w: nat)
    requires v <= w
    ensures Pow16(v) <= Pow16(w)
  {
    if v < w {
      Pow16Monotone(v, w - 1);
    }
  }

  /** No Unicode scalar value (at most 0x10FFFF) needs more than six hex digits. */
  lemma CodePointWidthAtMostSix(c: char)
    ensures HexDigits(c as int) <= 6
  {
    var w := HexDigits(c as int);
    HexDigitsBounds(c as int);
    if w > 6 {
      Pow16Monotone(6, w - 1);
      assert false;
    }
  }

  /** The width counted by the loop is the length of the code point's
      hexadecimal rendering, except for NUL: its rendering "0" has one digit
      while the loop counts none. */
  lemma {:induction false} HexStringLength(n: nat)
    ensures n > 0 ==> |HexString(n)| == HexDigits(n)
    ensures n == 0 ==> |HexString(n)| == 1 && HexDigits(n) == 0
  {
    if n >= 16 {
      HexStringLength(n / 16);
    }
  }

  /** The reference rendering denotes the number it renders. */
  lemma {:induction false} HexStringValue(n: nat)
    ensures HexValue(HexString(n)) == n
  {
    if n >= 16 {
      HexStringValue(n / 16);
      var s := HexString(n);
      assert s[..|s| - 1] == HexString(n / 16);
      assert s[|s| - 1] == HexDigit(n % 16);
    }
  }
}
