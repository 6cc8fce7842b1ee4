/**
 * The string formatting the tools rely on, written out with Python's semantics:
 * `format(n, "0<w>X")` (upper-case hexadecimal, zero padded, a leading '-' for
 * negative values), `"<w>d"` (decimal, right aligned with spaces), `"<w"`
 * (left aligned), `str.join`, `in` on strings and `str.replace`.
 */
module Text {

  /** One byte, as Python's `bytes` yields it when indexed. */
  type Byte = b: int | 0 <= b < 256

  predicate IsHexDigit(c: char) {
    '0' <= c <= '9' || 'A' <= c <= 'F' || 'a' <= c <= 'f'
  }

  predicate IsUpperHexDigit(c: char) {
    '0' <= c <= '9' || 'A' <= c <= 'F'
  }

  predicate AllHexDigits(s: string) {
    forall i :: 0 <= i < |s| ==> IsHexDigit(s[i])
  }

  /** The value of one hexadecimal digit, either case. */
  function HexValue(c: char): (v: nat)
    requires IsHexDigit(c)
    ensures v < 16
  {
    if '0' <= c <= '9' then c as int - '0' as int
    else if 'A' <= c <= 'F' then c as int - 'A' as int + 10
    else c as int - 'a' as int + 10
  }

  /** The upper-case digit for a value below 16; HexValue reads it back. */
  function HexDigit(d: nat): (c: char)
    requires d < 16
    ensures IsUpperHexDigit(c) && IsHexDigit(c)
    ensures HexValue(c) == d
  {
    if d < 10 then ('0' as int + d) as char else ('A' as int + d - 10) as char
  }

  /** The shortest upper-case hexadecimal spelling of n ("0" for zero). */
  function HexDigits(n: nat): (s: string)
    ensures 1 <= |s|
    decreases n
  {
    if n < 16 then [HexDigit(n)] else HexDigits(n / 16) + [HexDigit(n % 16)]
  }

  /** The value of a string of hexadecimal digits, most significant first. */
  function HexNumber(s: string): nat
    requires AllHexDigits(s)
  {
    if s == [] then 0 else HexNumber(s[..|s| - 1]) * 16 + HexValue(s[|s| - 1])
  }

  function Repeat(c: char, n: nat): (s: string)
    ensures |s| == n
  {
    if n == 0 then [] else Repeat(c, n - 1) + [c]
  }

  /** Right-aligns s in a field of width w, filling with `fill`. */
  function PadLeft(s: string, w: nat, fill: char): string {
    if |s| < w then Repeat(fill, w - |s|) + s else s
  }

  /** Python's `"{:<w}".format(s)`: left-aligned, padded with spaces. */
  function PadRight(s: string, w: nat): string {
    if |s| < w then s + Repeat(' ', w - |s|) else s
  }

  /** Python's `format(n, "0<width>X")`. */
  function FormatHex(n: int, width: nat): string {
    if n >= 0 then PadLeft(HexDigits(n), width, '0')
    else "-" + PadLeft(HexDigits(-n), if width > 0 then width - 1 else 0, '0')
  }

  function Pow16(k: nat): (p: nat)
    ensures p >= 1
  {
    if k == 0 then 1 else 16 * Pow16(k - 1)
  }

  function DecDigit(d: nat): (c: char)
    requires d < 10
    ensures '0' <= c <= '9'
  {
    ('0' as int + d) as char
  }

  function DecDigits(n: nat): (s: string)
    ensures 1 <= |s|
    decreases n
  {
    if n < 10 then [DecDigit(n)] else DecDigits(n / 10) + [DecDigit(n % 10)]
  }

  /** Python's `str(n)` / `"%d" % n` for an integer. */
  function FormatDec(n: int): string {
    if n < 0 then "-" + DecDigits(-n) else DecDigits(n)
  }

  /** Python's `str.join`. */
  function Join(sep: string, parts: seq<string>): string {
    if parts == [] then ""
    else if |parts| == 1 then parts[0]
    else parts[0] + sep + Join(sep, parts[1..])
  }

  predicate IsPrefix(p: string, s: string) {
    |p| <= |s| && s[..|p|] == p
  }

  /** Python's `sub in s`. */
  predicate Contains(s: string, sub: string)
    decreases |s|
  {
    IsPrefix(sub, s) || (|s| > 0 && Contains(s[1..], sub))
  }

  /** Python's `s.replace(pat, rep)`: every occurrence, left to right, without overlap. */
  function ReplaceAll(s: string, pat: string, rep: string): string
    requires pat != []
    decreases |s|
  {
    if |s| < |pat| then s
    else if IsPrefix(pat, s) then rep + ReplaceAll(s[|pat|..], pat, rep)
    else [s[0]] + ReplaceAll(s[1..], pat, rep)
  }

  /** `" ".join(f"{b:02X}" for b in bs)`. */
  function HexBytes(bs: seq<Byte>): string {
    if bs == [] then ""
    else if |bs| == 1 then FormatHex(bs[0], 2)
    else FormatHex(bs[0], 2) + " " + HexBytes(bs[1..])
  }

  /** f(i), f(i + 16), f(i + 32), ... for the positions below n: one entry per 16-byte line. */
  function Every16<T>(f: nat -> T, n: nat, i: nat): seq<T>
    decreases n - i
  {
    if i >= n then [] else [f(i)] + Every16(f, n, i + 16)
  }

  /** There are ⌈(n - i)/16⌉ entries. */
  lemma {:induction false} Every16Length<T>(f: nat -> T, n: nat, i: nat)
    requires i <= n
    ensures |Every16(f, n, i)| == (n - i + 15) / 16
    decreases n - i
  {
    if i < n {
      if i + 16 <= n {
        Every16Length(f, n, i + 16);
      } else {
        assert Every16(f, n, i + 16) == [];
      }
    }
  }

  /** Entry k is f(i + 16k). */
  lemma {:induction false} Every16At<T>(f: nat -> T, n: nat, i: nat, k: nat)
    requires k < |Every16(f, n, i)|
    ensures i + 16 * k < n && Every16(f, n, i)[k] == f(i + 16 * k)
    decreases k
  {
    if k > 0 {
      Every16At(f, n, i + 16, k - 1);
      assert i + 16 + 16 * (k - 1) == i + 16 * k;
    }
  }

  /** One step of a loop that builds `whole` front to back: x moves from what is left to what is done. */
  lemma Advance<T>(done: seq<T>, x: T, rest: seq<T>, left: seq<T>, whole: seq<T>)
    requires done + left == whole && left == [x] + rest
    ensures (done + [x]) + rest == whole
  {
    assert (done + [x]) + rest == done + ([x] + rest);
  }

  lemma Every16Step<T>(f: nat -> T, n: nat, i: nat)
    requires i < n
    ensures Every16(f, n, i) == [f(i)] + Every16(f, n, i + 16)
  {
  }

  lemma {:induction false} DecDigitsAreDigits(n: nat)
    ensures forall i :: 0 <= i < |DecDigits(n)| ==> '0' <= DecDigits(n)[i] <= '9'
    decreases n
  {
    if n >= 10 {
      DecDigitsAreDigits(n / 10);
    }
  }

  // ---------------------------------------------------------------------------
  // Properties of the hexadecimal formatting
  // ---------------------------------------------------------------------------

  lemma {:induction false} HexNumberLeadingZeros(k: nat, s: string)
    requires AllHexDigits(s)
    ensures AllHexDigits(Repeat('0', k) + s)
    ensures HexNumber(Repeat('0', k) + s) == HexNumber(s)
    decreases |s|
  {
    var z := Repeat('0', k);
    if s == [] {
      assert z + s == z;
      ZerosAreZero(k);
    } else {
      var init := s[..|s| - 1];
      HexNumberLeadingZeros(k, init);
      assert (z + s)[..|z + s| - 1] == z + init;
      assert (z + s)[|z + s| - 1] == s[|s| - 1];
    }
  }

  lemma {:induction false} ZerosAreZero(k: nat)
    ensures AllHexDigits(Repeat('0', k)) && HexNumber(Repeat('0', k)) == 0
  {
    if k > 0 {
      ZerosAreZero(k - 1);
      var z := Repeat('0', k);
      assert z[..k - 1] == Repeat('0', k - 1);
    }
  }

  /** Reading back the shortest hexadecimal spelling gives the number. */
  lemma {:induction false} HexDigitsRoundTrip(n: nat)
    ensures AllHexDigits(HexDigits(n)) && HexNumber(HexDigits(n)) == n
    decreases n
  {
    if n >= 16 {
      HexDigitsRoundTrip(n / 16);
      var s := HexDigits(n);
      assert s[..|s| - 1] == HexDigits(n / 16);
    }
  }

  /** `format(n, "0<w>X")` of a non-negative number reads back as n, whatever the width. */
  lemma FormatHexRoundTrip(n: nat, width: nat)
    ensures AllHexDigits(FormatHex(n, width))
    ensures HexNumber(FormatHex(n, width)) == n
  {
    var d := HexDigits(n);
    HexDigitsRoundTrip(n);
    if |d| < width {
      assert FormatHex(n, width) == Repeat('0', width - |d|) + d;
      HexNumberLeadingZeros(width - |d|, d);
    } else {
      assert FormatHex(n, width) == d;
    }
  }

  lemma {:induction false} HexDigitsLength(n: nat, k: nat)
    requires 1 <= k && n < Pow16(k)
    ensures |HexDigits(n)| <= k
    decreases k
  {
    if n >= 16 {
      assert k >= 2;
      HexDigitsLength(n / 16, k - 1);
    }
  }

  /** A number below 16^w is spelt with exactly w digits, all upper case. */
  lemma FormatHexWidth(n: nat, width: nat)
    requires 1 <= width && n < Pow16(width)
    ensures |FormatHex(n, width)| == width
    ensures forall i :: 0 <= i < width ==> IsUpperHexDigit(FormatHex(n, width)[i])
  {
    HexDigitsLength(n, width);
    var d := HexDigits(n);
    HexDigitsUpper(n);
    if |d| < width {
      RepeatAll('0', width - |d|);
      var r := FormatHex(n, width);
      assert r == Repeat('0', width - |d|) + d;
      forall i | 0 <= i < width
        ensures IsUpperHexDigit(r[i])
      {
        if i >= width - |d| {
          assert r[i] == d[i - (width - |d|)];
        }
      }
    }
  }

  lemma {:induction false} HexDigitsUpper(n: nat)
    ensures forall i :: 0 <= i < |HexDigits(n)| ==> IsUpperHexDigit(HexDigits(n)[i])
    decreases n
  {
    if n >= 16 {
      HexDigitsUpper(n / 16);
    }
  }

  lemma {:induction false} RepeatAll(c: char, n: nat)
    ensures forall i :: 0 <= i < n ==> Repeat(c, n)[i] == c
  {
    if n > 0 {
      RepeatAll(c, n - 1);
    }
  }

  /** Each byte takes two digits and bytes are separated by one space. */
  lemma {:induction false} HexBytesLength(bs: seq<Byte>)
    ensures |HexBytes(bs)| == if bs == [] then 0 else 3 * |bs| - 1
    decreases |bs|
  {
    if bs != [] {
      ByteHex(bs[0]);
      if |bs| > 1 {
        HexBytesLength(bs[1..]);
      }
    }
  }

  /** A byte is spelt as its high nibble then its low nibble. */
  lemma ByteHex(b: Byte)
    ensures FormatHex(b, 2) == [HexDigit(b / 16), HexDigit(b % 16)]
  {
    if b >= 16 {
      assert HexDigits(b) == HexDigits(b / 16) + [HexDigit(b % 16)];
    }
  }
}
