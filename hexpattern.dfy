/**
 * The byte pattern of the search tool: the text the caller typed with every
 * space removed and upper-cased, then read by Python's `bytes.fromhex`, which
 * refuses text holding a non-ASCII character, takes two hexadecimal digits
 * per byte and skips whitespace only where a new byte would start.
 */
module HexPattern {
  import opened Wrappers
  import opened Text

  /** The whitespace `bytes.fromhex` skips (space, \t, \n, \r, \v, \f). */
  predicate IsSpace(c: char) {
    c == ' ' || c == '\t' || c == '\n' || c == '\r' || c == '\U{B}' || c == '\U{C}'
  }

  predicate IsAscii(c: char) {
    c as int < 128
  }

  /** `s.replace(" ", "")`: only the space character itself is removed. */
  function StripSpaces(s: string): string {
    if s == [] then [] else (if s[0] == ' ' then [] else [s[0]]) + StripSpaces(s[1..])
  }

  /** The upper case of an ASCII character. */
  function UpperChar(c: char): char {
    if 'a' <= c <= 'z' then (c as int - 32) as char else c
  }

  /**
   * `c.upper()` under Python's full case mapping, written out for ASCII and
   * for the seventeen other characters whose upper case holds an ASCII
   * character. Every other character is kept as it is: its upper case, like
   * the character itself, holds no ASCII character.
   */
  function UpperOf(c: char): (u: string)
    ensures 1 <= |u| <= 3
    ensures IsAscii(c) ==> u == [UpperChar(c)]
  {
    if IsAscii(c) then [UpperChar(c)]
    else if c == '\U{DF}' then "SS"
    else if c == '\U{131}' then "I"
    else if c == '\U{149}' then ['\U{2BC}', 'N']
    else if c == '\U{17F}' then "S"
    else if c == '\U{1F0}' then ['J', '\U{30C}']
    else if c == '\U{1E96}' then ['H', '\U{331}']
    else if c == '\U{1E97}' then ['T', '\U{308}']
    else if c == '\U{1E98}' then ['W', '\U{30A}']
    else if c == '\U{1E99}' then ['Y', '\U{30A}']
    else if c == '\U{1E9A}' then ['A', '\U{2BE}']
    else if c == '\U{FB00}' then "FF"
    else if c == '\U{FB01}' then "FI"
    else if c == '\U{FB02}' then "FL"
    else if c == '\U{FB03}' then "FFI"
    else if c == '\U{FB04}' then "FFL"
    else if c == '\U{FB05}' || c == '\U{FB06}' then "ST"
    else [c]
  }

  /** Python's `s.upper()`, character by character. */
  function Upper(s: string): (r: string)
    ensures |s| <= |r| <= 3 * |s|
  {
    if s == [] then [] else UpperOf(s[0]) + Upper(s[1..])
  }

  /** The characters of s other than the whitespace `bytes.fromhex` skips. */
  function RemoveWhitespace(s: string): string {
    if s == [] then [] else (if IsSpace(s[0]) then [] else [s[0]]) + RemoveWhitespace(s[1..])
  }

  /** The position of the first non-ASCII character of s, or |s| when there is none. */
  function FirstNonAscii(s: string): (k: nat)
    ensures k <= |s|
    ensures forall i :: 0 <= i < k ==> IsAscii(s[i])
    ensures k < |s| ==> !IsAscii(s[k])
  {
    if s == [] || !IsAscii(s[0]) then 0 else 1 + FirstNonAscii(s[1..])
  }

  /**
   * `bytes.fromhex` on the ASCII suffix s of the argument, whose first
   * character sits at position `at`; an error carries the position Python
   * reports: the first digit that is not hexadecimal, or the end of the text
   * when the last byte lacks its second digit.
   */
  function FromHexAt(s: string, at: nat): Result<seq<Byte>, nat>
    decreases |s|
  {
    if s == [] then Ok([])
    else if IsSpace(s[0]) then FromHexAt(s[1..], at + 1)
    else if !IsHexDigit(s[0]) then Err(at)
    else if |s| == 1 || !IsHexDigit(s[1]) then Err(at + 1)
    else
      match FromHexAt(s[2..], at + 2)
      case Ok(rest) => Ok([HexValue(s[0]) * 16 + HexValue(s[1])] + rest)
      case Err(pos) => Err(pos)
  }

  /**
   * `bytes.fromhex(s)`: a text holding a non-ASCII character is refused at the
   * first such character, before any digit is looked at.
   */
  function FromHex(s: string): Result<seq<Byte>, nat> {
    var k := FirstNonAscii(s);
    if k < |s| then Err(k) else FromHexAt(s, 0)
  }

  /** The pattern text as the tool echoes it back: spaces removed, upper-cased. */
  function PatternText(raw: string): string {
    Upper(StripSpaces(raw))
  }

  /** Parses the pattern argument of the search tool. */
  function ParsePattern(raw: string): Result<seq<Byte>, nat> {
    FromHex(PatternText(raw))
  }

  /** The `ValueError` text of `bytes.fromhex`. */
  function FromHexMessage(pos: nat): string {
    "non-hexadecimal number found in fromhex() arg at position " + FormatDec(pos)
  }

  /** Two upper-case digits per byte, no separator: the canonical spelling of a pattern. */
  function EncodeHex(p: seq<Byte>): string {
    if p == [] then [] else FormatHex(p[0], 2) + EncodeHex(p[1..])
  }

  // ---------------------------------------------------------------------------
  // Properties
  // ---------------------------------------------------------------------------

  lemma HexPair(b: Byte)
    ensures var d := FormatHex(b, 2);
      && |d| == 2 && IsHexDigit(d[0]) && IsHexDigit(d[1])
      && !IsSpace(d[0]) && !IsSpace(d[1])
      && HexValue(d[0]) * 16 + HexValue(d[1]) == b
  {
    ByteHex(b);
  }

  /** Reading back the canonical spelling of a pattern gives the pattern. */
  lemma {:induction false} EncodeHexRoundTrip(p: seq<Byte>, at: nat)
    ensures FromHexAt(EncodeHex(p), at) == Ok(p)
    decreases |p|
  {
    if p != [] {
      var s := EncodeHex(p);
      HexPair(p[0]);
      assert s[2..] == EncodeHex(p[1..]);
      EncodeHexRoundTrip(p[1..], at + 2);
      assert [p[0]] + p[1..] == p;
    }
  }

  /**
   * The space-separated spelling the dump tools print (`HexBytes`) is a valid
   * pattern for the same bytes, before and after the tool strips its spaces.
   */
  lemma {:induction false} HexBytesRoundTrip(p: seq<Byte>, at: nat)
    ensures FromHexAt(HexBytes(p), at) == Ok(p)
    decreases |p|
  {
    if |p| == 1 {
      var s := HexBytes(p);
      HexPair(p[0]);
      assert s[2..] == [];
      PairStep(s, at);
      var q: seq<Byte> := [p[0]] + [];
      assert q == p;
    } else if |p| > 1 {
      var s := HexBytes(p);
      HexPair(p[0]);
      assert s[2..][0] == ' ';
      assert s[2..][1..] == HexBytes(p[1..]);
      HexBytesRoundTrip(p[1..], at + 3);
      PairStep(s, at);
      assert [p[0]] + p[1..] == p;
    }
  }

  lemma {:induction false} StripSpacesOfHexBytes(p: seq<Byte>)
    ensures StripSpaces(HexBytes(p)) == EncodeHex(p)
    decreases |p|
  {
    if |p| == 1 {
      StripOneByte(p);
    } else if |p| > 1 {
      StripSpacesOfHexBytes(p[1..]);
      StripNextByte(p);
    }
  }

  lemma StripOneByte(p: seq<Byte>)
    requires |p| == 1
    ensures StripSpaces(HexBytes(p)) == EncodeHex(p)
  {
    var d := FormatHex(p[0], 2);
    HexPair(p[0]);
    StripTwo(d);
    assert EncodeHex(p) == d + EncodeHex([]);
  }

  lemma StripNextByte(p: seq<Byte>)
    requires |p| > 1 && StripSpaces(HexBytes(p[1..])) == EncodeHex(p[1..])
    ensures StripSpaces(HexBytes(p)) == EncodeHex(p)
  {
    var d := FormatHex(p[0], 2);
    var rest := HexBytes(p[1..]);
    HexPair(p[0]);
    assert HexBytes(p) == d + (" " + rest);
    StripPair(d, rest);
  }

  /** Two non-space characters, a space, then the rest: only the space goes. */
  lemma StripPair(d: string, rest: string)
    requires |d| == 2 && d[0] != ' ' && d[1] != ' '
    ensures StripSpaces(d + (" " + rest)) == d + StripSpaces(rest)
  {
    StripConcat(d, " " + rest);
    StripConcat(" ", rest);
    assert StripSpaces(" ") == [];
    StripTwo(d);
  }

  lemma StripTwo(d: string)
    requires |d| == 2 && d[0] != ' ' && d[1] != ' '
    ensures StripSpaces(d) == d
  {
    assert StripSpaces(d[1..]) == [d[1]] by {
      assert d[1..][1..] == [];
    }
    assert StripSpaces(d) == [d[0]] + [d[1]];
  }

  lemma {:induction false} StripConcat(a: string, b: string)
    ensures StripSpaces(a + b) == StripSpaces(a) + StripSpaces(b)
    decreases |a|
  {
    if a != [] {
      assert (a + b)[1..] == a[1..] + b;
      StripConcat(a[1..], b);
    } else {
      assert a + b == b;
    }
  }

  /** On ASCII text `upper()` keeps the length and upper-cases each letter in place. */
  lemma {:induction false} UpperAscii(s: string)
    requires forall i :: 0 <= i < |s| ==> IsAscii(s[i])
    ensures |Upper(s)| == |s|
    ensures forall i :: 0 <= i < |s| ==> Upper(s)[i] == UpperChar(s[i])
    decreases |s|
  {
    if s != [] {
      UpperAscii(s[1..]);
      assert Upper(s) == [UpperChar(s[0])] + Upper(s[1..]);
    }
  }

  lemma {:induction false} UpperConcat(a: string, b: string)
    ensures Upper(a + b) == Upper(a) + Upper(b)
    decreases |a|
  {
    if a != [] {
      assert (a + b)[1..] == a[1..] + b;
      UpperConcat(a[1..], b);
    } else {
      assert a + b == b;
    }
  }

  lemma UpperOfEncoded(p: seq<Byte>)
    ensures Upper(EncodeHex(p)) == EncodeHex(p)
    ensures FirstNonAscii(EncodeHex(p)) == |EncodeHex(p)|
  {
    var e := EncodeHex(p);
    EncodeHexUpper(p);
    UpperAscii(e);
  }

  lemma {:induction false} EncodeHexUpper(p: seq<Byte>)
    ensures forall i :: 0 <= i < |EncodeHex(p)| ==> IsUpperHexDigit(EncodeHex(p)[i])
    decreases |p|
  {
    if p != [] {
      EncodeHexUpper(p[1..]);
      ByteHex(p[0]);
    }
  }

  /** A byte string copied from the dump tools and pasted as a search pattern parses back to it. */
  lemma ParsePrintedBytes(p: seq<Byte>)
    ensures ParsePattern(HexBytes(p)) == Ok(p)
    ensures PatternText(HexBytes(p)) == EncodeHex(p)
  {
    StripSpacesOfHexBytes(p);
    UpperOfEncoded(p);
    EncodeHexRoundTrip(p, 0);
  }

  lemma HexDigitOfValue(c: char)
    requires IsHexDigit(c)
    ensures HexDigit(HexValue(c)) == UpperChar(c)
  {
  }

  /**
   * Whatever fromhex accepts is, once its whitespace is dropped and its
   * letters upper-cased, the canonical spelling of the bytes it returns: every
   * other character is a hexadecimal digit and they pair up into bytes.
   */
  lemma {:induction false} FromHexSound(s: string, at: nat)
    requires FromHexAt(s, at).Ok?
    ensures EncodeHex(FromHexAt(s, at).value) == Upper(RemoveWhitespace(s))
    decreases |s|
  {
    if s == [] {
    } else if IsSpace(s[0]) {
      FromHexSound(s[1..], at + 1);
      assert FromHexAt(s, at) == FromHexAt(s[1..], at + 1);
      assert RemoveWhitespace(s) == RemoveWhitespace(s[1..]) by {
        assert [] + RemoveWhitespace(s[1..]) == RemoveWhitespace(s[1..]);
      }
    } else {
      FromHexSound(s[2..], at + 2);
      SoundPair(s, at);
    }
  }

  /** The step of FromHexSound for a leading pair of digits. */
  lemma SoundPair(s: string, at: nat)
    requires |s| >= 2 && IsHexDigit(s[0]) && IsHexDigit(s[1]) && !IsSpace(s[0])
    requires FromHexAt(s[2..], at + 2).Ok?
    requires EncodeHex(FromHexAt(s[2..], at + 2).value) == Upper(RemoveWhitespace(s[2..]))
    ensures FromHexAt(s, at).Ok?
    ensures EncodeHex(FromHexAt(s, at).value) == Upper(RemoveWhitespace(s))
  {
    var rest := FromHexAt(s[2..], at + 2).value;
    var b: Byte := HexValue(s[0]) * 16 + HexValue(s[1]);
    var p := [b] + rest;
    PairStep(s, at);
    assert p[1..] == rest;
    PairSpelling(s[0], s[1]);
    assert EncodeHex(p) == FormatHex(b, 2) + EncodeHex(rest);
    assert RemoveWhitespace(s) == [s[0], s[1]] + RemoveWhitespace(s[2..]) by {
      assert s[1..][1..] == s[2..];
    }
    UpperConcat([s[0], s[1]], RemoveWhitespace(s[2..]));
  }

  lemma PairSpelling(c0: char, c1: char)
    requires IsHexDigit(c0) && IsHexDigit(c1)
    ensures FormatHex(HexValue(c0) * 16 + HexValue(c1), 2) == Upper([c0, c1])
  {
    var b: Byte := HexValue(c0) * 16 + HexValue(c1);
    ByteHex(b);
    assert b / 16 == HexValue(c0) && b % 16 == HexValue(c1);
    HexDigitOfValue(c0);
    HexDigitOfValue(c1);
    UpperAscii([c0, c1]);
  }

  /** A leading pair of digits is one byte, followed by whatever the rest reads as. */
  lemma PairStep(s: string, at: nat)
    requires |s| >= 2 && IsHexDigit(s[0]) && IsHexDigit(s[1]) && !IsSpace(s[0])
    requires FromHexAt(s[2..], at + 2).Ok?
    ensures FromHexAt(s, at) == Ok([HexValue(s[0]) * 16 + HexValue(s[1])] + FromHexAt(s[2..], at + 2).value)
  {
  }

  /** What fromhex accepts is, without its whitespace, an even number of hexadecimal digits. */
  lemma {:induction false} AcceptedShape(s: string, at: nat)
    requires FromHexAt(s, at).Ok?
    ensures var t := RemoveWhitespace(s);
      |t| % 2 == 0 && forall i :: 0 <= i < |t| ==> IsHexDigit(t[i])
    decreases |s|
  {
    if s != [] {
      if IsSpace(s[0]) {
        AcceptedShape(s[1..], at + 1);
      } else {
        AcceptedShape(s[2..], at + 2);
        assert RemoveWhitespace(s) == [s[0], s[1]] + RemoveWhitespace(s[2..]) by {
          assert s[1..][1..] == s[2..];
        }
      }
    }
  }

  /** An even number of hexadecimal digits, with no whitespace, reads as one byte per pair. */
  lemma {:induction false} AcceptsDigitPairs(s: string, at: nat)
    requires |s| % 2 == 0 && forall i :: 0 <= i < |s| ==> IsHexDigit(s[i])
    ensures FromHexAt(s, at).Ok? && |FromHexAt(s, at).value| == |s| / 2
    decreases |s|
  {
    if s != [] {
      AcceptsDigitPairs(s[2..], at + 2);
    }
  }

  lemma {:induction false} NoWhitespaceToRemove(s: string)
    requires forall i :: 0 <= i < |s| ==> !IsSpace(s[i])
    ensures RemoveWhitespace(s) == s
    decreases |s|
  {
    if s != [] {
      NoWhitespaceToRemove(s[1..]);
      assert s == [s[0]] + s[1..];
    }
  }

  /**
   * The "Invalid hex pattern" cases: when the cleaned pattern holds a
   * character that is neither a digit nor whitespace (a non-ASCII one
   * included), or an odd number of digits, the parse fails.
   */
  lemma RejectsBadPatterns(raw: string)
    requires var t := RemoveWhitespace(PatternText(raw));
      (exists i :: 0 <= i < |t| && !IsHexDigit(t[i])) || |t| % 2 == 1
    ensures ParsePattern(raw).Err?
  {
    if ParsePattern(raw).Ok? {
      AcceptedShape(PatternText(raw), 0);
    }
  }

  /**
   * For a cleaned pattern without whitespace, the parse succeeds exactly when
   * it is an even number of hexadecimal digits, and then yields one byte per
   * pair of digits.
   */
  lemma ParsePatternIff(raw: string)
    requires forall i :: 0 <= i < |PatternText(raw)| ==> !IsSpace(PatternText(raw)[i])
    ensures var t := PatternText(raw);
      ParsePattern(raw).Ok? <==> |t| % 2 == 0 && forall i :: 0 <= i < |t| ==> IsHexDigit(t[i])
    ensures ParsePattern(raw).Ok? ==> |ParsePattern(raw).value| == |PatternText(raw)| / 2
  {
    var t := PatternText(raw);
    NoWhitespaceToRemove(t);
    if ParsePattern(raw).Ok? {
      AcceptedShape(t, 0);
    }
    if |t| % 2 == 0 && forall i :: 0 <= i < |t| ==> IsHexDigit(t[i]) {
      AcceptsDigitPairs(t, 0);
    }
  }

  /**
   * Upper-casing follows Python's full case mapping: the ligature U+FB00 is
   * the two digits "FF", while a non-ASCII character is refused at its own
   * position, before the invalid digit 'G' that precedes it.
   */
  lemma UpperCaseExamples()
    ensures ParsePattern("\U{FB00}") == Ok([0xFF])
    ensures ParsePattern("0g\U{E9}") == Err(2)
  {
    var l := "\U{FB00}";
    assert l[1..] == [];
    assert StripSpaces(l) == l;
    assert Upper(l) == "FF" + Upper([]);
    assert PatternText(l) == "FF";
    assert FirstNonAscii("FF") == 2 by {
      assert "FF"[1..][1..] == [];
    }
    assert FromHexAt("FF"[2..], 2) == Ok([]);
    var ff := "FF";
    assert ff[0] == 'F' && ff[1] == 'F';
    PairStep(ff, 0);
    assert HexValue('F') == 15;
    assert [0xFF] + [] == [0xFF];
    assert FromHexAt("FF", 0) == Ok([0xFF]);
    assert FromHex("FF") == Ok([0xFF]);
    var s := "0g\U{E9}";
    assert StripSpaces(s) == s by {
      assert s[1..][1..][1..] == [];
    }
    assert PatternText(s) == "0G\U{E9}" by {
      assert s[1..][1..][1..] == [];
    }
  }
}
