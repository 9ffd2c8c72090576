/**
 * `Color(hex:)` of both widgets (widgets/ios/TradingTrackerWidget.swift and
 * targets/widget/TradingTrackerWidget.swift carry the same extension): the
 * string is trimmed of non-alphanumeric characters at both ends, read as a
 * hexadecimal UInt64 by `Scanner.scanHexInt64`, and split into 8-bit channels
 * according to the trimmed length. The final division by 255 into a Double is
 * not modelled; the channels stay integers.
 */
module HexColor {
  import opened Arith

  /** Opacity, red, green and blue as the integers before the division by 255. */
  datatype Rgba = Rgba(a: nat, r: nat, g: nat, b: nat)

  const MaxUInt64: nat := 0xFFFF_FFFF_FFFF_FFFF

  /** The ASCII letters and digits (the alphanumerics this model knows). */
  predicate IsAlphanumeric(c: char)
  {
    'a' <= c <= 'z' || 'A' <= c <= 'Z' || '0' <= c <= '9'
  }

  /** Drops leading characters that are not alphanumeric. */
  function TrimStart(s: string): (t: string)
    ensures |t| <= |s| && t == s[|s| - |t|..]
    ensures |t| > 0 ==> IsAlphanumeric(t[0])
    ensures forall k :: 0 <= k < |s| - |t| ==> !IsAlphanumeric(s[k])
  {
    if |s| == 0 || IsAlphanumeric(s[0]) then s
    else
      var t := TrimStart(s[1..]);
      assert forall k :: 1 <= k < |s| - |t| ==> s[k] == s[1..][k - 1];
      t
  }

  /** Drops trailing characters that are not alphanumeric. */
  function TrimEnd(s: string): (t: string)
    ensures |t| <= |s| && t == s[..|t|]
    ensures |t| > 0 ==> IsAlphanumeric(t[|t| - 1])
    ensures forall k :: |t| <= k < |s| ==> !IsAlphanumeric(s[k])
  {
    if |s| == 0 || IsAlphanumeric(s[|s| - 1]) then s
    else TrimEnd(s[..|s| - 1])
  }

  /** `trimmingCharacters(in: CharacterSet.alphanumerics.inverted)`. */
  function Trim(s: string): string
  {
    TrimEnd(TrimStart(s))
  }

  predicate IsHexDigit(c: char)
  {
    '0' <= c <= '9' || 'a' <= c <= 'f' || 'A' <= c <= 'F'
  }

  predicate AllHex(s: string)
  {
    forall k :: 0 <= k < |s| ==> IsHexDigit(s[k])
  }

  function HexDigitValue(c: char): (n: nat)
    requires IsHexDigit(c)
    ensures n < 16
  {
    if '0' <= c <= '9' then c as int - '0' as int
    else if 'a' <= c <= 'f' then c as int - 'a' as int + 10
    else c as int - 'A' as int + 10
  }

  /** The lower-case digit for a nibble. */
  function HexDigitChar(n: nat): (c: char)
    requires n < 16
    ensures IsHexDigit(c) && HexDigitValue(c) == n
  {
    if n < 10 then ('0' as int + n) as char else ('a' as int + n - 10) as char
  }

  function Pow16(k: nat): (p: nat)
    ensures p >= 1
  {
    if k == 0 then 1 else 16 * Pow16(k - 1)
  }

  lemma {:induction false} Pow16Monotone(j: nat, k: nat)
    requires j <= k
    ensures Pow16(j) <= Pow16(k)
  {
    if j < k {
      Pow16Monotone(j, k - 1);
    }
  }

  /** The value of a run of hex digits, most significant first; below 16 to the run's length. */
  function HexValue(ds: string): (n: nat)
    requires AllHex(ds)
    ensures n < Pow16(|ds|)
  {
    if |ds| == 0 then 0
    else
      var init := HexValue(ds[..|ds| - 1]);
      ScaleMonotone(16, Pow16(|ds| - 1), init + 1);
      16 * init + HexDigitValue(ds[|ds| - 1])
  }

  /** The leading run of hex digits. */
  function HexRun(s: string): (run: string)
    ensures |run| <= |s| && run == s[..|run|] && AllHex(run)
    ensures |run| < |s| ==> !IsHexDigit(s[|run|])
  {
    if |s| == 0 || !IsHexDigit(s[0]) then []
    else
      var rest := HexRun(s[1..]);
      assert [s[0]] + rest == s[..|rest| + 1];
      [s[0]] + rest
  }

  /** The text after an optional `0x` or `0X`. */
  function SkipHexPrefix(s: string): (d: string)
    ensures |d| <= |s|
    ensures (|s| < 2 || (s[1] != 'x' && s[1] != 'X')) ==> d == s
  {
    if |s| >= 2 && s[0] == '0' && (s[1] == 'x' || s[1] == 'X') then s[2..] else s
  }

  /** `scanHexInt64`: an optional `0x`/`0X`, then the longest run of hex digits, saturating at
      UInt64.max; 0 when there is no digit. Never more than the string's length allows. */
  function ScanHex(s: string): (v: nat)
    ensures v <= MaxUInt64
    ensures v < Pow16(|s|)
  {
    var digits := SkipHexPrefix(s);
    var run := HexRun(digits);
    Pow16Monotone(|run|, |s|);
    var n := HexValue(run);
    if n > MaxUInt64 then MaxUInt64 else n
  }

  /** Color(hex:) up to the Double conversion: 3 digits are 12-bit RGB with each nibble
      repeated, 6 digits 24-bit RGB, 8 digits 32-bit ARGB, and any other length opaque black.
      Every channel fits in a byte. */
  function Decode(hex: string): (c: Rgba)
    ensures c.a <= 255 && c.r <= 255 && c.g <= 255 && c.b <= 255
    ensures |Trim(hex)| != 3 && |Trim(hex)| != 6 && |Trim(hex)| != 8 ==> c == Rgba(255, 0, 0, 0)
    ensures |Trim(hex)| != 8 ==> c.a == 255
  {
    var t := Trim(hex);
    var v := ScanHex(t);
    Pow16Values();
    if |t| == 3 then FromRgb12(v)
    else if |t| == 6 then FromRgb24(v)
    else if |t| == 8 then FromArgb32(v)
    else Rgba(255, 0, 0, 0)
  }

  /** Three digits: 12-bit RGB, each nibble repeated (`* 17`), opaque. */
  function FromRgb12(v: nat): (c: Rgba)
    requires v < 4096
    ensures c.a == 255 && c.r <= 255 && c.g <= 255 && c.b <= 255
  {
    QuotientBelow(v, 256, 16);
    Rgba(255, (v / 256) * 17, (v / 16 % 16) * 17, (v % 16) * 17)
  }

  /** Six digits: 24-bit RGB, opaque. */
  function FromRgb24(v: nat): (c: Rgba)
    requires v < 16777216
    ensures c.a == 255 && c.r <= 255 && c.g <= 255 && c.b <= 255
  {
    QuotientBelow(v, 65536, 256);
    Rgba(255, v / 65536, v / 256 % 256, v % 256)
  }

  /** Eight digits: 32-bit ARGB, alpha in the top byte. */
  function FromArgb32(v: nat): (c: Rgba)
    requires v < 4294967296
    ensures c.a <= 255 && c.r <= 255 && c.g <= 255 && c.b <= 255
  {
    QuotientBelow(v, 16777216, 256);
    Rgba(v / 16777216, v / 65536 % 256, v / 256 % 256, v % 256)
  }

  // ---------------------------------------------------------------------------
  // Encodings that Decode reads back

  /** A byte as two lower-case hex digits. */
  function HexByte(n: nat): (s: string)
    requires n < 256
    ensures |s| == 2 && AllHex(s)
  {
    [HexDigitChar(n / 16), HexDigitChar(n % 16)]
  }

  function Encode6(r: nat, g: nat, b: nat): string
    requires r < 256 && g < 256 && b < 256
  {
    "#" + HexByte(r) + HexByte(g) + HexByte(b)
  }

  function Encode8(a: nat, r: nat, g: nat, b: nat): string
    requires a < 256 && r < 256 && g < 256 && b < 256
  {
    "#" + HexByte(a) + HexByte(r) + HexByte(g) + HexByte(b)
  }

  function Encode3(r: nat, g: nat, b: nat): string
    requires r < 16 && g < 16 && b < 16
  {
    "#" + [HexDigitChar(r), HexDigitChar(g), HexDigitChar(b)]
  }

  lemma AllHexAppend(a: string, b: string)
    requires AllHex(a) && AllHex(b)
    ensures AllHex(a + b)
  {
    forall k | 0 <= k < |a + b|
      ensures IsHexDigit((a + b)[k])
    {
      if k < |a| {
        assert (a + b)[k] == a[k];
      } else {
        assert (a + b)[k] == b[k - |a|];
      }
    }
  }

  /** Digits read most significant first: appending digits shifts the value left. */
  lemma {:induction false} HexValueAppend(a: string, b: string)
    requires AllHex(a) && AllHex(b)
    ensures AllHex(a + b)
    ensures HexValue(a + b) == HexValue(a) * Pow16(|b|) + HexValue(b)
  {
    AllHexAppend(a, b);
    if |b| > 0 {
      var b' := b[..|b| - 1];
      var d := HexDigitValue(b[|b| - 1]);
      assert AllHex(b');
      assert (a + b)[..|a + b| - 1] == a + b';
      assert (a + b)[|a + b| - 1] == b[|b| - 1];
      HexValueAppend(a, b');
      assert HexValue(a + b) == 16 * HexValue(a + b') + d;
      assert HexValue(b) == 16 * HexValue(b') + d;
      ShiftDigit(HexValue(a), Pow16(|b'|), HexValue(b'), d);
    } else {
      assert a + b == a;
    }
  }

  lemma ShiftDigit(x: int, p: int, y: int, d: int)
    ensures 16 * (x * p + y) + d == x * (16 * p) + (16 * y + d)
  {
  }

  /** Appending a byte's two digits. */
  lemma AppendByte(x: string, y: string)
    requires AllHex(x) && AllHex(y) && |y| == 2
    ensures AllHex(x + y)
    ensures HexValue(x + y) == 256 * HexValue(x) + HexValue(y)
  {
    HexValueAppend(x, y);
    assert Pow16(2) == 256;
  }

  lemma HexByteValue(n: nat)
    requires n < 256
    ensures HexValue(HexByte(n)) == n
  {
    var s := HexByte(n);
    assert s[..1] == [HexDigitChar(n / 16)];
    assert s[..1][..0] == [];
  }

  lemma {:induction false} HexRunOfHex(s: string)
    requires AllHex(s)
    ensures HexRun(s) == s
  {
    if |s| > 0 {
      HexRunOfHex(s[1..]);
    }
  }

  lemma Pow16Values()
    ensures Pow16(3) == 4096 && Pow16(6) == 16777216 && Pow16(8) == 4294967296
  {
    assert Pow16(2) == 256;
    assert Pow16(4) == 65536 by {
      assert Pow16(3) == 16 * Pow16(2);
    }
    assert Pow16(6) == 16777216 by {
      assert Pow16(5) == 16 * Pow16(4);
    }
    assert Pow16(8) == 16 * (16 * Pow16(6));
  }

  /** After a `#`, a string of hex digits is what remains after trimming. */
  lemma TrimHashHex(x: string)
    requires 0 < |x| && AllHex(x)
    ensures Trim("#" + x) == x
  {
    assert IsAlphanumeric(x[0]) && IsAlphanumeric(x[|x| - 1]);
    assert ("#" + x)[1..] == x;
    assert TrimStart("#" + x) == TrimStart(x);
  }

  /** The scanner reads a string of at most 8 hex digits exactly. */
  lemma ScanHexDigits(x: string)
    requires 0 < |x| <= 8 && AllHex(x)
    ensures ScanHex(x) == HexValue(x)
  {
    assert |x| >= 2 ==> IsHexDigit(x[1]);
    assert SkipHexPrefix(x) == x;
    HexRunOfHex(x);
    Pow16Monotone(|x|, 8);
    Pow16Values();
    var n := HexValue(x);
    assert n < 4294967296;
    assert n <= MaxUInt64;
  }

  lemma ReadsWhole(x: string)
    requires 0 < |x| <= 8 && AllHex(x)
    ensures Trim("#" + x) == x
    ensures ScanHex(x) == HexValue(x)
  {
    TrimHashHex(x);
    ScanHexDigits(x);
  }

  lemma HexDigitValueOfOne(c: char)
    requires IsHexDigit(c)
    ensures HexValue([c]) == HexDigitValue(c)
  {
    assert [c][..0] == [];
  }

  lemma SixDigitValue(r: nat, g: nat, b: nat) returns (v: nat)
    requires r < 256 && g < 256 && b < 256
    ensures AllHex(HexByte(r) + HexByte(g) + HexByte(b))
    ensures v == HexValue(HexByte(r) + HexByte(g) + HexByte(b))
    ensures v == 65536 * r + 256 * g + b
  {
    HexByteValue(r);
    HexByteValue(g);
    HexByteValue(b);
    AppendByte(HexByte(r), HexByte(g));
    AppendByte(HexByte(r) + HexByte(g), HexByte(b));
    v := HexValue(HexByte(r) + HexByte(g) + HexByte(b));
  }

  lemma EightDigitValue(a: nat, r: nat, g: nat, b: nat) returns (v: nat)
    requires a < 256 && r < 256 && g < 256 && b < 256
    ensures AllHex(HexByte(a) + HexByte(r) + HexByte(g) + HexByte(b))
    ensures v == HexValue(HexByte(a) + HexByte(r) + HexByte(g) + HexByte(b))
    ensures v == 16777216 * a + 65536 * r + 256 * g + b
  {
    HexByteValue(a);
    HexByteValue(r);
    HexByteValue(g);
    HexByteValue(b);
    AppendByte(HexByte(a), HexByte(r));
    AppendByte(HexByte(a) + HexByte(r), HexByte(g));
    AppendByte(HexByte(a) + HexByte(r) + HexByte(g), HexByte(b));
    v := HexValue(HexByte(a) + HexByte(r) + HexByte(g) + HexByte(b));
  }

  /** The 6-digit case's shifts and masks take three packed bytes apart again. */
  lemma UnpackRgb24(r: nat, g: nat, b: nat)
    requires r < 256 && g < 256 && b < 256
    ensures FromRgb24(65536 * r + 256 * g + b) == Rgba(255, r, g, b)
  {
    var v := 65536 * r + 256 * g + b;
    DivModUnique(v, 65536, r, 256 * g + b);
    DivModUnique(v, 256, 256 * r + g, b);
    DivModUnique(256 * r + g, 256, r, g);
  }

  /** The 8-digit case's shifts and masks take four packed bytes apart again. */
  lemma UnpackArgb32(a: nat, r: nat, g: nat, b: nat)
    requires a < 256 && r < 256 && g < 256 && b < 256
    ensures FromArgb32(16777216 * a + 65536 * r + 256 * g + b) == Rgba(a, r, g, b)
  {
    var v := 16777216 * a + 65536 * r + 256 * g + b;
    DivModUnique(v, 16777216, a, 65536 * r + 256 * g + b);
    DivModUnique(v, 65536, 256 * a + r, 256 * g + b);
    DivModUnique(256 * a + r, 256, a, r);
    DivModUnique(v, 256, 65536 * a + 256 * r + g, b);
    DivModUnique(65536 * a + 256 * r + g, 256, 256 * a + r, g);
  }

  /** The 3-digit case's shifts and masks take three packed nibbles apart again. */
  lemma UnpackRgb12(r: nat, g: nat, b: nat)
    requires r < 16 && g < 16 && b < 16
    ensures FromRgb12(256 * r + 16 * g + b) == Rgba(255, 17 * r, 17 * g, 17 * b)
  {
    var v := 256 * r + 16 * g + b;
    DivModUnique(v, 256, r, 16 * g + b);
    DivModUnique(v, 16, 16 * r + g, b);
    DivModUnique(16 * r + g, 16, r, g);
  }

  lemma DecodeThree(hex: string)
    requires |Trim(hex)| == 3
    ensures Decode(hex) == FromRgb12(ScanHex(Trim(hex)))
  {
  }

  lemma DecodeSix(hex: string)
    requires |Trim(hex)| == 6
    ensures Decode(hex) == FromRgb24(ScanHex(Trim(hex)))
  {
  }

  lemma DecodeEight(hex: string)
    requires |Trim(hex)| == 8
    ensures Decode(hex) == FromArgb32(ScanHex(Trim(hex)))
  {
  }

  /** The 6-digit form reads back as the opaque colour it encodes. */
  lemma DecodeEncode6(r: nat, g: nat, b: nat)
    requires r < 256 && g < 256 && b < 256
    ensures Decode(Encode6(r, g, b)) == Rgba(255, r, g, b)
  {
    var x := HexByte(r) + HexByte(g) + HexByte(b);
    var hex := Encode6(r, g, b);
    assert hex == "#" + x;
    var v := SixDigitValue(r, g, b);
    ReadsWhole(x);
    DecodeSix(hex);
    assert ScanHex(Trim(hex)) == 65536 * r + 256 * g + b;
    UnpackRgb24(r, g, b);
  }

  /** The 8-digit form reads back with its alpha byte. */
  lemma DecodeEncode8(a: nat, r: nat, g: nat, b: nat)
    requires a < 256 && r < 256 && g < 256 && b < 256
    ensures Decode(Encode8(a, r, g, b)) == Rgba(a, r, g, b)
  {
    var x := HexByte(a) + HexByte(r) + HexByte(g) + HexByte(b);
    var hex := Encode8(a, r, g, b);
    assert hex == "#" + x;
    var v := EightDigitValue(a, r, g, b);
    ReadsWhole(x);
    DecodeEight(hex);
    assert ScanHex(Trim(hex)) == 16777216 * a + 65536 * r + 256 * g + b;
    UnpackArgb32(a, r, g, b);
  }

  /** The 3-digit form repeats each nibble: 0xF becomes 0xFF. */
  lemma DecodeEncode3(r: nat, g: nat, b: nat)
    requires r < 16 && g < 16 && b < 16
    ensures Decode(Encode3(r, g, b)) == Rgba(255, 17 * r, 17 * g, 17 * b)
  {
    var cr, cg, cb := [HexDigitChar(r)], [HexDigitChar(g)], [HexDigitChar(b)];
    var x := cr + cg + cb;
    var hex := Encode3(r, g, b);
    assert hex == "#" + x;
    HexDigitValueOfOne(HexDigitChar(r));
    assert x[..2] == cr + cg && (cr + cg)[..1] == cr;
    assert HexValue(cr + cg) == 16 * r + g;
    assert HexValue(x) == 256 * r + 16 * g + b;
    ReadsWhole(x);
    DecodeThree(hex);
    assert ScanHex(Trim(hex)) == 256 * r + 16 * g + b;
    UnpackRgb12(r, g, b);
  }

  lemma AccentBytes()
    ensures Encode6(34, 197, 94) == "#22c55e"
  {
    assert HexByte(34) == "22";
    assert HexByte(197) == "c5";
    assert HexByte(94) == "5e";
  }

  lemma RedBytes()
    ensures Encode6(239, 68, 68) == "#ef4444"
  {
    assert HexByte(239) == "ef";
    assert HexByte(68) == "44";
  }

  /** The default accent colour and the widgets' red. */
  lemma WidgetColours()
    ensures Decode("#22c55e") == Rgba(255, 34, 197, 94)
    ensures Decode("#ef4444") == Rgba(255, 239, 68, 68)
  {
    DecodeEncode6(34, 197, 94);
    AccentBytes();
    DecodeEncode6(239, 68, 68);
    RedBytes();
  }

  /** A `0x` prefix is skipped by the scanner but still counts towards the length, so the six
      digits of "0xFF00FF" are read as 32-bit ARGB with alpha 0. */
  lemma ZeroXPrefixCountsTowardsLength()
    ensures Decode("0xFF00FF") == Rgba(0, 255, 0, 255)
  {
    ZeroXScan();
    DecodeEight("0xFF00FF");
    UnpackArgb32(0, 255, 0, 255);
  }

  lemma ZeroXScan()
    ensures Trim("0xFF00FF") == "0xFF00FF"
    ensures ScanHex("0xFF00FF") == 16711935
  {
    var s := "0xFF00FF";
    assert IsAlphanumeric(s[0]) && IsAlphanumeric(s[|s| - 1]);
    var x := "FF00FF";
    assert SkipHexPrefix(s) == x;
    HexRunOfHex(x);
    ZeroXValue();
  }

  lemma ZeroXValue()
    ensures AllHex("FF00FF") && HexValue("FF00FF") == 16711935
  {
    assert "FF00FF"[..5] == "FF00F";
    assert "FF00F"[..4] == "FF00";
    assert "FF00"[..3] == "FF0";
    assert "FF0"[..2] == "FF";
    assert "FF"[..1] == "F";
    assert "F"[..0] == "";
    assert HexValue("F") == 15;
    assert HexValue("FF") == 255;
    assert HexValue("FF0") == 4080;
    assert HexValue("FF00") == 65280;
    assert HexValue("FF00F") == 1044495;
  }
}
