/** Two display helpers of the item list: the rotation-preference label
    (`getRotationPreferencesText`) and the hexadecimal colour code built from RGB
    channels (`rgbToHex`). */
module Display {
  import opened Util
  import opened Geometry

  // ---------------------------------------------------------------------------
  // Rotation-preference label

  /** The permitted axes, in the order x, y, z. */
  function AllowedAxes(p: RotationPreferences): seq<string>
  {
    (if p.allowX then ["X"] else []) + (if p.allowY then ["Y"] else []) + (if p.allowZ then ["Z"] else [])
  }

  function RotationPreferencesText(p: RotationPreferences): string
  {
    var allowed := AllowedAxes(p);
    if |allowed| > 0 then "Allow: " + Join(allowed, ", ") else "No Rotation"
  }

  /** Reads the preferences back from a label: an axis is permitted when its letter
      appears. */
  function PreferencesFromText(s: string): RotationPreferences
  {
    RotationPreferences('X' in s, 'Y' in s, 'Z' in s)
  }

  /** The label says "No Rotation" exactly when no axis is permitted, and otherwise
      starts with "Allow: ". */
  lemma RotationTextCases(p: RotationPreferences)
    ensures RotationPreferencesText(p) == "No Rotation" <==> !p.allowX && !p.allowY && !p.allowZ
    ensures (p.allowX || p.allowY || p.allowZ) ==> RotationPreferencesText(p)[..7] == "Allow: "
  {
    if p.allowX || p.allowY || p.allowZ {
      var t := RotationPreferencesText(p);
      assert |AllowedAxes(p)| > 0;
      assert t == "Allow: " + Join(AllowedAxes(p), ", ");
      assert t[..7] == "Allow: ";
      assert t[0] == 'A';
    }
  }

  /** A character outside the separator occurs in a joined string exactly when it
      occurs in one of the parts. */
  lemma {:induction false} JoinChars(parts: seq<string>, sep: string, c: char)
    requires c !in sep
    ensures c in Join(parts, sep) <==> exists i :: 0 <= i < |parts| && c in parts[i]
  {
    if |parts| > 1 {
      JoinChars(parts[1..], sep, c);
      if c in Join(parts, sep) && c !in parts[0] {
        var i :| 0 <= i < |parts[1..]| && c in parts[1..][i];
        assert c in parts[i + 1];
      }
      if exists i :: 0 <= i < |parts| && c in parts[i] {
        var i :| 0 <= i < |parts| && c in parts[i];
        if i > 0 {
          assert c in parts[1..][i - 1];
        }
      }
    }
  }

  /** An axis letter appears in the label exactly when that axis is listed. */
  lemma AxisInLabel(p: RotationPreferences, c: char)
    requires c == 'X' || c == 'Y' || c == 'Z'
    ensures c in RotationPreferencesText(p) <==> [c] in AllowedAxes(p)
  {
    var axes := AllowedAxes(p);
    if |axes| > 0 {
      JoinChars(axes, ", ", c);
      assert RotationPreferencesText(p) == "Allow: " + Join(axes, ", ");
      if [c] in axes {
        var i :| 0 <= i < |axes| && axes[i] == [c];
        assert c in axes[i];
      }
    }
  }

  /** The label determines the preferences: reading it back gives them again, so
      two different preference sets never share a label. */
  lemma RotationTextRoundTrip(p: RotationPreferences)
    ensures PreferencesFromText(RotationPreferencesText(p)) == p
  {
    AxisInLabel(p, 'X');
    AxisInLabel(p, 'Y');
    AxisInLabel(p, 'Z');
  }

  // ---------------------------------------------------------------------------
  // Hexadecimal colour code

  function HexDigit(d: nat): char
    requires d < 16
  {
    "0123456789abcdef"[d]
  }

  /** `Number.prototype.toString(16)` on a non-negative integer: lower-case digits,
      no leading zeros. */
  function ToHex(v: nat): (s: string)
    ensures |s| >= 1
  {
    if v < 16 then [HexDigit(v)] else ToHex(v / 16) + [HexDigit(v % 16)]
  }

  function UpperChar(ch: char): char
  {
    if 'a' <= ch <= 'z' then (ch as int - 32) as char else ch
  }

  /** `toUpperCase` on the characters a hexadecimal string can hold. */
  function ToUpper(s: string): string
  {
    seq(|s|, i requires 0 <= i < |s| => UpperChar(s[i]))
  }

  /** `"#" + ((1 << 24) + (r << 16) + (g << 8) + b).toString(16).slice(1).toUpperCase()`:
      the leading 1 pads the channels to six digits and is then sliced off. */
  function RgbToHex(r: nat, g: nat, b: nat): string
    requires r < 256 && g < 256 && b < 256
  {
    var v := 0x100_0000 + r * 0x1_0000 + g * 0x100 + b;
    "#" + ToUpper(ToHex(v)[1..])
  }

  /** The value of a hexadecimal digit of either case. */
  function HexValue(ch: char): nat
  {
    if '0' <= ch <= '9' then ch as int - '0' as int
    else if 'a' <= ch <= 'f' then ch as int - 'a' as int + 10
    else if 'A' <= ch <= 'F' then ch as int - 'A' as int + 10
    else 0
  }

  predicate IsHexChar(ch: char)
  {
    '0' <= ch <= '9' || 'a' <= ch <= 'f' || 'A' <= ch <= 'F'
  }

  /** The value of a string of hexadecimal digits, most significant first. */
  function ParseHex(s: string): nat
  {
    if s == [] then 0 else ParseHex(s[..|s| - 1]) * 16 + HexValue(s[|s| - 1])
  }

  /** The channels of a `#RRGGBB` code. */
  function HexToRgb(h: string): (nat, nat, nat)
  {
    var n := if |h| == 0 then 0 else ParseHex(h[1..]);
    (n / 0x1_0000, n / 0x100 % 0x100, n % 0x100)
  }

  function Pow16(k: nat): nat
  {
    if k == 0 then 1 else 16 * Pow16(k - 1)
  }

  lemma HexDigitValue(d: nat)
    requires d < 16
    ensures IsHexChar(HexDigit(d)) && HexValue(HexDigit(d)) == d
    ensures !('A' <= HexDigit(d) <= 'Z')
  {
  }

  /** The digits of `toString(16)` read back to the number. */
  lemma {:induction false} ParseToHex(v: nat)
    ensures ParseHex(ToHex(v)) == v
    ensures forall i :: 0 <= i < |ToHex(v)| ==> IsHexChar(ToHex(v)[i]) && !('A' <= ToHex(v)[i] <= 'Z')
  {
    if v < 16 {
      HexDigitValue(v);
      assert ToHex(v)[..0] == [];
    } else {
      ParseToHex(v / 16);
      HexDigitValue(v % 16);
      var s := ToHex(v);
      assert s[..|s| - 1] == ToHex(v / 16);
    }
  }

  /** A number with k + 1 hexadecimal digits is written with exactly k + 1 digits. */
  lemma {:induction false} ToHexLength(v: nat, k: nat)
    requires Pow16(k) <= v < Pow16(k + 1)
    ensures |ToHex(v)| == k + 1
  {
    if k > 0 {
      ToHexLength(v / 16, k - 1);
    }
  }

  /** The leading digit of a number in [16^k, 2 * 16^k) is 1. */
  lemma {:induction false} ToHexLeadingOne(v: nat, k: nat)
    requires Pow16(k) <= v < 2 * Pow16(k)
    ensures ToHex(v)[0] == '1'
  {
    if k > 0 {
      ToHexLeadingOne(v / 16, k - 1);
    }
  }

  /** Reading from the front: the first digit weighs 16 to the number of digits
      after it. */
  lemma ShiftDigit(d: int, p: int, x: int, l: int)
    ensures (d * p + x) * 16 + l == d * (16 * p) + (x * 16 + l)
  {
  }

  lemma {:induction false} ParseHexFront(s: string)
    requires |s| >= 1
    ensures ParseHex(s) == HexValue(s[0]) * Pow16(|s| - 1) + ParseHex(s[1..])
  {
    if |s| > 1 {
      var init := s[..|s| - 1];
      var tail := s[1..];
      ParseHexFront(init);
      assert init[1..] == tail[..|tail| - 1];
      assert init[0] == s[0];
      var d, p, x, l := HexValue(s[0]), Pow16(|s| - 2), ParseHex(init[1..]), HexValue(s[|s| - 1]);
      assert ParseHex(init) == d * p + x;
      assert ParseHex(tail) == x * 16 + l;
      assert Pow16(|s| - 1) == 16 * p;
      assert ParseHex(s) == ParseHex(init) * 16 + l;
      ShiftDigit(d, p, x, l);
    } else {
      assert s[1..] == [];
      assert s[..0] == [];
    }
  }

  lemma {:induction false} ParseHexUpper(s: string)
    requires forall i :: 0 <= i < |s| ==> IsHexChar(s[i])
    ensures ParseHex(ToUpper(s)) == ParseHex(s)
  {
    if s != [] {
      ParseHexUpper(s[..|s| - 1]);
      assert ToUpper(s)[..|s| - 1] == ToUpper(s[..|s| - 1]);
    }
  }

  /** The code is '#' and six upper-case hexadecimal digits. */
  lemma RgbToHexShape(r: nat, g: nat, b: nat)
    requires r < 256 && g < 256 && b < 256
    ensures |RgbToHex(r, g, b)| == 7 && RgbToHex(r, g, b)[0] == '#'
    ensures forall i :: 1 <= i < 7 ==> IsHexChar(RgbToHex(r, g, b)[i]) && !('a' <= RgbToHex(r, g, b)[i] <= 'z')
  {
    var v := 0x100_0000 + r * 0x1_0000 + g * 0x100 + b;
    assert Pow16(6) == 0x100_0000;
    ToHexLength(v, 6);
    ParseToHex(v);
  }

  /** The six digits after the leading 1 spell the three channels. */
  lemma ColourDigits(r: nat, g: nat, b: nat)
    requires r < 256 && g < 256 && b < 256
    ensures ParseHex(RgbToHex(r, g, b)[1..]) == r * 0x1_0000 + g * 0x100 + b
  {
    var v := 0x100_0000 + r * 0x1_0000 + g * 0x100 + b;
    var s := ToHex(v);
    assert Pow16(6) == 0x100_0000;
    ToHexLength(v, 6);
    ToHexLeadingOne(v, 6);
    ParseToHex(v);
    ParseHexFront(s);
    ParseHexUpper(s[1..]);
    assert RgbToHex(r, g, b)[1..] == ToUpper(s[1..]);
  }

  lemma Channels(r: nat, g: nat, b: nat)
    requires r < 256 && g < 256 && b < 256
    ensures (r * 0x1_0000 + g * 0x100 + b) / 0x1_0000 == r
    ensures (r * 0x1_0000 + g * 0x100 + b) / 0x100 % 0x100 == g
    ensures (r * 0x1_0000 + g * 0x100 + b) % 0x100 == b
  {
    var n := r * 0x1_0000 + g * 0x100 + b;
    assert n == (r * 0x100 + g) * 0x100 + b;
    assert n / 0x100 == r * 0x100 + g;
  }

  /** Reading the code back gives the channels. */
  lemma RgbHexRoundTrip(r: nat, g: nat, b: nat)
    requires r < 256 && g < 256 && b < 256
    ensures HexToRgb(RgbToHex(r, g, b)) == (r, g, b)
  {
    ColourDigits(r, g, b);
    Channels(r, g, b);
  }
}
