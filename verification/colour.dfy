/** Colours of the clock: RGB triples with real channels, the hex decoder `c`
    that builds them from six hex digits, and the per-channel arithmetic the
    LED ring uses (quartering and linear blending). */
module Colour {
  import opened Wrappers

  /** An RGB colour; the application keeps every channel in [0, 1]. */
  datatype Rgb = Rgb(r: real, g: real, b: real)
  {
    /** Channel `k` as the source indexes the tuple: 0 red, 1 green, 2 blue. */
    function Channel(k: nat): real
      requires k < 3
    {
      if k == 0 then r else if k == 1 then g else b
    }
  }

  const Black := Rgb(0.0, 0.0, 0.0)
  const White := Rgb(1.0, 1.0, 1.0)

  predicate InUnit(x: real) { 0.0 <= x <= 1.0 }

  /** Every channel lies in [0, 1]. */
  predicate Valid(c: Rgb) { InUnit(c.r) && InUnit(c.g) && InUnit(c.b) }

  // ---------------------------------------------------------------------------
  // Hexadecimal digits

  predicate IsHexDigit(ch: char)
  {
    ('0' <= ch <= '9') || ('a' <= ch <= 'f') || ('A' <= ch <= 'F')
  }

  /** The digits `UpperDigit` writes: decimal digits and `A`..`F`. */
  predicate IsUpperHexDigit(ch: char)
  {
    ('0' <= ch <= '9') || ('A' <= ch <= 'F')
  }

  /** The value of a base-16 digit, either case; None for any other character. */
  function DigitValue(ch: char): (r: Option<nat>)
    ensures r.Some? <==> IsHexDigit(ch)
    ensures r.Some? ==> r.value < 16
  {
    if '0' <= ch <= '9' then Some((ch - '0') as nat)
    else if 'a' <= ch <= 'f' then Some((ch - 'a') as nat + 10)
    else if 'A' <= ch <= 'F' then Some((ch - 'A') as nat + 10)
    else None
  }

  /** Case does not matter: `a`..`f` have the values of `A`..`F`. */
  lemma LowerMatchesUpper(ch: char)
    requires 'a' <= ch <= 'f'
    ensures DigitValue(ch) == DigitValue((ch as int - 32) as char)
    ensures DigitValue(ch).Some? && DigitValue(ch).value >= 10
  {
  }

  /** The upper-case digit for `v`, the inverse of `DigitValue`. */
  function UpperDigit(v: nat): (ch: char)
    requires v < 16
    ensures IsUpperHexDigit(ch)
    ensures DigitValue(ch) == Some(v)
  {
    if v < 10 then ('0' as int + v) as char else ('A' as int + v - 10) as char
  }

  // ---------------------------------------------------------------------------
  // The decoder `c`

  /** Python's slice `s[i : i + 2]`: clipped at the end of the string. */
  function Slice2(s: string, i: nat): (f: string)
    ensures |f| <= 2
    ensures i + 2 <= |s| ==> f == [s[i], s[i + 1]]
    ensures i + 1 == |s| ==> f == [s[i]]
    ensures |s| <= i ==> f == []
  {
    if |s| <= i then [] else if |s| == i + 1 then s[i..] else s[i..i + 2]
  }

  /** `int(f, 16)` for a field of at most two characters, restricted to
      fields made only of hex digits; anything else is the ValueError path. */
  function ParseField(f: string): (r: Option<nat>)
    requires |f| <= 2
    ensures r.Some? <==> 1 <= |f| && forall i | 0 <= i < |f| :: IsHexDigit(f[i])
    ensures r.Some? ==> r.value < 256
    ensures r.Some? && |f| == 1 ==> r.value < 16
    ensures |f| == 1 ==> r == DigitValue(f[0])
    ensures |f| == 2 && r.Some? ==>
      r.value == 16 * DigitValue(f[0]).value + DigitValue(f[1]).value
  {
    if |f| == 0 then None
    else if |f| == 1 then DigitValue(f[0])
    else
      match (DigitValue(f[0]), DigitValue(f[1]))
      case (Some(hi), Some(lo)) => Some(16 * hi + lo)
      case _ => None
  }

  /** The byte written by the two hex digits at positions `2k`, `2k+1`. */
  function ByteAt(s: string, k: nat): nat
    requires k < 3 && 2 * k + 1 < |s| && IsHexDigit(s[2 * k]) && IsHexDigit(s[2 * k + 1])
  {
    16 * DigitValue(s[2 * k]).value + DigitValue(s[2 * k + 1]).value
  }

  /** Exactly six hex digits, the form every literal in the scheme table has. */
  predicate IsHexColour(s: string)
  {
    && |s| == 6
    && IsHexDigit(s[0]) && IsHexDigit(s[1]) && IsHexDigit(s[2])
    && IsHexDigit(s[3]) && IsHexDigit(s[4]) && IsHexDigit(s[5])
  }

  /** All characters `c` reads are hex digits and the last field is non-empty. */
  predicate Decodable(s: string)
  {
    |s| >= 5 && forall i | 0 <= i < |s| && i < 6 :: IsHexDigit(s[i])
  }

  /** `c(s)`: three fields of two characters each, every one divided by 255.
      Characters after the sixth are never read; a string of five characters
      still decodes because the last slice holds a single digit. */
  function Decode(s: string): (r: Option<Rgb>)
    ensures r.Some? <==> Decodable(s)
    ensures r.Some? ==> Valid(r.value)
    ensures IsHexColour(s) ==> r == Some(Rgb(ByteAt(s, 0) as real / 255.0,
                                              ByteAt(s, 1) as real / 255.0,
                                              ByteAt(s, 2) as real / 255.0))
    ensures Decodable(s) && |s| >= 6 ==> r == Some(Rgb(ByteAt(s, 0) as real / 255.0,
                                                       ByteAt(s, 1) as real / 255.0,
                                                       ByteAt(s, 2) as real / 255.0))
    ensures Decodable(s) && |s| == 5 ==> r == Some(Rgb(ByteAt(s, 0) as real / 255.0,
                                                       ByteAt(s, 1) as real / 255.0,
                                                       DigitValue(s[4]).value as real / 255.0))
  {
    var f0 := ParseField(Slice2(s, 0));
    var f1 := ParseField(Slice2(s, 2));
    var f2 := ParseField(Slice2(s, 4));
    if f0.Some? && f1.Some? && f2.Some? then
      Some(Rgb(f0.value as real / 255.0, f1.value as real / 255.0, f2.value as real / 255.0))
    else
      None
  }

  /** Characters after the sixth are never read: two strings that agree on
      their first six characters decode alike. */
  lemma DecodeReadsSixChars(s: string, t: string)
    requires |s| >= 6 && |t| >= 6 && s[..6] == t[..6]
    ensures Decode(s) == Decode(t)
  {
  }

  /** The partner of `Decode`: a byte triple written as six upper-case hex digits. */
  function ToHex(r: nat, g: nat, b: nat): (s: string)
    requires r < 256 && g < 256 && b < 256
    ensures IsHexColour(s)
    ensures ByteAt(s, 0) == r && ByteAt(s, 1) == g && ByteAt(s, 2) == b
  {
    [UpperDigit(r / 16), UpperDigit(r % 16),
     UpperDigit(g / 16), UpperDigit(g % 16),
     UpperDigit(b / 16), UpperDigit(b % 16)]
  }

  /** Decoding the hex form of a byte triple gives each byte over 255. */
  lemma DecodeToHex(r: nat, g: nat, b: nat)
    requires r < 256 && g < 256 && b < 256
    ensures Decode(ToHex(r, g, b)) == Some(Rgb(r as real / 255.0, g as real / 255.0, b as real / 255.0))
  {
  }

  /** An upper-case hex colour is the hex form of the bytes it decodes to. */
  lemma ToHexOfDecode(s: string)
    requires IsHexColour(s)
    requires forall i | 0 <= i < 6 :: IsUpperHexDigit(s[i])
    ensures ToHex(ByteAt(s, 0), ByteAt(s, 1), ByteAt(s, 2)) == s
  {
    var t := ToHex(ByteAt(s, 0), ByteAt(s, 1), ByteAt(s, 2));
    ByteDigits(s, 0);
    ByteDigits(s, 1);
    ByteDigits(s, 2);
    assert t[0] == s[0] && t[1] == s[1];
    assert t[2] == s[2] && t[3] == s[3];
    assert t[4] == s[4] && t[5] == s[5];
  }

  /** The two upper-case digits of byte `k` are rewritten unchanged by `ToHex`. */
  lemma ByteDigits(s: string, k: nat)
    requires IsHexColour(s) && k < 3
    requires IsUpperHexDigit(s[2 * k]) && IsUpperHexDigit(s[2 * k + 1])
    ensures UpperDigit(ByteAt(s, k) / 16) == s[2 * k]
    ensures UpperDigit(ByteAt(s, k) % 16) == s[2 * k + 1]
  {
    var hi := DigitValue(s[2 * k]).value;
    var lo := DigitValue(s[2 * k + 1]).value;
    assert ByteAt(s, k) / 16 == hi && ByteAt(s, k) % 16 == lo by { SplitByte(hi, lo); }
    UpperDigitUnique(s[2 * k]);
    UpperDigitUnique(s[2 * k + 1]);
  }

  lemma SplitByte(hi: nat, lo: nat)
    requires lo < 16
    ensures (16 * hi + lo) / 16 == hi && (16 * hi + lo) % 16 == lo
  {
  }

  /** An upper-case digit is the `UpperDigit` of its own value. */
  lemma UpperDigitUnique(ch: char)
    requires IsUpperHexDigit(ch)
    ensures DigitValue(ch).Some? && UpperDigit(DigitValue(ch).value) == ch
  {
  }

  /** The two extreme literals of the table. */
  lemma DecodeExtremes()
    ensures Decode("000000") == Some(Black)
    ensures Decode("FFFFFF") == Some(White)
  {
    assert IsHexColour("000000");
    assert IsHexColour("FFFFFF");
  }

  // ---------------------------------------------------------------------------
  // Channel arithmetic used by the LED ring

  /** Every channel divided by four, the dim minute marker. */
  function Quarter(c: Rgb): (q: Rgb)
    ensures Valid(c) ==> Valid(q)
    ensures forall k | 0 <= k < 3 :: 4.0 * q.Channel(k) == c.Channel(k)
  {
    Rgb(c.r / 4.0, c.g / 4.0, c.b / 4.0)
  }

  /** One channel moved a fraction `t` of the way from `x` towards `y`,
      written as the source writes it: `x + (y - x) * t`. */
  function Mix(x: real, y: real, t: real): real
  {
    x + (y - x) * t
  }

  /** The mixed channel is the weighted mean `(1 - t) x + t y`. */
  lemma MixMean(x: real, y: real, t: real)
    ensures Mix(x, y, t) == (1.0 - t) * x + t * y
  {
    calc {
      Mix(x, y, t);
      x + (y * t - x * t);
      (1.0 - t) * x + t * y;
    }
  }

  /** For `t` in [0, 1] the mixed channel lies between its two end points. */
  lemma MixBetween(x: real, y: real, t: real)
    requires 0.0 <= t <= 1.0
    ensures x <= y ==> x <= Mix(x, y, t) <= y
    ensures y <= x ==> y <= Mix(x, y, t) <= x
  {
    var d := y - x;
    assert Mix(x, y, t) == x + d * t;
    var u := 1.0 - t;
    assert d - d * t == d * u;
    if x <= y {
      ProductNonNegative(d, t);
      ProductNonNegative(d, u);
    } else {
      assert (-d) * t == -(d * t);
      assert (-d) * u == -(d * u);
      ProductNonNegative(-d, t);
      ProductNonNegative(-d, u);
    }
  }

  lemma ProductNonNegative(a: real, b: real)
    requires 0.0 <= a && 0.0 <= b
    ensures 0.0 <= a * b
  {
  }

  /** `colour + (accent - colour) * t` channel by channel. */
  function Blend(c: Rgb, a: Rgb, t: real): Rgb
  {
    Rgb(Mix(c.r, a.r, t), Mix(c.g, a.g, t), Mix(c.b, a.b, t))
  }

  /** A blend with `t` in [0, 1] is a convex combination of its two colours:
      valid colours stay valid, `t = 0` keeps the first, `t = 1` gives the second,
      and blending a colour with itself changes nothing. */
  lemma BlendConvex(c: Rgb, a: Rgb, t: real)
    requires 0.0 <= t <= 1.0
    ensures Valid(c) && Valid(a) ==> Valid(Blend(c, a, t))
    ensures forall k | 0 <= k < 3 ::
      Blend(c, a, t).Channel(k) == (1.0 - t) * c.Channel(k) + t * a.Channel(k)
    ensures t == 0.0 ==> Blend(c, a, t) == c
    ensures t == 1.0 ==> Blend(c, a, t) == a
    ensures Blend(c, c, t) == c
  {
    MixMean(c.r, a.r, t);
    MixMean(c.g, a.g, t);
    MixMean(c.b, a.b, t);
    MixBetween(c.r, a.r, t);
    MixBetween(c.g, a.g, t);
    MixBetween(c.b, a.b, t);
  }
}
