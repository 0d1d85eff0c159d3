/** The theme-colour tint of `_apply_tint`. ECMA-376 Part 1, section
    18.3.1.15 applies a tint to the luminance of the colour in HLS space;
    `_apply_tint` approximates it channel by channel in RGB: a negative tint
    scales every channel toward black, a positive one blends it toward white,
    each result is rounded, clamped to [0, 255] and written back as `#RRGGBB`
    in upper-case hexadecimal. */
module Tint {
  import opened Wrappers
  import opened Strings

  /** Python's `round` on a number: nearest integer, ties to the even one. */
  function RoundHalfEven(v: real): (n: int)
    ensures v - 0.5 <= n as real <= v + 0.5
    ensures (n as real == v - 0.5 || n as real == v + 0.5) ==> n % 2 == 0
  {
    var f := v.Floor;
    var d := v - f as real;
    if d < 0.5 then f
    else if d > 0.5 then f + 1
    else if f % 2 == 0 then f else f + 1
  }

  lemma {:induction false} RoundHalfEvenMonotone(v1: real, v2: real)
    requires v1 <= v2
    ensures RoundHalfEven(v1) <= RoundHalfEven(v2)
  {
    var f1, f2 := v1.Floor, v2.Floor;
    if f1 < f2 {
      assert RoundHalfEven(v1) <= f1 + 1 <= f2 <= RoundHalfEven(v2);
    }
  }

  function Clamp(n: int): (c: int)
    ensures 0 <= c <= 255
    ensures 0 <= n <= 255 ==> c == n
    ensures n < 0 ==> c == 0
    ensures n > 255 ==> c == 255
  {
    if n < 0 then 0 else if n > 255 then 255 else n
  }

  /** The unrounded new value of channel `ch` under tint `t`. */
  function Blend(ch: int, t: real): real
  {
    if t < 0.0 then ch as real * (1.0 + t) else ch as real * (1.0 - t) + 255.0 * t
  }

  /** `adj` inside `_apply_tint`: blend, round, clamp. */
  function AdjustChannel(ch: int, t: real): (c: int)
    ensures 0 <= c <= 255
  {
    Clamp(RoundHalfEven(Blend(ch, t)))
  }

  lemma BlendMonotone(ch: int, t1: real, t2: real)
    requires 0 <= ch <= 255 && t1 <= t2
    ensures Blend(ch, t1) <= Blend(ch, t2)
  {
    var c := ch as real;
    if t2 < 0.0 {
      assert c * (1.0 + t2) - c * (1.0 + t1) == c * (t2 - t1);
    } else if t1 >= 0.0 {
      assert Blend(ch, t2) - Blend(ch, t1) == (255.0 - c) * (t2 - t1);
    } else {
      assert Blend(ch, t1) == c + c * t1;
      assert c * t1 <= 0.0;
      var room := 255.0 - c;
      assert Blend(ch, t2) == c + room * t2;
      assert room >= 0.0 && t2 >= 0.0;
      assert room * t2 >= 0.0;
    }
  }

  /** A larger tint never gives a smaller channel. */
  lemma {:induction false} AdjustChannelMonotone(ch: int, t1: real, t2: real)
    requires 0 <= ch <= 255 && t1 <= t2
    ensures AdjustChannel(ch, t1) <= AdjustChannel(ch, t2)
  {
    BlendMonotone(ch, t1, t2);
    RoundHalfEvenMonotone(Blend(ch, t1), Blend(ch, t2));
  }

  /** Tint 0 keeps a channel; a non-negative tint never darkens it, a negative
      tint never lightens it; tint 1 gives white and tint -1 black. */
  lemma {:induction false} AdjustChannelDirection(ch: int, t: real)
    requires 0 <= ch <= 255
    ensures AdjustChannel(ch, 0.0) == ch
    ensures t >= 0.0 ==> AdjustChannel(ch, t) >= ch
    ensures t < 0.0 ==> AdjustChannel(ch, t) <= ch
    ensures AdjustChannel(ch, 1.0) == 255
    ensures AdjustChannel(ch, -1.0) == 0
  {
    assert Blend(ch, 0.0) == ch as real;
    assert RoundHalfEven(ch as real) == ch;
    assert Blend(ch, 1.0) == 255.0;
    assert RoundHalfEven(255.0) == 255;
    assert Blend(ch, -1.0) == 0.0;
    assert RoundHalfEven(0.0) == 0;
    if t >= 0.0 {
      AdjustChannelMonotone(ch, 0.0, t);
    } else {
      AdjustChannelMonotone(ch, t, 0.0);
    }
  }

  /** `hex_rgb.lstrip('#')`. */
  function StripHashes(s: string): (r: string)
    ensures r == [] || r[0] != '#'
    ensures |r| <= |s| && r == s[|s| - |r|..]
    ensures forall i :: 0 <= i < |s| - |r| ==> s[i] == '#'
  {
    if s != [] && s[0] == '#' then StripHashes(s[1..]) else s
  }

  /** The three channels of a six-digit colour, or None where one of the
      source's `int(..., 16)` conversions raises. */
  function Channels(s: string): (r: Option<(int, int, int)>)
    requires |s| == 6
    ensures r.Some? <==> forall i :: 0 <= i < 6 ==> IsHexDigit(s[i])
    ensures r.Some? ==> 0 <= r.value.0 < 256 && 0 <= r.value.1 < 256 && 0 <= r.value.2 < 256
  {
    var r, g, b := ParseHexByte(s[0..2]), ParseHexByte(s[2..4]), ParseHexByte(s[4..6]);
    if r.Some? && g.Some? && b.Some? then Some((r.value, g.value, b.value)) else None
  }

  /** Whether `_apply_tint` gets past its early returns and computes channels. */
  predicate Tints(hex: string, tint: Option<real>)
  {
    hex != "" && tint.Some? && tint.value != 0.0 && |StripHashes(hex)| == 6
  }

  /** A canonical tinted colour: '#' and six upper-case hexadecimal digits. */
  predicate IsRgbHex(s: string)
  {
    |s| == 7 && s[0] == '#' && forall i :: 1 <= i < 7 ==> IsUpperHexDigit(s[i])
  }

  /** `_apply_tint(hex_rgb, tint)`. None stands for the ValueError the source
      raises when a channel is not hexadecimal; its caller catches it. */
  function ApplyTint(hex: string, tint: Option<real>): (r: Option<string>)
    ensures !Tints(hex, tint) ==> r == Some(hex)
    ensures Tints(hex, tint) ==> (r.None? <==> Channels(StripHashes(hex)).None?)
    ensures Tints(hex, tint) && r.Some? ==> IsRgbHex(r.value)
    ensures Tints(hex, tint) && r.Some? ==>
              var rgb := Channels(StripHashes(hex)).value;
              Channels(r.value[1..]) == Some((AdjustChannel(rgb.0, tint.value),
                                              AdjustChannel(rgb.1, tint.value),
                                              AdjustChannel(rgb.2, tint.value)))
  {
    if hex == "" then Some(hex)
    else if tint.None? || tint.value == 0.0 then Some(hex)
    else
      var s := StripHashes(hex);
      if |s| != 6 then Some(hex)
      else match Channels(s)
        case None => None
        case Some(rgb) =>
          var t := tint.value;
          Some(FormatRgb(AdjustChannel(rgb.0, t), AdjustChannel(rgb.1, t), AdjustChannel(rgb.2, t)))
  }

  /** `f"#{r:02X}{g:02X}{b:02X}"`: reading the channels back gives the same three values. */
  function FormatRgb(x: int, y: int, z: int): (s: string)
    requires 0 <= x < 256 && 0 <= y < 256 && 0 <= z < 256
    ensures IsRgbHex(s)
    ensures Channels(s[1..]) == Some((x, y, z))
  {
    var body := HexByte(x) + HexByte(y) + HexByte(z);
    assert body[0..2] == HexByte(x) && body[2..4] == HexByte(y) && body[4..6] == HexByte(z);
    assert ("#" + body)[1..] == body;
    "#" + body
  }

  /** Reading the channels of a six-digit colour and writing them back gives
      the colour, upper-cased, behind a `#`. */
  lemma ChannelsRoundTrip(s: string)
    requires |s| == 6 && Channels(s).Some?
    ensures var c := Channels(s).value; FormatRgb(c.0, c.1, c.2) == "#" + Upper(s)
  {
    ParseHexByteRoundTrip(s[0..2]);
    ParseHexByteRoundTrip(s[2..4]);
    ParseHexByteRoundTrip(s[4..6]);
    UpperFacts(s, 0, 2);
    UpperFacts(s, 2, 4);
    UpperFacts(s, 4, 6);
    assert Upper(s) == Upper(s)[0..2] + Upper(s)[2..4] + Upper(s)[4..6];
  }

  /** For the same base colour, a larger tint never decreases any channel
      of the result. */
  lemma ApplyTintMonotone(hex: string, t1: real, t2: real)
    requires Tints(hex, Some(t1)) && Tints(hex, Some(t2)) && t1 <= t2
    requires Channels(StripHashes(hex)).Some?
    ensures var c1 := Channels(ApplyTint(hex, Some(t1)).value[1..]).value;
            var c2 := Channels(ApplyTint(hex, Some(t2)).value[1..]).value;
            c1.0 <= c2.0 && c1.1 <= c2.1 && c1.2 <= c2.2
  {
    var rgb := Channels(StripHashes(hex)).value;
    AdjustChannelMonotone(rgb.0, t1, t2);
    AdjustChannelMonotone(rgb.1, t1, t2);
    AdjustChannelMonotone(rgb.2, t1, t2);
  }
}
