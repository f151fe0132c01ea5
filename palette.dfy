/** The palette of a KBP file: exactly sixteen three-digit upper-case hex
    colour codes, indexed 0 to 15, from the line after "'Palette Colours". */
module Palette {
  import opened Wrappers
  import opened Text

  predicate IsHexDigit(c: char) {
    ('0' <= c <= '9') || ('A' <= c <= 'F')
  }

  /** The code pattern [0-9A-F]{3}, anchored at both ends. */
  predicate IsColorCode(x: string) {
    |x| == 3 && IsHexDigit(x[0]) && IsHexDigit(x[1]) && IsHexDigit(x[2])
  }

  predicate ValidCodes(codes: seq<string>) {
    |codes| == 16 && forall i :: 0 <= i < |codes| ==> IsColorCode(codes[i])
  }

  /** A palette is valid by construction: the check made by the KBPPalette
      constructor is this subset type. */
  type Palette = codes: seq<string> | ValidCodes(codes) witness seq(16, i => "000")

  /** Builds a palette from its line: leading blanks dropped, then the
      comma-separated codes, which must be sixteen valid codes. */
  function FromString(line: string): (r: Result<Palette>)
    ensures r.Ok? <==> ValidCodes(Split(LStrip(line), ','))
    ensures r.Ok? ==> r.value == Split(LStrip(line), ',')
    ensures r.Err? ==> r.error == BadPalette
  {
    var codes := Split(LStrip(line), ',');
    if ValidCodes(codes) then Ok(codes) else Err(BadPalette)
  }

  /** The palette line a KBP writer produces. */
  function ToString(p: Palette): string {
    Join(p, ",")
  }

  /** Reading back a written palette gives the same palette. */
  lemma FromStringToString(p: Palette)
    ensures FromString(ToString(p)) == Ok(p)
  {
    forall i | 0 <= i < |p| ensures ',' !in p[i] {
      assert IsColorCode(p[i]);
    }
    JoinSplit(p, ',');
    assert LStrip(ToString(p)) == ToString(p) by {
      assert ToString(p)[0] == p[0][0];
    }
  }

  /** palette[x]: the code at an integer index 0..15; any other key raises. */
  function Get(p: Palette, x: int): (r: Result<string>)
    ensures r.Ok? <==> 0 <= x < 16
    ensures r.Ok? ==> IsColorCode(r.value) && r.value == p[x]
    ensures r.Err? ==> r.error == BadKey(x)
  {
    if 0 <= x < 16 then Ok(p[x]) else Err(BadKey(x))
  }

  /** "".join(y * 2 for y in x): every character written twice. */
  function DoubleChars(s: string): (r: string)
    ensures |r| == 2 * |s|
    ensures forall k :: 0 <= k < |s| ==> r[2 * k] == s[k] && r[2 * k + 1] == s[k]
  {
    if |s| == 0 then "" else [s[0], s[0]] + DoubleChars(s[1..])
  }

  /** Every other character, from the first: undoes DoubleChars. */
  function EveryOther(r: string): string {
    if |r| < 2 then r else [r[0]] + EveryOther(r[2..])
  }

  lemma {:induction false} DoubleCharsInverse(s: string)
    ensures EveryOther(DoubleChars(s)) == s
  {
    if |s| > 0 {
      DoubleCharsInverse(s[1..]);
      assert DoubleChars(s)[2..] == DoubleChars(s[1..]);
    }
  }

  /** as_rgb24(): every code widened to six hex digits. */
  function AsRgb24(p: Palette): (r: seq<string>)
    ensures |r| == 16
    ensures forall i :: 0 <= i < 16 ==> r[i] == DoubleChars(p[i])
    ensures forall i :: 0 <= i < 16 ==> |r[i]| == 6 && EveryOther(r[i]) == p[i]
  {
    var r := seq(16, i requires 0 <= i < 16 => DoubleChars(p[i]));
    assert forall i :: 0 <= i < 16 ==> EveryOther(r[i]) == p[i] by {
      forall i | 0 <= i < 16 ensures EveryOther(r[i]) == p[i] {
        DoubleCharsInverse(p[i]);
      }
    }
    r
  }

  /** as_rgba32(): the six-digit codes with an opaque "FF" alpha appended. */
  function AsRgba32(p: Palette): (r: seq<string>)
    ensures |r| == 16
    ensures forall i :: 0 <= i < 16 ==> r[i] == DoubleChars(p[i]) + "FF"
    ensures forall i :: 0 <= i < 16 ==> |r[i]| == 8 && r[i][6..] == "FF" && EveryOther(r[i][..6]) == p[i]
  {
    var rgb := AsRgb24(p);
    var r := seq(16, i requires 0 <= i < 16 => rgb[i] + "FF");
    assert forall i :: 0 <= i < 16 ==> r[i][..6] == rgb[i];
    r
  }
}
