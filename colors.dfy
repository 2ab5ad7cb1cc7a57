/** Hex colour strings of `AutoMusicVideoGenerator` (auto_music_video.py):
    `_rgb_to_hex` formats three float channels as `#rrggbb`, and
    `_hex_to_rgb_tuple` parses the three two-character fields back with
    `int(field, 16)`. */
module Colors {
  import opened PyStr
  import opened PyNum
  import opened Wrappers

  /** An integer colour triple, as `_hex_to_rgb_tuple` returns it. */
  datatype Rgb = Rgb(r: int, g: int, b: int)

  predicate IsLowerHexDigit(c: char) {
    ('0' <= c <= '9') || ('a' <= c <= 'f')
  }

  /** `#` followed by six lowercase hex digits. */
  predicate IsHexColor(s: string) {
    |s| == 7 && s[0] == '#' && forall i :: 1 <= i < 7 ==> IsLowerHexDigit(s[i])
  }

  /** `int(min(255, max(0, c)))`: the channel clamped to [0, 255], then truncated. */
  function ClampChannel(c: real): (n: int)
    ensures 0 <= n <= 255
    ensures 0.0 <= c <= 255.0 ==> n as real <= c < n as real + 1.0
    ensures c < 0.0 ==> n == 0
    ensures c >= 255.0 ==> n == 255
  {
    Trunc(if c > 255.0 then 255.0 else if c < 0.0 then 0.0 else c)
  }

  /** The lowercase hex digit for a value in [0, 15]. */
  function HexDigit(d: int): (c: char)
    requires 0 <= d < 16
    ensures IsLowerHexDigit(c)
  {
    if d < 10 then ('0' as int + d) as char else ('a' as int + d - 10) as char
  }

  /** `"%02x" % n` for a channel in [0, 255]. */
  function Hex2(n: int): (s: string)
    requires 0 <= n < 256
  {
    [HexDigit(n / 16), HexDigit(n % 16)]
  }

  /** `_rgb_to_hex((r, g, b))` */
  function RgbToHex(r: real, g: real, b: real): (s: string)
    ensures IsHexColor(s)
  {
    "#" + (Hex2(ClampChannel(r)) + Hex2(ClampChannel(g)) + Hex2(ClampChannel(b)))
  }

  /** The value of a hex digit of either case, as `int(..., 16)` reads it. */
  function DigitValue(c: char): Option<int> {
    if '0' <= c <= '9' then Some(c as int - '0' as int)
    else if 'a' <= c <= 'f' then Some(c as int - 'a' as int + 10)
    else if 'A' <= c <= 'F' then Some(c as int - 'A' as int + 10)
    else None
  }

  /** The value of at most two hex digits; `None` if there are none or one is
      not a hex digit. */
  function DigitsValue(ds: string): (v: Option<int>)
    requires |ds| <= 2
    ensures v.Some? ==> 0 <= v.value < 256
  {
    if ds == [] then None
    else if |ds| == 1 then DigitValue(ds[0])
    else match (DigitValue(ds[0]), DigitValue(ds[1]))
      case (Some(hi), Some(lo)) => Some(16 * hi + lo)
      case _ => None
  }

  /** The blanks `int(s, 16)` skips around the digits: the `str.isspace()`
      characters except the separators U+001C to U+001F, which the integer
      parser does not count as blank. */
  predicate IsIntSpace(c: char) {
    IsSpace(c) && !('\U{1C}' <= c <= '\U{1F}')
  }

  /** Leading blanks removed, as the integer parser skips them. */
  function IntStripStart(s: string): (t: string)
    ensures |t| <= |s| && (t == [] || !IsIntSpace(t[0]))
  {
    if s != [] && IsIntSpace(s[0]) then IntStripStart(s[1..]) else s
  }

  /** Trailing blanks removed, as the integer parser skips them. */
  function IntStripEnd(s: string): (t: string)
    ensures |t| <= |s| && (t == [] || !IsIntSpace(t[|t| - 1]))
  {
    if s != [] && IsIntSpace(s[|s| - 1]) then IntStripEnd(s[..|s| - 1]) else s
  }

  /** Cutting trailing blanks never exposes a blank at the front. */
  lemma {:induction false} IntStripEndKeepsStart(s: string)
    requires s == [] || !IsIntSpace(s[0])
    ensures var t := IntStripEnd(s); t == [] || (!IsIntSpace(t[0]) && !IsIntSpace(t[|t| - 1]))
  {
    if s != [] && IsIntSpace(s[|s| - 1]) {
      IntStripEndKeepsStart(s[..|s| - 1]);
    }
  }

  /** The text `int(s, 16)` reads the sign and the digits from. */
  function IntStrip(s: string): (t: string)
    ensures |t| <= |s|
    ensures t == [] || (!IsIntSpace(t[0]) && !IsIntSpace(t[|t| - 1]))
  {
    IntStripEndKeepsStart(IntStripStart(s));
    IntStripEnd(IntStripStart(s))
  }

  /** `IntStripStart` keeps a suffix of its input. */
  lemma {:induction false} IntStripStartIsSuffix(s: string)
    ensures var t := IntStripStart(s); t == s[|s| - |t|..]
  {
    if s != [] && IsIntSpace(s[0]) {
      IntStripStartIsSuffix(s[1..]);
    }
  }

  /** `IntStripEnd` keeps a prefix of its input. */
  lemma {:induction false} IntStripEndIsPrefix(s: string)
    ensures var t := IntStripEnd(s); t == s[..|t|]
  {
    if s != [] && IsIntSpace(s[|s| - 1]) {
      IntStripEndIsPrefix(s[..|s| - 1]);
    }
  }

  /** Every character `IntStripStart` removes is a blank. */
  lemma {:induction false} IntStripStartCutsBlanks(s: string)
    ensures forall k :: 0 <= k < |s| - |IntStripStart(s)| ==> IsIntSpace(s[k])
  {
    if s != [] && IsIntSpace(s[0]) {
      IntStripStartCutsBlanks(s[1..]);
    }
  }

  /** Every character `IntStripEnd` removes is a blank. */
  lemma {:induction false} IntStripEndCutsBlanks(s: string)
    ensures forall k :: |IntStripEnd(s)| <= k < |s| ==> IsIntSpace(s[k])
  {
    if s != [] && IsIntSpace(s[|s| - 1]) {
      IntStripEndCutsBlanks(s[..|s| - 1]);
    }
  }

  /**
   * `IntStrip` keeps one contiguous run of `s`: everything before and after
   * it is a blank the integer parser skips.
   */
  lemma {:induction false} IntStripCutsBlanks(s: string)
    ensures var a, t := |s| - |IntStripStart(s)|, IntStrip(s);
      a + |t| <= |s| && t == s[a..a + |t|] &&
      (forall k :: 0 <= k < a ==> IsIntSpace(s[k])) &&
      (forall k :: a + |t| <= k < |s| ==> IsIntSpace(s[k]))
  {
    var u := IntStripStart(s);
    var a, t := |s| - |u|, IntStripEnd(u);
    assert t == s[a..a + |t|] by {
      IntStripStartIsSuffix(s);
      IntStripEndIsPrefix(u);
      SliceOfSuffix(s, a, |t|);
    }
    IntStripStartCutsBlanks(s);
    IntStripEndCutsBlanks(u);
    IntStripStartIsSuffix(s);
    forall k | a + |t| <= k < |s|
      ensures IsIntSpace(s[k])
    {
      assert s[k] == u[k - a];
    }
  }

  /** A prefix of a suffix is a middle slice. */
  lemma SliceOfSuffix<T>(s: seq<T>, a: nat, n: nat)
    requires a + n <= |s|
    ensures s[a..][..n] == s[a..a + n]
  {
  }

  /** `int(s, 16)` for a string of at most two characters, with `None` for the
      `ValueError`: blanks around the digits are skipped (`IsIntSpace`), a sign
      may lead, and at least one hex digit must follow. (A `0x` prefix or a
      digit separator needs more than two characters.) */
  function ParseHexField(s: string): (v: Option<int>)
    requires |s| <= 2
    ensures v.Some? ==> -255 <= v.value <= 255
  {
    var t := IntStrip(s);
    if t == [] then None
    else if t[0] == '-' then
      match DigitsValue(t[1..])
      case Some(n) => Some(-n)
      case None => None
    else if t[0] == '+' then DigitsValue(t[1..])
    else DigitsValue(t)
  }

  /** `hex_value[i : i + 2]`, with Python's clipping of slice bounds. */
  function Field(s: string, i: nat): (f: string)
    ensures |f| <= 2
  {
    var lo := if i < |s| then i else |s|;
    var hi := if i + 2 < |s| then i + 2 else |s|;
    s[lo..hi]
  }

  /** `_hex_to_rgb_tuple(hex_color)`: leading `#` characters are dropped and the
      fields at 0, 2 and 4 are parsed; `None` stands for the `ValueError`. */
  function HexToRgb(hexColor: string): (rgb: Option<Rgb>)
    ensures rgb.Some? ==> -255 <= rgb.value.r <= 255 && -255 <= rgb.value.g <= 255 && -255 <= rgb.value.b <= 255
  {
    var v := StripStartChar(hexColor, '#');
    match (ParseHexField(Field(v, 0)), ParseHexField(Field(v, 2)), ParseHexField(Field(v, 4)))
    case (Some(r), Some(g), Some(b)) => Some(Rgb(r, g, b))
    case _ => None
  }

  // ---------------------------------------------------------------------------
  // Round trips

  /** Two hex digits have no blank to skip. */
  lemma IntStripDigits(f: string)
    requires |f| == 2 && IsLowerHexDigit(f[0]) && IsLowerHexDigit(f[1])
    ensures IntStrip(f) == f
  {
    assert IntStripStart(f) == f;
    assert IntStripEnd(f) == f;
  }

  /** A space before a digit is skipped, but a U+001C separator is not blank
      to the integer parser, so a field padded with one fails to parse. */
  lemma SeparatorIsNotBlank()
    ensures ParseHexField([' ', '1']) == Some(1)
    ensures ParseHexField(['\U{1C}', '1']) == None
  {
    assert IntStripStart([' ', '1']) == ['1'];
    assert IntStripEnd(['1']) == ['1'];
    assert IntStrip(['\U{1C}', '1']) == ['\U{1C}', '1'];
  }

  /** A colour whose fields are padded with U+001C is rejected. */
  lemma SeparatorColorFails()
    ensures HexToRgb(['#', '\U{1C}', '1', '\U{1C}', '2', '\U{1C}', '3']) == None
  {
    var v := ['\U{1C}', '1', '\U{1C}', '2', '\U{1C}', '3'];
    assert StripStartChar(['#'] + v, '#') == v by {
      assert (['#'] + v)[1..] == v;
    }
    assert ['#', '\U{1C}', '1', '\U{1C}', '2', '\U{1C}', '3'] == ['#'] + v;
    assert Field(v, 0) == ['\U{1C}', '1'];
    SeparatorIsNotBlank();
  }

  /** Two lowercase hex digits parse to the channel they format. */
  lemma Hex2Parses(n: int)
    requires 0 <= n < 256
    ensures ParseHexField(Hex2(n)) == Some(n)
    ensures IsLowerHexDigit(Hex2(n)[0]) && IsLowerHexDigit(Hex2(n)[1])
  {
    IntStripDigits(Hex2(n));
  }

  /** A whole channel value survives clamping. */
  lemma ClampWhole(n: int)
    requires 0 <= n <= 255
    ensures ClampChannel(n as real) == n
  {
  }

  /** Two lowercase hex digits parse to a channel that formats back to them. */
  lemma FieldRoundTrip(f: string)
    requires |f| == 2 && IsLowerHexDigit(f[0]) && IsLowerHexDigit(f[1])
    ensures ParseHexField(f).Some?
    ensures 0 <= ParseHexField(f).value <= 255 && Hex2(ParseHexField(f).value) == f
  {
    IntStripDigits(f);
    DigitRoundTrip(f[0]);
    DigitRoundTrip(f[1]);
    var hi, lo := DigitValue(f[0]).value, DigitValue(f[1]).value;
    assert ParseHexField(f) == Some(16 * hi + lo);
    assert (16 * hi + lo) / 16 == hi && (16 * hi + lo) % 16 == lo;
  }

  /** A lowercase hex digit reads as a value in [0, 15] that prints as itself. */
  lemma DigitRoundTrip(c: char)
    requires IsLowerHexDigit(c)
    ensures DigitValue(c).Some? && 0 <= DigitValue(c).value < 16
    ensures HexDigit(DigitValue(c).value) == c
  {
  }

  /** The three fields of six characters are its pairs. */
  lemma FieldsOf(x: string, y: string, z: string)
    requires |x| == 2 && |y| == 2 && |z| == 2
    ensures Field(x + y + z, 0) == x && Field(x + y + z, 2) == y && Field(x + y + z, 4) == z
  {
    var v := x + y + z;
    assert v[0..2] == x && v[2..4] == y && v[4..6] == z;
  }

  /** One `#` in front of a hex digit is all that `lstrip("#")` removes. */
  lemma StripHash(v: string)
    requires v != [] && IsLowerHexDigit(v[0])
    ensures StripStartChar("#" + v, '#') == v
  {
    assert ("#" + v)[1..] == v;
  }

  /** Parsing what `_rgb_to_hex` printed gives back the clamped, truncated
      channels. */
  lemma HexRoundTrip(r: real, g: real, b: real)
    ensures HexToRgb(RgbToHex(r, g, b)) == Some(Rgb(ClampChannel(r), ClampChannel(g), ClampChannel(b)))
  {
    var x, y, z := Hex2(ClampChannel(r)), Hex2(ClampChannel(g)), Hex2(ClampChannel(b));
    Hex2Parses(ClampChannel(r));
    Hex2Parses(ClampChannel(g));
    Hex2Parses(ClampChannel(b));
    var v := x + y + z;
    assert RgbToHex(r, g, b) == "#" + v;
    StripHash(v);
    FieldsOf(x, y, z);
  }

  /** A seven-character colour is its `#` and its three fields. */
  lemma SevenChars(s: string)
    requires |s| == 7 && s[0] == '#'
    ensures s == "#" + (s[1..3] + s[3..5] + s[5..7])
  {
  }

  /** Every `#rrggbb` colour in lowercase parses to channels in [0, 255] that
      format back to the same string. */
  lemma HexColorRoundTrip(s: string)
    requires IsHexColor(s)
    ensures HexToRgb(s).Some?
    ensures var c := HexToRgb(s).value;
      && 0 <= c.r <= 255 && 0 <= c.g <= 255 && 0 <= c.b <= 255
      && RgbToHex(c.r as real, c.g as real, c.b as real) == s
  {
    var f0, f1, f2 := s[1..3], s[3..5], s[5..7];
    FieldRoundTrip(f0);
    FieldRoundTrip(f1);
    FieldRoundTrip(f2);
    var r, g, b := ParseHexField(f0).value, ParseHexField(f1).value, ParseHexField(f2).value;
    ClampWhole(r);
    ClampWhole(g);
    ClampWhole(b);
    SevenChars(s);
    assert Hex2(ClampChannel(r as real)) == f0;
    assert Hex2(ClampChannel(g as real)) == f1;
    assert Hex2(ClampChannel(b as real)) == f2;
    assert RgbToHex(r as real, g as real, b as real) == s;
    HexRoundTrip(r as real, g as real, b as real);
  }
}
