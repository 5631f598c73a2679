/** `hex_to_rgb` of app.py: strip every leading '#', expand a three-character
    shorthand, and read three two-character base-16 fields with Python's
    `int(field, 16)`. */
module HexColor {
  import opened Text

  datatype Rgb = Rgb(r: int, g: int, b: int)

  /** The outcome of `hex_to_rgb`: a colour, or the `ValueError` that
      `int()` raises, carrying the literal it could not read. */
  datatype Conversion = Converted(rgb: Rgb) | InvalidLiteral(literal: string)

  predicate IsHexDigit(c: char) {
    ('0' <= c <= '9') || ('a' <= c <= 'f') || ('A' <= c <= 'F')
  }

  function HexValue(c: char): (v: nat)
    requires IsHexDigit(c)
    ensures v < 16
  {
    if '0' <= c <= '9' then (c - '0') as nat
    else if 'a' <= c <= 'f' then (c - 'a') as nat + 10
    else (c - 'A') as nat + 10
  }

  /** `str.lstrip('#')`: the result does not start with '#'; it is a suffix
      of the input and everything removed was a '#' (`StripRemovesHashes`). */
  function LStripHash(s: string): (t: string)
    ensures |t| <= |s|
    ensures t == [] || t[0] != '#'
  {
    if s != [] && s[0] == '#' then LStripHash(s[1..]) else s
  }

  /** The shorthand rule of line 15-16: a string of exactly three characters
      has each character doubled; any other string is kept. */
  function Expand(s: string): string {
    if |s| == 3 then [s[0], s[0], s[1], s[1], s[2], s[2]] else s
  }

  /** Python's slice `s[i:j]`, which clamps both bounds to the length. */
  function Slice(s: string, i: nat, j: nat): (t: string)
    requires i <= j
    ensures |t| == (if j <= |s| then j - i else if i <= |s| then |s| - i else 0)
  {
    if i >= |s| then [] else if j >= |s| then s[i..] else s[i..j]
  }

  /** `str.strip()` of white space, for a field of at most two characters. */
  function StripSpace(s: string): (t: string)
    requires |s| <= 2
    ensures |t| <= |s|
  {
    var lead := if s != [] && IsPySpace(s[0]) then s[1..] else s;
    if lead != [] && IsPySpace(lead[|lead| - 1]) then lead[..|lead| - 1] else lead
  }

  /** Python's `int(field, 16)` on a field of at most two ASCII characters:
      surrounding white space is ignored, and what remains must be one or
      two hex digits, or a sign followed by one hex digit. With two
      characters at most, neither a `0x` prefix nor an underscore can be
      followed by a digit, so both always fail. */
  function ParseHexField(field: string): (v: Option<int>)
    requires |field| <= 2
  {
    var u := StripSpace(field);
    if |u| == 1 && IsHexDigit(u[0]) then Some(HexValue(u[0]) as int)
    else if |u| == 2 && IsHexDigit(u[0]) && IsHexDigit(u[1]) then Some(16 * HexValue(u[0]) + HexValue(u[1]))
    else if |u| == 2 && u[0] == '+' && IsHexDigit(u[1]) then Some(HexValue(u[1]) as int)
    else if |u| == 2 && u[0] == '-' && IsHexDigit(u[1]) then Some(0 - HexValue(u[1]))
    else None
  }

  /** The three fields read at offsets 0, 2 and 4. */
  function Fields(color: string): (f: seq<string>)
    ensures |f| == 3 && |f[0]| <= 2 && |f[1]| <= 2 && |f[2]| <= 2
  {
    var t := Expand(LStripHash(color));
    [Slice(t, 0, 2), Slice(t, 2, 4), Slice(t, 4, 6)]
  }

  /** Converting the three fields in order; the first one `int()` rejects
      ends the conversion. */
  function Convert(f: seq<string>): Conversion
    requires |f| == 3 && |f[0]| <= 2 && |f[1]| <= 2 && |f[2]| <= 2
  {
    var r, g, b := ParseHexField(f[0]), ParseHexField(f[1]), ParseHexField(f[2]);
    if r.None? then InvalidLiteral(f[0])
    else if g.None? then InvalidLiteral(f[1])
    else if b.None? then InvalidLiteral(f[2])
    else Converted(Rgb(r.value, g.value, b.value))
  }

  /** `hex_to_rgb`. */
  function HexToRgb(color: string): Conversion
    requires IsAscii(color)
  {
    Convert(Fields(color))
  }

  // ---------------------------------------------------------------------
  // Reference definitions

  function Hashes(n: nat): (s: string)
    ensures |s| == n && forall i :: 0 <= i < n ==> s[i] == '#'
  {
    if n == 0 then [] else ['#'] + Hashes(n - 1)
  }

  /** Each character written twice, as `''.join([c*2 for c in s])`. */
  function Doubled(s: string): (t: string)
    ensures |t| == 2 * |s|
  {
    if s == [] then [] else [s[0], s[0]] + Doubled(s[1..])
  }

  /** The value of a pair of hex digits. */
  function ByteOf(hi: char, lo: char): int
    requires IsHexDigit(hi) && IsHexDigit(lo)
  {
    16 * HexValue(hi) + HexValue(lo)
  }

  predicate SixHexDigits(t: string) {
    |t| >= 6 && forall i :: 0 <= i < 6 ==> IsHexDigit(t[i])
  }

  function LowerHexDigit(v: nat): (c: char)
    requires v < 16
    ensures IsHexDigit(c) && HexValue(c) == v
  {
    if v < 10 then ('0' as int + v) as char else ('a' as int + v - 10) as char
  }

  function ToLowerHex(c: char): (d: char)
    requires IsHexDigit(c)
  {
    if 'A' <= c <= 'F' then (c as int + 32) as char else c
  }

  predicate InByteRange(c: Rgb) {
    0 <= c.r < 256 && 0 <= c.g < 256 && 0 <= c.b < 256
  }

  /** `'%02x%02x%02x' % rgb`: six lower-case hex digits. */
  function FormatHex(c: Rgb): (s: string)
    requires InByteRange(c)
    ensures |s| == 6
  {
    [LowerHexDigit(c.r / 16), LowerHexDigit(c.r % 16),
     LowerHexDigit(c.g / 16), LowerHexDigit(c.g % 16),
     LowerHexDigit(c.b / 16), LowerHexDigit(c.b % 16)]
  }

  // ---------------------------------------------------------------------
  // Properties

  /** Two colours whose three fields agree convert alike. */
  lemma SameFields(x: string, y: string)
    requires IsAscii(x) && IsAscii(y) && Fields(x) == Fields(y)
    ensures HexToRgb(x) == HexToRgb(y)
  {
  }

  /** Everything `lstrip('#')` removes is a '#', and what it keeps is the
      rest of the input, unchanged. */
  lemma {:induction false} StripRemovesHashes(s: string)
    ensures var t := LStripHash(s);
            (forall i :: 0 <= i < |s| - |t| ==> s[i] == '#') &&
            s[|s| - |t|..] == t
  {
    if s != [] && s[0] == '#' {
      StripRemovesHashes(s[1..]);
      var t := LStripHash(s);
      assert s[1..][|s[1..]| - |t|..] == s[|s| - |t|..];
    }
  }

  lemma {:induction false} HashesStripped(n: nat, s: string)
    ensures LStripHash(Hashes(n) + s) == LStripHash(s)
  {
    if n > 0 {
      HashesStripped(n - 1, s);
      assert (Hashes(n) + s)[1..] == Hashes(n - 1) + s;
    } else {
      assert Hashes(n) + s == s;
    }
  }

  /** `lstrip` removes every leading '#', not only the first. */
  lemma LeadingHashesIgnored(n: nat, s: string)
    requires IsAscii(s)
    ensures IsAscii(Hashes(n) + s)
    ensures HexToRgb(Hashes(n) + s) == HexToRgb(s)
  {
    HashesStripped(n, s);
    SameFields(Hashes(n) + s, s);
  }

  lemma DoubledThree(t: string)
    requires |t| == 3
    ensures Doubled(t) == [t[0], t[0], t[1], t[1], t[2], t[2]]
  {
    assert Doubled(t) == [t[0], t[0]] + Doubled(t[1..]);
    assert Doubled(t[1..]) == [t[1], t[1]] + Doubled(t[2..]);
    assert Doubled(t[2..]) == [t[2], t[2]] + Doubled(t[3..]);
    assert t[3..] == [];
  }

  /** A three-character colour reads exactly as the six-character colour
      with each character doubled: `abc` is `aabbcc`. */
  lemma ShorthandIsDoubled(s: string)
    requires IsAscii(s) && |LStripHash(s)| == 3
    ensures IsAscii(Doubled(LStripHash(s)))
    ensures HexToRgb(s) == HexToRgb(Doubled(LStripHash(s)))
  {
    var t := LStripHash(s);
    var d := Doubled(t);
    DoubledThree(t);
    assert LStripHash(d) == d;
    assert Fields(s) == Fields(d);
    SameFields(s, d);
  }

  lemma TwoDigits(f: string)
    requires |f| == 2 && IsHexDigit(f[0]) && IsHexDigit(f[1])
    ensures ParseHexField(f) == Some(ByteOf(f[0], f[1]))
  {
    assert StripSpace(f) == f;
  }

  lemma SixDigitFields(s: string)
    requires SixHexDigits(LStripHash(s))
    ensures var t := LStripHash(s); Fields(s) == [t[0..2], t[2..4], t[4..6]]
  {
    var t := LStripHash(s);
    assert Expand(t) == t;
    assert Slice(t, 0, 2) == t[0..2];
    assert Slice(t, 2, 4) == t[2..4];
    assert Slice(t, 4, 6) == t[4..6];
  }

  /** For six hex digits each component is the base-16 value of its pair
      of characters, hence a byte. */
  lemma SixDigitsRead(s: string)
    requires IsAscii(s) && SixHexDigits(LStripHash(s))
    ensures var t := LStripHash(s);
            HexToRgb(s) == Converted(Rgb(ByteOf(t[0], t[1]), ByteOf(t[2], t[3]), ByteOf(t[4], t[5])))
    ensures HexToRgb(s).Converted? && InByteRange(HexToRgb(s).rgb)
  {
    var t := LStripHash(s);
    SixDigitFields(s);
    var f := Fields(s);
    TwoDigits(f[0]);
    TwoDigits(f[1]);
    TwoDigits(f[2]);
  }

  /** Only characters 0-5 after stripping are read; the rest is ignored. */
  lemma TrailingIgnored(s: string)
    requires IsAscii(s) && |LStripHash(s)| >= 6
    ensures IsAscii(LStripHash(s)[..6])
    ensures HexToRgb(s) == HexToRgb(LStripHash(s)[..6])
  {
    var t := LStripHash(s);
    var u := t[..6];
    assert LStripHash(u) == u;
    assert Expand(t) == t && Expand(u) == u;
    assert Slice(t, 0, 2) == t[0..2] == u[0..2] == Slice(u, 0, 2);
    assert Slice(t, 2, 4) == t[2..4] == u[2..4] == Slice(u, 2, 4);
    assert Slice(t, 4, 6) == t[4..6] == u[4..6] == Slice(u, 4, 6);
    assert Fields(s) == Fields(u);
    SameFields(s, u);
  }

  lemma DigitPair(v: nat)
    requires v < 256
    ensures ByteOf(LowerHexDigit(v / 16), LowerHexDigit(v % 16)) == v
  {
  }

  /** Formatting a colour as six hex digits and reading it back gives the
      colour again. */
  lemma FormatThenRead(c: Rgb)
    requires InByteRange(c)
    ensures IsAscii(FormatHex(c)) && HexToRgb(FormatHex(c)) == Converted(c)
  {
    var s := FormatHex(c);
    assert LStripHash(s) == s;
    SixDigitsRead(s);
    DigitPair(c.r);
    DigitPair(c.g);
    DigitPair(c.b);
  }

  lemma LowerOfPair(hi: char, lo: char)
    requires IsHexDigit(hi) && IsHexDigit(lo)
    ensures 0 <= ByteOf(hi, lo) < 256
    ensures LowerHexDigit(ByteOf(hi, lo) / 16) == ToLowerHex(hi)
    ensures LowerHexDigit(ByteOf(hi, lo) % 16) == ToLowerHex(lo)
  {
    var h, l := HexValue(hi), HexValue(lo);
    assert ByteOf(hi, lo) == 16 * h + l;
    assert (16 * h + l) / 16 == h && (16 * h + l) % 16 == l;
    LowerDigit(hi);
    LowerDigit(lo);
  }

  lemma LowerDigit(c: char)
    requires IsHexDigit(c)
    ensures LowerHexDigit(HexValue(c)) == ToLowerHex(c)
  {
  }

  function LowerHex(s: string): (t: string)
    requires forall i :: 0 <= i < |s| ==> IsHexDigit(s[i])
    ensures |t| == |s|
  {
    seq(|s|, i requires 0 <= i < |s| => ToLowerHex(s[i]))
  }

  lemma FormatPairs(s: string)
    requires |s| == 6 && SixHexDigits(s)
    ensures InByteRange(Rgb(ByteOf(s[0], s[1]), ByteOf(s[2], s[3]), ByteOf(s[4], s[5])))
    ensures FormatHex(Rgb(ByteOf(s[0], s[1]), ByteOf(s[2], s[3]), ByteOf(s[4], s[5]))) == LowerHex(s)
  {
    LowerOfPair(s[0], s[1]);
    LowerOfPair(s[2], s[3]);
    LowerOfPair(s[4], s[5]);
  }

  /** Reading six hex digits and formatting the colour back gives the same
      digits, up to letter case. */
  lemma ReadThenFormat(s: string)
    requires IsAscii(s) && |s| == 6 && SixHexDigits(s)
    ensures HexToRgb(s).Converted? && InByteRange(HexToRgb(s).rgb)
    ensures FormatHex(HexToRgb(s).rgb) == LowerHex(s)
  {
    assert LStripHash(s) == s;
    SixDigitsRead(s);
    FormatPairs(s);
  }

  /** After stripping, zero, one, two or four characters leave a field
      empty, and `int('', 16)` fails. */
  lemma ShortColourFails(s: string)
    requires IsAscii(s) && |LStripHash(s)| in {0, 1, 2, 4}
    ensures HexToRgb(s).InvalidLiteral?
  {
    var f := Fields(s);
    assert f[2] == [];
    assert ParseHexField([]).None?;
  }

  /** With five characters the third field is the single fifth character. */
  lemma FiveCharacters(s: string)
    requires |LStripHash(s)| == 5
    ensures Fields(s)[2] == LStripHash(s)[4..5]
  {
  }

  lemma StrayInField(f: string, j: nat)
    requires |f| == 2 && j < 2
    requires !IsHexDigit(f[j]) && !IsPySpace(f[j]) && f[j] != '+' && f[j] != '-'
    ensures ParseHexField(f).None?
  {
  }

  /** A field `int()` rejects makes the whole conversion fail. */
  lemma FieldFails(s: string, k: nat)
    requires IsAscii(s) && k < 3 && ParseHexField(Fields(s)[k]).None?
    ensures HexToRgb(s).InvalidLiteral?
  {
  }

  /** The outcome of `hex_to_rgb`: it converts exactly when all three
      fields are read, and otherwise raises on the literal of the first
      field `int()` rejects. */
  lemma ConvertOutcome(s: string)
    requires IsAscii(s)
    ensures var f := Fields(s);
            (HexToRgb(s).Converted? <==> forall k :: 0 <= k < 3 ==> ParseHexField(f[k]).Some?) &&
            (forall k :: 0 <= k < 3 && ParseHexField(f[k]).None? && (forall j :: 0 <= j < k ==> ParseHexField(f[j]).Some?) ==>
               HexToRgb(s) == InvalidLiteral(f[k]))
  {
  }

  /** A character among the six read that is neither a hex digit, white
      space nor a sign makes the conversion fail. */
  lemma StrayCharacterFails(s: string, i: nat)
    requires IsAscii(s) && |LStripHash(s)| >= 6 && i < 6
    requires var c := LStripHash(s)[i]; !IsHexDigit(c) && !IsPySpace(c) && c != '+' && c != '-'
    ensures HexToRgb(s).InvalidLiteral?
  {
    var t := LStripHash(s);
    var f := Fields(s);
    assert Expand(t) == t;
    if i < 2 {
      assert f[0] == t[0..2];
      StrayInField(f[0], i);
      FieldFails(s, 0);
    } else if i < 4 {
      assert f[1] == t[2..4];
      StrayInField(f[1], i - 2);
      FieldFails(s, 1);
    } else {
      assert f[2] == t[4..6];
      StrayInField(f[2], i - 4);
      FieldFails(s, 2);
    }
  }
}
