/**
 * Laws of colour resolution (`Color::parse` in tiler_derive/src/glyph.rs): what the
 * name table guarantees, the round trips of the `#rrggbb`, `rgb(...)` and `hsl(...)`
 * notations, and worked examples.
 */
module ColorLaws {
  import opened Results
  import opened Colors

  // ---------------------------------------------------------------------------
  // The name table

  /** An entry of the name table that no notation marker can reach: its name holds
      neither `(` nor `#`, the lower-case spellings "moccasin" and "peachpuff" are not
      keys, and `Moccasin` and `PeachPuff` are reached only by their capitalised keys. */
  predicate WellFormedEntry(e: (string, RawColor)) {
    && '(' !in e.0 && '#' !in e.0
    && e.0 != "moccasin" && e.0 != "peachpuff"
    && (e.1 == Moccasin ==> e.0 == "Moccasin")
    && (e.1 == PeachPuff ==> e.0 == "Peachpuff")
  }

  predicate AllWellFormed(t: seq<(string, RawColor)>) {
    forall i :: 0 <= i < |t| ==> WellFormedEntry(t[i])
  }

  // The lemmas from here to `NamedColorsWellFormed` only cut the 141-entry table into
  // its colour families, and each family into two halves, so that the solver checks
  // `WellFormedEntry` on a few entries at a time; they model nothing of their own.

  lemma AllWellFormedConcat(a: seq<(string, RawColor)>, b: seq<(string, RawColor)>)
    requires AllWellFormed(a) && AllWellFormed(b)
    ensures AllWellFormed(a + b)
  {
  }

  lemma RedNamesHead()
    ensures forall i :: 0 <= i < 4 ==> WellFormedEntry(RedNames[i])
  {
  }

  lemma RedNamesTail()
    ensures forall i :: 4 <= i < 9 ==> WellFormedEntry(RedNames[i])
  {
  }

  lemma RedNamesWellFormed()
    ensures AllWellFormed(RedNames)
  {
    RedNamesHead();
    RedNamesTail();
  }

  lemma PinkNamesHead()
    ensures forall i :: 0 <= i < 3 ==> WellFormedEntry(PinkNames[i])
  {
  }

  lemma PinkNamesTail()
    ensures forall i :: 3 <= i < 6 ==> WellFormedEntry(PinkNames[i])
  {
  }

  lemma PinkNamesWellFormed()
    ensures AllWellFormed(PinkNames)
  {
    PinkNamesHead();
    PinkNamesTail();
  }

  lemma OrangeNamesHead()
    ensures forall i :: 0 <= i < 3 ==> WellFormedEntry(OrangeNames[i])
  {
  }

  lemma OrangeNamesTail()
    ensures forall i :: 3 <= i < 5 ==> WellFormedEntry(OrangeNames[i])
  {
  }

  lemma OrangeNamesWellFormed()
    ensures AllWellFormed(OrangeNames)
  {
    OrangeNamesHead();
    OrangeNamesTail();
  }

  lemma YellowNamesHead()
    ensures forall i :: 0 <= i < 5 ==> WellFormedEntry(YellowNames[i])
  {
  }

  lemma YellowNamesTail()
    ensures forall i :: 5 <= i < 11 ==> WellFormedEntry(YellowNames[i])
  {
  }

  lemma YellowNamesWellFormed()
    ensures AllWellFormed(YellowNames)
  {
    YellowNamesHead();
    YellowNamesTail();
  }

  lemma PurpleNamesHead()
    ensures forall i :: 0 <= i < 9 ==> WellFormedEntry(PurpleNames[i])
  {
  }

  lemma PurpleNamesTail()
    ensures forall i :: 9 <= i < 19 ==> WellFormedEntry(PurpleNames[i])
  {
  }

  lemma PurpleNamesWellFormed()
    ensures AllWellFormed(PurpleNames)
  {
    PurpleNamesHead();
    PurpleNamesTail();
  }

  lemma GreenNamesHead()
    ensures forall i :: 0 <= i < 11 ==> WellFormedEntry(GreenNames[i])
  {
  }

  lemma GreenNamesTail()
    ensures forall i :: 11 <= i < 23 ==> WellFormedEntry(GreenNames[i])
  {
  }

  lemma GreenNamesWellFormed()
    ensures AllWellFormed(GreenNames)
  {
    GreenNamesHead();
    GreenNamesTail();
  }

  lemma BlueNamesHead()
    ensures forall i :: 0 <= i < 12 ==> WellFormedEntry(BlueNames[i])
  {
  }

  lemma BlueNamesTail()
    ensures forall i :: 12 <= i < 24 ==> WellFormedEntry(BlueNames[i])
  {
  }

  lemma BlueNamesWellFormed()
    ensures AllWellFormed(BlueNames)
  {
    BlueNamesHead();
    BlueNamesTail();
  }

  lemma BrownNamesHead()
    ensures forall i :: 0 <= i < 8 ==> WellFormedEntry(BrownNames[i])
  {
  }

  lemma BrownNamesTail()
    ensures forall i :: 8 <= i < 17 ==> WellFormedEntry(BrownNames[i])
  {
  }

  lemma BrownNamesWellFormed()
    ensures AllWellFormed(BrownNames)
  {
    BrownNamesHead();
    BrownNamesTail();
  }

  lemma WhiteNamesHead()
    ensures forall i :: 0 <= i < 8 ==> WellFormedEntry(WhiteNames[i])
  {
  }

  lemma WhiteNamesTail()
    ensures forall i :: 8 <= i < 17 ==> WellFormedEntry(WhiteNames[i])
  {
  }

  lemma WhiteNamesWellFormed()
    ensures AllWellFormed(WhiteNames)
  {
    WhiteNamesHead();
    WhiteNamesTail();
  }

  lemma GrayNamesHead()
    ensures forall i :: 0 <= i < 5 ==> WellFormedEntry(GrayNames[i])
  {
  }

  lemma GrayNamesTail()
    ensures forall i :: 5 <= i < 10 ==> WellFormedEntry(GrayNames[i])
  {
  }

  lemma GrayNamesWellFormed()
    ensures AllWellFormed(GrayNames)
  {
    GrayNamesHead();
    GrayNamesTail();
  }

  lemma NamedColorsWellFormed()
    ensures AllWellFormed(NamedColors)
  {
    RedNamesWellFormed();
    PinkNamesWellFormed();
    OrangeNamesWellFormed();
    YellowNamesWellFormed();
    PurpleNamesWellFormed();
    GreenNamesWellFormed();
    BlueNamesWellFormed();
    BrownNamesWellFormed();
    WhiteNamesWellFormed();
    GrayNamesWellFormed();
    AllWellFormedConcat(RedNames, PinkNames);
    AllWellFormedConcat(RedNames + PinkNames, OrangeNames);
    AllWellFormedConcat(RedNames + PinkNames + OrangeNames, YellowNames);
    AllWellFormedConcat(RedNames + PinkNames + OrangeNames + YellowNames, PurpleNames);
    AllWellFormedConcat(RedNames + PinkNames + OrangeNames + YellowNames + PurpleNames, GreenNames);
    AllWellFormedConcat(RedNames + PinkNames + OrangeNames + YellowNames + PurpleNames + GreenNames, BlueNames);
    AllWellFormedConcat(RedNames + PinkNames + OrangeNames + YellowNames + PurpleNames + GreenNames + BlueNames, BrownNames);
    AllWellFormedConcat(RedNames + PinkNames + OrangeNames + YellowNames + PurpleNames + GreenNames + BlueNames + BrownNames, WhiteNames);
    AllWellFormedConcat(RedNames + PinkNames + OrangeNames + YellowNames + PurpleNames + GreenNames + BlueNames + BrownNames + WhiteNames, GrayNames);
  }

  /** `to_ascii_lowercase` leaves no capital letter behind. */
  lemma LowerHasNoCapitals(s: string)
    ensures |Lower(s)| == |s|
    ensures forall i :: 0 <= i < |s| ==> !('A' <= Lower(s)[i] <= 'Z')
  {
  }

  /** The arms "Moccasin" and "Peachpuff" are compared with a lower-cased string, so no
      input resolves by name to `Moccasin` or `PeachPuff`. */
  lemma CapitalisedNamesNeverMatch(s: string)
    ensures FromNamed(s) != Some(Moccasin) && FromNamed(s) != Some(PeachPuff)
  {
    LowerHasNoCapitals(s);
    NamedColorsWellFormed();
    if FromNamed(s) == Some(Moccasin) || FromNamed(s) == Some(PeachPuff) {
      CapitalisedKeys(Lower(s), NamedColors);
    }
  }

  /** In a well-formed table the only keys of `Moccasin` and `PeachPuff` start with a
      capital. */
  lemma CapitalisedKeys(key: string, t: seq<(string, RawColor)>)
    requires AllWellFormed(t)
    requires Lookup(key, t) == Some(Moccasin) || Lookup(key, t) == Some(PeachPuff)
    ensures key != [] && 'A' <= key[0] <= 'Z'
  {
    var r := Lookup(key, t);
    var i :| 0 <= i < |t| && t[i] == (key, r.value);
    assert WellFormedEntry(t[i]);
  }

  /** A string holding `(` or `#` is never a colour name. */
  lemma MarkedStringsAreNotNames(s: string)
    requires '(' in s || '#' in s
    ensures FromNamed(s) == None
  {
    NamedColorsWellFormed();
    var k :| 0 <= k < |s| && (s[k] == '(' || s[k] == '#');
    assert Lower(s)[k] == s[k];
    assert Lower(s)[k] in Lower(s);
    AbsentKeys(Lower(s), NamedColors);
  }

  /** A well-formed table has no key holding `(` or `#`, and no key "moccasin" or
      "peachpuff". */
  lemma AbsentKeys(key: string, t: seq<(string, RawColor)>)
    requires AllWellFormed(t)
    requires '(' in key || '#' in key || key == "moccasin" || key == "peachpuff"
    ensures Lookup(key, t) == None
  {
    forall i | 0 <= i < |t|
      ensures t[i].0 != key
    {
      assert WellFormedEntry(t[i]);
    }
  }

  /** The spellings "moccasin" and "peachpuff", in any case, resolve to nothing at all. */
  lemma MoccasinAndPeachpuffUnresolved(s: string)
    requires Lower(s) == "moccasin" || Lower(s) == "peachpuff"
    ensures ParseColor(s) == Err(CouldNotParse)
  {
    UnmatchedNames(s);
    LoweredInitial(s);
    TrimKeepsFirst(s);
    NotHsl(s);
    NotHex(s);
    NotRgb(s);
    Unresolved(s);
  }

  /** `moccasin` and `peachpuff` are not keys of the name table, in any case. */
  lemma UnmatchedNames(s: string)
    requires Lower(s) == "moccasin" || Lower(s) == "peachpuff"
    ensures FromNamed(s) == None
  {
    NamedColorsWellFormed();
    AbsentKeys(Lower(s), NamedColors);
  }

  /** A word that lowers to `moccasin` or `peachpuff` starts with an `m` or a `p`. */
  lemma LoweredInitial(s: string)
    requires Lower(s) == "moccasin" || Lower(s) == "peachpuff"
    ensures s != [] && s[0] in "mMpP"
  {
    assert AsciiLower(s[0]) == Lower(s)[0];
  }

  // ---------------------------------------------------------------------------
  // Trimming

  /** Trimming keeps a first character that is not whitespace. */
  lemma TrimKeepsFirst(s: string)
    requires s != [] && !IsWhitespace(s[0])
    ensures Trim(s) != [] && Trim(s)[0] == s[0]
  {
    assert TrimStart(s) == s;
  }

  /** Whitespace in front of a word is all `trim_start` removes. */
  lemma {:induction false} TrimStartSkips(w: string, s: string)
    requires AllWhitespace(w)
    requires s == [] || !IsWhitespace(s[0])
    ensures TrimStart(w + s) == s
  {
    if w != [] {
      assert (w + s)[1..] == w[1..] + s;
      TrimStartSkips(w[1..], s);
    }
  }

  // ---------------------------------------------------------------------------
  // Digits

  /** The lower-case digit character of a value below 16. */
  function DigitChar(d: nat): (c: char)
    requires d < 16
    ensures IsHexDigit(c) && DigitValue(c) == d
    ensures d < 10 ==> IsDecDigit(c)
  {
    if d < 10 then ('0' as int + d) as char else ('a' as int + d - 10) as char
  }

  /** The two lower-case hexadecimal digits of a byte. */
  function Hex2(v: Byte): string {
    [DigitChar(v / 16), DigitChar(v % 16)]
  }

  /** The shortest decimal spelling of a byte. */
  function Decimal(v: Byte): (s: string)
    ensures 1 <= |s| <= 3
    ensures forall i :: 0 <= i < |s| ==> IsDecDigit(s[i])
  {
    if v < 10 then [DigitChar(v)]
    else if v < 100 then [DigitChar(v / 10), DigitChar(v % 10)]
    else [DigitChar(v / 100), DigitChar(v / 10 % 10), DigitChar(v % 10)]
  }

  lemma OneDigit(c: char, radix: nat)
    requires IsHexDigit(c)
    ensures DigitsValue([c], radix) == DigitValue(c)
  {
    assert [c][..0] == [];
  }

  /** `hex_primary` reads back the two digits `Hex2` writes, and leaves the rest. */
  lemma HexPrimaryRoundTrip(v: Byte, rest: string)
    ensures HexPrimary(Hex2(v) + rest) == Parsed(rest, v)
  {
    var s := Hex2(v) + rest;
    var k := LeadingCount(s, 2, IsHexDigit);
    assert k == 2 by {
      assert IsHexDigit(s[0]) && IsHexDigit(s[1]);
    }
    assert s[..2] == Hex2(v) && s[2..] == rest;
    OneDigit(DigitChar(v / 16), 16);
    assert Hex2(v)[..1] == [DigitChar(v / 16)];
    assert DigitsValue(Hex2(v), 16) == v / 16 * 16 + v % 16;
  }

  /** The decimal spelling denotes the byte it spells. */
  lemma DecimalValue(v: Byte)
    ensures DigitsValue(Decimal(v), 10) == v
  {
    var d := Decimal(v);
    if v < 10 {
      OneDigit(DigitChar(v), 10);
    } else if v < 100 {
      OneDigit(DigitChar(v / 10), 10);
      assert d[..1] == [DigitChar(v / 10)];
      assert DigitsValue(d, 10) == v / 10 * 10 + v % 10;
    } else {
      OneDigit(DigitChar(v / 100), 10);
      assert d[..2][..1] == [DigitChar(v / 100)];
      assert DigitsValue(d[..2], 10) == v / 100 * 10 + v / 10 % 10;
      assert DigitsValue(d, 10) == (v / 100 * 10 + v / 10 % 10) * 10 + v % 10;
    }
  }

  /** `parse_u8` reads back a decimal spelling when the next character is not a digit. */
  lemma ParseU8RoundTrip(v: Byte, rest: string)
    requires rest == [] || !IsDecDigit(rest[0])
    ensures ParseU8(Decimal(v) + rest) == Parsed(rest, v)
  {
    var d := Decimal(v);
    var s := d + rest;
    var k := LeadingCount(s, 3, IsDecDigit);
    assert k == |d| by {
      assert forall i :: 0 <= i < |d| ==> IsDecDigit(s[i]);
      if |d| < |s| { assert s[|d|] == rest[0]; }
    }
    assert s[..k] == d && s[k..] == rest;
    DecimalValue(v);
  }

  // ---------------------------------------------------------------------------
  // The `#rrggbb` notation

  /** The `#rrggbb` spelling of a colour. */
  function HexNotation(c: Color): (s: string)
    ensures |s| == 7 && s[0] == '#'
  {
    "#" + Hex2(c.r) + Hex2(c.g) + Hex2(c.b)
  }

  /** `parse_hex` reads back the spelling `HexNotation` writes and ignores what follows
      the sixth digit. */
  lemma ParseHexRoundTrip(c: Color, rest: string)
    ensures ParseHex(HexNotation(c) + rest) == Parsed(rest, Rgb(c.r, c.g, c.b))
  {
    assert HexNotation(c) + rest == "#" + (Hex2(c.r) + (Hex2(c.g) + (Hex2(c.b) + rest)));
    HexPrimaries(c.r, c.g, c.b, rest);
  }

  /** After the `#`, `parse_hex` reads three two-digit primaries in turn. */
  lemma HexPrimaries(r: Byte, g: Byte, b: Byte, rest: string)
    ensures ParseHex("#" + (Hex2(r) + (Hex2(g) + (Hex2(b) + rest)))) == Parsed(rest, Rgb(r, g, b))
  {
    HexPrimaryRoundTrip(r, Hex2(g) + (Hex2(b) + rest));
    HexPrimaryRoundTrip(g, Hex2(b) + rest);
    HexPrimaryRoundTrip(b, rest);
  }

  /** Every opaque colour is resolved from its `#rrggbb` spelling, whatever follows it. */
  lemma HexResolves(c: Color, rest: string)
    requires c.a == 255
    ensures ParseColor(HexNotation(c) + rest) == Ok(c)
  {
    var s := HexNotation(c) + rest;
    assert s[0] == '#';
    MarkedStringsAreNotNames(s);
    TrimKeepsFirst(s);
    NotHsl(s);
    ParseHexRoundTrip(c, rest);
    ResolvedByHex(s, c);
  }

  // ---------------------------------------------------------------------------
  // The `rgb(r, g, b)` and `hsl(h, s, l)` notations

  /** Eight runs of whitespace, to be placed around the tokens of a functional notation. */
  predicate WhitespaceRuns(w: seq<string>) {
    |w| == 8 && forall i :: 0 <= i < 8 ==> AllWhitespace(w[i])
  }

  /** `name(x,y,z)` in decimal, with `w[0]` before the name, `w[1]` before `(`, `w[2]`
      and `w[3]` around x, `w[4]` and `w[5]` around y, `w[6]` before z and `w[7]` before
      `)`. */
  function Functional(name: string, x: Byte, y: Byte, z: Byte, w: seq<string>): (s: string)
    requires |w| == 8
    ensures s != [] && s[|s| - 1] == ')'
  {
    w[0] + (name + (w[1] + ("(" + (w[2] + (Decimal(x) + (w[3] + ("," + (w[4] + (Decimal(y)
      + (w[5] + ("," + (w[6] + (Decimal(z) + (w[7] + ")"))))))))))))))
  }

  /** `trim_end` keeps a string that ends in a character that is not whitespace. */
  lemma TrimEndKeeps(s: string)
    requires s != [] && !IsWhitespace(s[|s| - 1])
    ensures TrimEnd(s) == s
  {
  }

  /** `tag` consumes exactly its tag. */
  lemma TagConsumes(t: string, tail: string)
    ensures Tag(t, t + tail) == Parsed(tail, ())
  {
    assert (t + tail)[|t|..] == tail;
  }

  lemma FieldSteps(sep: string, v: Byte, s0: string, s1: string, s2: string, s3: string, tail: string)
    requires TrimStart(s0) == s1 && ParseU8(s1) == Parsed(s2, v)
    requires TrimStart(s2) == s3 && Tag(sep, s3) == Parsed(tail, ())
    ensures Field(sep, s0) == Parsed(tail, v)
  {
  }

  /** One argument, `wa v wb sep`, is read back as `v`, leaving what follows `sep`. */
  lemma FieldRoundTrip(sep: string, v: Byte, wa: string, wb: string, tail: string)
    requires |sep| == 1 && !IsWhitespace(sep[0]) && !IsDecDigit(sep[0])
    requires AllWhitespace(wa) && AllWhitespace(wb)
    ensures Field(sep, wa + (Decimal(v) + (wb + (sep + tail)))) == Parsed(tail, v)
  {
    var s3 := sep + tail;
    var s2 := wb + s3;
    var s1 := Decimal(v) + s2;
    assert IsDecDigit(s1[0]);
    TrimStartSkips(wa, s1);
    assert s2 == [] || !IsDecDigit(s2[0]) by {
      if wb == [] { assert s2[0] == sep[0]; } else { assert s2[0] == wb[0]; }
    }
    ParseU8RoundTrip(v, s2);
    TrimStartSkips(wb, s3);
    TagConsumes(sep, tail);
    FieldSteps(sep, v, wa + s1, s1, s2, s3, tail);
  }

  lemma TripleSteps(name: string, input: string, body: string, p: string, f1: string,
                    f2: string, f3: string, tail: string, x: Byte, y: Byte, z: Byte)
    requires Trim(input) == body && Tag(name, body) == Parsed(p, ())
    requires Tag("(", TrimStart(p)) == Parsed(f1, ())
    requires Field(",", f1) == Parsed(f2, x) && Field(",", f2) == Parsed(f3, y)
    requires Field(")", f3) == Parsed(tail, z)
    ensures ParseTriple(name, input) == Parsed(TrimStart(tail), (x, y, z))
  {
  }

  /** The arguments `(x,y,z)` of a functional notation, after the name: `w[1]` before
      `(` and so on as in `Functional`. */
  function Arguments(x: Byte, y: Byte, z: Byte, w: seq<string>): string
    requires |w| == 8
  {
    w[1] + ("(" + (w[2] + (Decimal(x) + (w[3] + ("," + (w[4] + (Decimal(y)
      + (w[5] + ("," + (w[6] + (Decimal(z) + (w[7] + ")"))))))))))))
  }

  /** Trimming a functional notation removes exactly the whitespace before its name. */
  lemma TrimFunctional(name: string, x: Byte, y: Byte, z: Byte, w: seq<string>)
    requires name != [] && !IsWhitespace(name[0])
    requires WhitespaceRuns(w)
    ensures Trim(Functional(name, x, y, z, w)) == name + Arguments(x, y, z, w)
  {
    var body := name + Arguments(x, y, z, w);
    var input := Functional(name, x, y, z, w);
    assert input == w[0] + body;
    TrimStartSkips(w[0], body);
    assert body[|body| - 1] == input[|input| - 1];
    TrimEndKeeps(body);
  }

  /** The arguments of a functional notation parse, field by field, as `(x, y, z)`. */
  lemma ArgumentsRoundTrip(x: Byte, y: Byte, z: Byte, w: seq<string>)
    requires WhitespaceRuns(w)
    ensures var f1 := w[2] + (Decimal(x) + (w[3] + ("," + (w[4] + (Decimal(y)
              + (w[5] + ("," + (w[6] + (Decimal(z) + (w[7] + ")"))))))))));
            && Tag("(", TrimStart(Arguments(x, y, z, w))) == Parsed(f1, ())
            && var f2 := w[4] + (Decimal(y) + (w[5] + ("," + (w[6] + (Decimal(z) + (w[7] + ")"))))));
            && Field(",", f1) == Parsed(f2, x)
            && var f3 := w[6] + (Decimal(z) + (w[7] + ")"));
            && Field(",", f2) == Parsed(f3, y)
            && Field(")", f3) == Parsed("", z)
  {
    var f3 := w[6] + (Decimal(z) + (w[7] + ")"));
    var f2 := w[4] + (Decimal(y) + (w[5] + ("," + f3)));
    var f1 := w[2] + (Decimal(x) + (w[3] + ("," + f2)));
    ArgumentsOpen(x, y, z, w);
    FieldRoundTrip(",", x, w[2], w[3], f2);
    FieldRoundTrip(",", y, w[4], w[5], f3);
    LastFieldRoundTrip(z, w[6], w[7]);
  }

  lemma ArgumentsOpen(x: Byte, y: Byte, z: Byte, w: seq<string>)
    requires WhitespaceRuns(w)
    ensures Tag("(", TrimStart(Arguments(x, y, z, w))) == Parsed(Arguments(x, y, z, w)[|w[1]| + 1..], ())
    ensures Arguments(x, y, z, w)[|w[1]| + 1..] == w[2] + (Decimal(x) + (w[3] + ("," + (w[4] + (Decimal(y)
              + (w[5] + ("," + (w[6] + (Decimal(z) + (w[7] + ")"))))))))))
  {
    var f1 := w[2] + (Decimal(x) + (w[3] + ("," + (w[4] + (Decimal(y)
              + (w[5] + ("," + (w[6] + (Decimal(z) + (w[7] + ")"))))))))));
    assert Arguments(x, y, z, w) == w[1] + ("(" + f1);
    TrimStartSkips(w[1], "(" + f1);
    TagConsumes("(", f1);
  }

  lemma LastFieldRoundTrip(z: Byte, wa: string, wb: string)
    requires AllWhitespace(wa) && AllWhitespace(wb)
    ensures Field(")", wa + (Decimal(z) + (wb + ")"))) == Parsed("", z)
  {
    assert ")" + "" == ")";
    FieldRoundTrip(")", z, wa, wb, "");
  }

  /** The shared parser of `parse_rgb` and `parse_hsl` reads back every spelling of
      `name(x,y,z)` with whitespace before, between and after its tokens. */
  lemma TripleRoundTrip(name: string, x: Byte, y: Byte, z: Byte, w: seq<string>)
    requires name != [] && !IsWhitespace(name[0])
    requires WhitespaceRuns(w)
    ensures ParseTriple(name, Functional(name, x, y, z, w)) == Parsed("", (x, y, z))
  {
    var args := Arguments(x, y, z, w);
    TrimFunctional(name, x, y, z, w);
    TagConsumes(name, args);
    ArgumentsRoundTrip(x, y, z, w);
    var f3 := w[6] + (Decimal(z) + (w[7] + ")"));
    var f2 := w[4] + (Decimal(y) + (w[5] + ("," + f3)));
    var f1 := w[2] + (Decimal(x) + (w[3] + ("," + f2)));
    TripleSteps(name, Functional(name, x, y, z, w), name + args, args, f1, f2, f3, "", x, y, z);
  }

  /** The first character of a string is whitespace or is where its trimmed form starts. */
  lemma FirstOfTrimmed(s: string)
    requires Trim(s) != []
    ensures IsWhitespace(s[0]) || s[0] == Trim(s)[0]
  {
    var ts := TrimStart(s);
    if |s| - |ts| > 0 {
      assert s[..|s| - |ts|][0] == s[0];
    } else {
      assert ts == s;
    }
  }

  /** What the shared parser has read once it accepts: its name, then `(`. */
  lemma TripleOpens(name: string, input: string)
    requires ParseTriple(name, input).Parsed?
    ensures Tag(name, Trim(input)).Parsed?
    ensures Tag("(", TrimStart(Tag(name, Trim(input)).rest)).Parsed?
  {
  }

  /** A `(` found after the name in the trimmed input is a `(` of the input. */
  lemma ParenInInput(name: string, input: string)
    requires Tag(name, Trim(input)).Parsed?
    requires Tag("(", TrimStart(Tag(name, Trim(input)).rest)).Parsed?
    ensures '(' in input
  {
    var ts := TrimStart(input);
    var t := Trim(input);
    var a := Tag(name, t);
    var u := TrimStart(a.rest);
    assert u[0] == '(';
    SuffixMembers(a.rest, u);
    SuffixMembers(t, a.rest);
    PrefixMembers(ts, t);
    SuffixMembers(input, ts);
  }

  lemma SuffixMembers(s: string, r: string)
    requires |r| <= |s| && r == s[|s| - |r|..]
    ensures forall c :: c in r ==> c in s
  {
    forall c | c in r
      ensures c in s
    {
      var i :| 0 <= i < |r| && r[i] == c;
      assert s[|s| - |r| + i] == c;
    }
  }

  lemma PrefixMembers(s: string, r: string)
    requires |r| <= |s| && r == s[..|r|]
    ensures forall c :: c in r ==> c in s
  {
    forall c | c in r
      ensures c in s
    {
      var i :| 0 <= i < |r| && r[i] == c;
      assert s[i] == c;
    }
  }

  /** Anything the shared parser accepts is not a colour name. */
  lemma TripleIsNotName(name: string, input: string)
    requires ParseTriple(name, input).Parsed?
    ensures FromNamed(input) == None
  {
    TripleOpens(name, input);
    ParenInInput(name, input);
    MarkedStringsAreNotNames(input);
  }

  /** A string whose trimmed form does not start with `#` does not start with `#`. */
  lemma NotHex(input: string)
    requires Trim(input) != [] && Trim(input)[0] != '#'
    ensures !ParseHex(input).Parsed?
  {
    FirstOfTrimmed(input);
  }

  /** A string whose trimmed form does not start with `h` is not `hsl(...)`. */
  lemma NotHsl(input: string)
    requires Trim(input) != [] && Trim(input)[0] != 'h'
    ensures ParseHsl(input).Error?
  {
  }

  /** A string whose trimmed form does not start with `r` is not `rgb(...)`. */
  lemma NotRgb(input: string)
    requires Trim(input) != [] && Trim(input)[0] != 'r'
    ensures !ParseRgb(input).Parsed?
  {
  }

  lemma RgbFromTriple(input: string, x: Byte, y: Byte, z: Byte, rest: string)
    requires ParseTriple("rgb", input) == Parsed(rest, (x, y, z))
    ensures ParseRgb(input) == Parsed(rest, Rgb(x, y, z))
  {
  }

  lemma HslFromTriple(input: string, x: Byte, y: Byte, z: Byte, rest: string)
    requires ParseTriple("hsl", input) == Parsed(rest, (x, y, z))
    ensures ParseHsl(input) == if y <= 100 && z <= 100 then Parsed(rest, Hsl(x, y, z)) else Failure
  {
  }

  /** The order of `RawColor::parse`, read from the outcome of each notation. */
  lemma Unresolved(input: string)
    requires FromNamed(input) == None && !ParseHsl(input).Parsed?
    requires !ParseHex(input).Parsed? && !ParseRgb(input).Parsed?
    ensures ParseColor(input) == Err(CouldNotParse)
  {
  }

  lemma ResolvedByHex(input: string, c: Color)
    requires c.a == 255
    requires FromNamed(input) == None && !ParseHsl(input).Parsed?
    requires ParseHex(input).Parsed? && ParseHex(input).value == Rgb(c.r, c.g, c.b)
    ensures ParseColor(input) == Ok(c)
  {
  }

  lemma ResolvedByRgb(input: string, c: Color)
    requires c.a == 255
    requires FromNamed(input) == None && !ParseHsl(input).Parsed? && !ParseHex(input).Parsed?
    requires ParseRgb(input).Parsed? && ParseRgb(input).value == Rgb(c.r, c.g, c.b)
    ensures ParseColor(input) == Ok(c)
  {
  }

  lemma ResolvedByHsl(input: string)
    requires FromNamed(input) == None && ParseHsl(input).Parsed?
    ensures ParseColor(input) == Err(HslUnimplemented)
  {
  }

  /** What each notation makes of an `rgb(r, g, b)` spelling. */
  lemma RgbNotationParses(x: Byte, y: Byte, z: Byte, w: seq<string>)
    requires WhitespaceRuns(w)
    ensures var input := Functional("rgb", x, y, z, w);
            && FromNamed(input) == None && !ParseHsl(input).Parsed? && !ParseHex(input).Parsed?
            && ParseRgb(input) == Parsed("", Rgb(x, y, z))
  {
    var input := Functional("rgb", x, y, z, w);
    TripleRoundTrip("rgb", x, y, z, w);
    TripleIsNotName("rgb", input);
    TrimFunctional("rgb", x, y, z, w);
    NotHex(input);
    NotHsl(input);
    RgbFromTriple(input, x, y, z, "");
  }

  /** Every opaque colour is resolved from each of its `rgb(r, g, b)` spellings. */
  lemma RgbResolves(c: Color, w: seq<string>)
    requires c.a == 255 && WhitespaceRuns(w)
    ensures ParseColor(Functional("rgb", c.r, c.g, c.b, w)) == Ok(c)
  {
    RgbNotationParses(c.r, c.g, c.b, w);
    ResolvedByRgb(Functional("rgb", c.r, c.g, c.b, w), c);
  }

  /** A well-formed `hsl(h, s, l)` always parses, and then its conversion is
      unimplemented; with saturation or lightness above 100 the hsl parser fails and
      no other notation accepts the string. */
  lemma HslResolution(h: Byte, sat: Byte, l: Byte, w: seq<string>)
    requires WhitespaceRuns(w)
    ensures ParseColor(Functional("hsl", h, sat, l, w))
            == if sat <= 100 && l <= 100 then Err(HslUnimplemented) else Err(CouldNotParse)
  {
    var input := Functional("hsl", h, sat, l, w);
    TripleRoundTrip("hsl", h, sat, l, w);
    HslFromTriple(input, h, sat, l, "");
    if sat <= 100 && l <= 100 {
      TripleIsNotName("hsl", input);
      ResolvedByHsl(input);
    } else {
      HslFailureUnresolved(input);
    }
  }

  /** When the hsl parser fails (saturation or lightness above 100) the whole string is
      unresolved: it is not a name, does not start with `#` and does not start with
      `rgb`. */
  lemma HslFailureUnresolved(input: string)
    requires ParseHsl(input).Failure?
    ensures ParseColor(input) == Err(CouldNotParse)
  {
    assert ParseTriple("hsl", input).Parsed?;
    TripleIsNotName("hsl", input);
    assert Trim(input)[0] == 'h';
    NotHex(input);
    NotRgb(input);
    Unresolved(input);
  }

  // ---------------------------------------------------------------------------
  // Names and the order of the notations

  /** The value of the first entry whose key matches. */
  lemma LookupFirst(key: string, t: seq<(string, RawColor)>, i: nat)
    requires i < |t| && t[i].0 == key
    requires forall j :: 0 <= j < i ==> t[j].0 != key
    ensures Lookup(key, t) == Some(t[i].1)
  {
  }

  lemma ResolvedByName(input: string)
    requires FromNamed(input).Some?
    ensures ParseColor(input) == FromRaw(FromNamed(input).value)
  {
  }

  /** Name resolution ignores ASCII case: two strings with the same lower-case form
      resolve alike when either is a name. */
  lemma NamesIgnoreCase(s: string, t: string)
    requires Lower(s) == Lower(t)
    requires FromNamed(s).Some?
    ensures ParseColor(s) == ParseColor(t)
  {
    ResolvedByName(s);
    ResolvedByName(t);
  }

  /** No string is accepted by two notations, so the order in which `RawColor::parse`
      tries them never decides the result. */
  lemma NameExcludesNotations(input: string)
    requires FromNamed(input).Some?
    ensures !ParseHsl(input).Parsed? && !ParseHex(input).Parsed? && !ParseRgb(input).Parsed?
  {
    if ParseHsl(input).Parsed? {
      TripleIsNotName("hsl", input);
    }
    if ParseRgb(input).Parsed? {
      TripleIsNotName("rgb", input);
    }
    if ParseHex(input).Parsed? {
      MarkedStringsAreNotNames(input);
    }
  }

  lemma HslExcludesHexAndRgb(input: string)
    requires ParseHsl(input).Parsed?
    ensures !ParseHex(input).Parsed? && !ParseRgb(input).Parsed?
  {
    assert Trim(input)[0] == 'h';
    NotHex(input);
    NotRgb(input);
  }

  lemma HexExcludesRgb(input: string)
    requires ParseHex(input).Parsed?
    ensures !ParseRgb(input).Parsed?
  {
    TrimKeepsFirst(input);
    NotRgb(input);
  }

  // ---------------------------------------------------------------------------
  // Bytes out of range

  /** `parse_u8` rejects three digits whose value exceeds 255 (`map_res` over
      `u8::from_str_radix`). */
  lemma ParseU8RejectsOverflow(input: string)
    requires |input| >= 3 && IsDecDigit(input[0]) && IsDecDigit(input[1]) && IsDecDigit(input[2])
    requires DigitsValue(input[..3], 10) > 255
    ensures ParseU8(input) == Error
  {
    assert LeadingCount(input, 3, IsDecDigit) == 3;
  }

  // ---------------------------------------------------------------------------
  // Worked examples

  lemma WhiteAndBlack()
    ensures WHITE == Color(255, 255, 255, 255) && BLACK == Color(0, 0, 0, 255)
  {
  }

  lemma HexExample()
    ensures ParseColor("#ff8000") == Ok(Color(255, 128, 0, 255))
    ensures ParseColor("#ff8000;") == Ok(Color(255, 128, 0, 255))
  {
    var c := Color(255, 128, 0, 255);
    assert HexNotation(c) == "#ff8000";
    assert HexNotation(c) + "" == "#ff8000";
    assert HexNotation(c) + ";" == "#ff8000;";
    HexResolves(c, "");
    HexResolves(c, ";");
  }

  /** The three-digit short form of CSS is not accepted. */
  lemma ShortHexExample()
    ensures ParseColor("#fff") == Err(CouldNotParse)
  {
    var s := "#fff";
    assert s[0] == '#';
    MarkedStringsAreNotNames(s);
    TrimKeepsFirst(s);
    NotHsl(s);
    NotRgb(s);
    Unresolved(s);
  }

  const Tight: seq<string> := ["", "", "", "", "", "", "", ""]
  const Spaced: seq<string> := ["", "", " ", " ", " ", " ", " ", " "]

  lemma DecimalExamples()
    ensures Decimal(10) == "10" && Decimal(20) == "20" && Decimal(30) == "30"
    ensures Decimal(120) == "120" && Decimal(50) == "50" && Decimal(101) == "101"
  {
  }

  lemma RgbSpellings()
    ensures Functional("rgb", 10, 20, 30, Tight) == "rgb(10,20,30)"
    ensures Functional("rgb", 10, 20, 30, Spaced) == "rgb( 10 , 20 , 30 )"
  {
    DecimalExamples();
  }

  lemma HslSpellings()
    ensures Functional("hsl", 120, 50, 50, Tight) == "hsl(120,50,50)"
    ensures Functional("hsl", 120, 101, 50, Tight) == "hsl(120,101,50)"
  {
    DecimalExamples();
  }

  lemma TightRgbExample()
    ensures ParseColor("rgb(10,20,30)") == Ok(Color(10, 20, 30, 255))
  {
    RgbSpellings();
    RgbResolves(Color(10, 20, 30, 255), Tight);
  }

  lemma SpacedRgbExample()
    ensures ParseColor("rgb( 10 , 20 , 30 )") == Ok(Color(10, 20, 30, 255))
  {
    RgbSpellings();
    RgbResolves(Color(10, 20, 30, 255), Spaced);
  }

  lemma HslExample()
    ensures ParseColor("hsl(120,50,50)") == Err(HslUnimplemented)
  {
    HslSpellings();
    HslResolution(120, 50, 50, Tight);
  }

  lemma HslOutOfRangeExample()
    ensures ParseColor("hsl(120,101,50)") == Err(CouldNotParse)
  {
    HslSpellings();
    HslResolution(120, 101, 50, Tight);
  }

  lemma RedEntry()
    ensures NamedColors[6] == ("red", Red)
    ensures forall j :: 0 <= j < 6 ==> NamedColors[j].0 != "red"
  {
  }

  lemma RedIsNamed()
    ensures FromNamed("red") == Some(Red)
  {
    RedEntry();
    assert Lower("red") == "red";
    LookupFirst("red", NamedColors, 6);
  }

  lemma LowerCaseNameExample()
    ensures ParseColor("red") == Ok(Color(255, 0, 0, 255))
  {
    RedIsNamed();
    RedConverts();
    ResolvedByName("red");
  }

  lemma RedConverts()
    ensures FromRaw(Red) == Ok(Color(255, 0, 0, 255))
  {
  }

  lemma UpperCaseNameExample()
    ensures ParseColor("RED") == Ok(Color(255, 0, 0, 255))
  {
    RedIsNamed();
    assert Lower("RED") == Lower("red");
    ResolvedByName("RED");
    RedConverts();
  }

  lemma MixedCaseNameExample()
    ensures ParseColor("Red") == Ok(Color(255, 0, 0, 255))
  {
    RedIsNamed();
    assert Lower("Red") == Lower("red");
    ResolvedByName("Red");
    RedConverts();
  }

  /** The functional notations, unlike names, are case-sensitive. */
  lemma UpperCaseRgbExample()
    ensures ParseColor("RGB(10,20,30)") == Err(CouldNotParse)
  {
    var s := "RGB(10,20,30)";
    assert s[3] == '(';
    MarkedStringsAreNotNames(s);
    TrimKeepsFirst(s);
    NotHex(s);
    NotHsl(s);
    NotRgb(s);
    Unresolved(s);
  }
}
