/**
 * Colour expressions and RGBA8 colours: the resolver behind `Color::parse` in
 * tiler_derive/src/glyph.rs. A colour string is tried, in this order, as a
 * case-folded colour name, as `hsl(h, s, l)`, as `#rrggbb` and as `rgb(r, g, b)`;
 * the first form that parses wins.
 */
module Colors {
  import opened Results

  /** An 8-bit channel (Rust `u8`). */
  type Byte = b: int | 0 <= b < 256

  /** An RGBA8 colour. */
  datatype Color = Color(r: Byte, g: Byte, b: Byte, a: Byte)
  {
    /** `Color::rgb`: an opaque colour from its primaries. */
    static function Rgb(r: Byte, g: Byte, b: Byte): Color {
      Color(r, g, b, 255)
    }

    /** `Color::mono`: an opaque grey of the given level. */
    static function Mono(level: Byte): (c: Color)
      ensures c.r == c.g == c.b == level && c.a == 255
    {
      Rgb(level, level, level)
    }
  }

  const WHITE: Color := Color.Mono(255)
  const BLACK: Color := Color.Mono(0)

  /** The colour a string denotes before conversion to RGBA8 (Rust `enum RawColor`). */
  datatype RawColor =
    | Rgb(red: Byte, green: Byte, blue: Byte)
    | Hsl(hue: Byte, saturation: Byte, lightness: Byte)
    | IndianRed
    | LightCoral
    | Salmon
    | DarkSalmon
    | LightSalmon
    | Crimson
    | Red
    | FireBrick
    | DarkRed
    | Pink
    | LightPink
    | HotPink
    | DeepPink
    | MediumVioletRed
    | PaleVioletRed
    | Coral
    | Tomato
    | OrangeRed
    | DarkOrange
    | Orange
    | Gold
    | Yellow
    | LightYellow
    | LemonChiffon
    | LightGoldenrodYellow
    | PapayaWhip
    | Moccasin
    | PeachPuff
    | PaleGoldenrod
    | Khaki
    | DarkKhaki
    | Lavender
    | Thistle
    | Plum
    | Violet
    | Orchid
    | Fuchsia
    | Magenta
    | MediumOrchid
    | MediumPurple
    | RebeccaPurple
    | BlueViolet
    | DarkViolet
    | DarkOrchid
    | DarkMagenta
    | Purple
    | Indigo
    | SlateBlue
    | DarkSlateBlue
    | MediumSlateBlue
    | GreenYellow
    | Chartreuse
    | LawnGreen
    | Lime
    | LimeGreen
    | PaleGreen
    | LightGreen
    | MediumSpringGreen
    | SpringGreen
    | MediumSeaGreen
    | SeaGreen
    | ForestGreen
    | Green
    | DarkGreen
    | YellowGreen
    | OliveDrab
    | Olive
    | DarkOliveGreen
    | MediumAquamarine
    | DarkSeaGreen
    | LightSeaGreen
    | DarkCyan
    | Teal
    | Aqua
    | Cyan
    | LightCyan
    | PaleTurquoise
    | Aquamarine
    | Turquoise
    | MediumTurquoise
    | DarkTurquoise
    | CadetBlue
    | SteelBlue
    | LightSteelBlue
    | PowderBlue
    | LightBlue
    | SkyBlue
    | LightSkyBlue
    | DeepSkyBlue
    | DodgerBlue
    | CornflowerBlue
    | RoyalBlue
    | Blue
    | MediumBlue
    | DarkBlue
    | Navy
    | MidnightBlue
    | Cornsilk
    | BlanchedAlmond
    | Bisque
    | NavajoWhite
    | Wheat
    | BurlyWood
    | Tan
    | RosyBrown
    | SandyBrown
    | Goldenrod
    | DarkGoldenrod
    | Peru
    | Chocolate
    | SaddleBrown
    | Sienna
    | Brown
    | Maroon
    | White
    | Snow
    | HoneyDew
    | MintCream
    | Azure
    | AliceBlue
    | GhostWhite
    | WhiteSmoke
    | SeaShell
    | Beige
    | OldLace
    | FloralWhite
    | Ivory
    | AntiqueWhite
    | Linen
    | LavenderBlush
    | MistyRose
    | Gainsboro
    | LightGray
    | Silver
    | DarkGray
    | Gray
    | DimGray
    | LightSlateGray
    | SlateGray
    | DarkSlateGray
    | Black

  /** Why `Color::parse` produced no colour. */
  datatype ColorError =
    | CouldNotParse     // no notation matched: `Err("could not parse color")`
    | HslUnimplemented  // a well-formed `hsl(..)` reached `unimplemented!()` (a panic)
  {
    function Message(): string {
      match this
      case CouldNotParse => "could not parse color"
      case HslUnimplemented => "not implemented"
    }
  }

  /** The outcome of a nom parser: the input left over and a value, a recoverable
      error (`nom::Err::Error`) or an unrecoverable failure (`nom::Err::Failure`). */
  datatype IResult<+T> = Parsed(rest: string, value: T) | Error | Failure
  {
    predicate IsFailure() {
      !Parsed?
    }

    function PropagateFailure<U>(): IResult<U>
      requires !Parsed?
    {
      if Error? then Error else Failure
    }

    function Extract(): (string, T)
      requires Parsed?
    {
      (rest, value)
    }
  }

  // ---------------------------------------------------------------------------
  // Characters and trimming

  /** `char::is_whitespace`: the Unicode White_Space property. */
  predicate IsWhitespace(c: char) {
    var n := c as int;
    (9 <= n <= 13) || n == 0x20 || n == 0x85 || n == 0xA0 || n == 0x1680
    || (0x2000 <= n <= 0x200A) || n == 0x2028 || n == 0x2029 || n == 0x202F
    || n == 0x205F || n == 0x3000
  }

  predicate AllWhitespace(s: string) {
    forall i :: 0 <= i < |s| ==> IsWhitespace(s[i])
  }

  /** `str::trim_start`: drops the longest whitespace prefix. */
  function TrimStart(s: string): (r: string)
    ensures |r| <= |s| && r == s[|s| - |r|..]
    ensures AllWhitespace(s[..|s| - |r|])
    ensures r == [] || !IsWhitespace(r[0])
  {
    if s != [] && IsWhitespace(s[0]) then TrimStart(s[1..]) else s
  }

  /** `str::trim_end`: drops the longest whitespace suffix. */
  function TrimEnd(s: string): (r: string)
    ensures |r| <= |s| && r == s[..|r|]
    ensures AllWhitespace(s[|r|..])
    ensures r == [] || !IsWhitespace(r[|r| - 1])
  {
    if s != [] && IsWhitespace(s[|s| - 1]) then TrimEnd(s[..|s| - 1]) else s
  }

  /** `str::trim`. */
  function Trim(s: string): string {
    TrimEnd(TrimStart(s))
  }

  predicate IsDecDigit(c: char) {
    '0' <= c <= '9'
  }

  predicate IsHexDigit(c: char) {
    IsDecDigit(c) || 'a' <= c <= 'f' || 'A' <= c <= 'F'
  }

  predicate IsAsciiLetter(c: char) {
    'a' <= c <= 'z' || 'A' <= c <= 'Z'
  }

  /** `char::to_digit(16)` on a hexadecimal digit. */
  function DigitValue(c: char): (d: nat)
    requires IsHexDigit(c)
    ensures d < 16
    ensures IsDecDigit(c) <==> d < 10
  {
    if IsDecDigit(c) then c as int - '0' as int
    else if 'a' <= c <= 'f' then c as int - 'a' as int + 10
    else c as int - 'A' as int + 10
  }

  /** The number a digit string denotes in the given radix, most significant digit first. */
  function DigitsValue(ds: string, radix: nat): nat
    requires forall i :: 0 <= i < |ds| ==> IsHexDigit(ds[i])
  {
    if ds == [] then 0 else DigitsValue(ds[..|ds| - 1], radix) * radix + DigitValue(ds[|ds| - 1])
  }

  // ---------------------------------------------------------------------------
  // nom primitives

  /** nom's `tag(t)`: succeeds, consuming `t`, when the input starts with `t`. */
  function Tag(t: string, input: string): (r: IResult<()>)
    ensures r.Parsed? <==> t <= input
    ensures r.Parsed? ==> input == t + r.rest
    ensures !r.Failure?
  {
    if t <= input then Parsed(input[|t|..], ()) else Error
  }

  /** The number of leading characters of `s` that satisfy `p`, counting at most `n`. */
  function LeadingCount(s: string, n: nat, p: char -> bool): (k: nat)
    ensures k <= n && k <= |s|
    ensures forall i :: 0 <= i < k ==> p(s[i])
    ensures k < n && k < |s| ==> !p(s[k])
  {
    if n == 0 || s == [] || !p(s[0]) then 0 else 1 + LeadingCount(s[1..], n - 1, p)
  }

  /** nom's `take_while_m_n(m, n, p)` on complete input: the longest prefix of at most
      `n` characters satisfying `p`; an error when that prefix is shorter than `m`. */
  function TakeWhileMN(m: nat, n: nat, p: char -> bool, input: string): (r: IResult<string>)
    ensures !r.Failure?
    ensures r.Parsed? ==> m <= |r.value| <= n && input == r.value + r.rest
    ensures r.Parsed? ==> forall i :: 0 <= i < |r.value| ==> p(r.value[i])
    ensures r.Parsed? && |r.value| < n && r.rest != [] ==> !p(r.rest[0])
  {
    var k := LeadingCount(input, n, p);
    if k < m then Error else Parsed(input[k..], input[..k])
  }

  /** `u8::from_str_radix` on a string of digits of that radix: the value, or nothing
      when it does not fit in a byte. */
  function FromStrRadixU8(ds: string, radix: nat): Option<Byte>
    requires forall i :: 0 <= i < |ds| ==> IsHexDigit(ds[i])
  {
    var v := DigitsValue(ds, radix);
    if v < 256 then Some(v) else None
  }

  /** `parse_u8`: one to three decimal digits, `map_res`-ed through `u8::from_str_radix`. */
  function ParseU8(input: string): (r: IResult<Byte>)
    ensures !r.Failure?
    ensures r.Parsed? ==> 1 <= |input| - |r.rest| <= 3 && input == input[..|input| - |r.rest|] + r.rest
    ensures r.Parsed? ==> r.rest == [] || !IsDecDigit(r.rest[0]) || |input| - |r.rest| == 3
  {
    match TakeWhileMN(1, 3, IsDecDigit, input)
    case Parsed(rest, ds) =>
      (match FromStrRadixU8(ds, 10)
       case Some(v) => Parsed(rest, v)
       case None => Error)
    case _ => Error
  }

  /** `hex_primary`: exactly two hexadecimal digits, `map_res`-ed through `u8::from_str_radix`. */
  function HexPrimary(input: string): (r: IResult<Byte>)
    ensures !r.Failure?
    ensures r.Parsed? ==> |input| >= 2 && r.rest == input[2..]
  {
    match TakeWhileMN(2, 2, IsHexDigit, input)
    case Parsed(rest, ds) =>
      (match FromStrRadixU8(ds, 16)
       case Some(v) => Parsed(rest, v)
       case None => Error)
    case _ => Error
  }

  // ---------------------------------------------------------------------------
  // The four notations

  /** `to_ascii_lowercase`. */
  function AsciiLower(c: char): char {
    if 'A' <= c <= 'Z' then (c as int + 32) as char else c
  }

  function Lower(s: string): string {
    seq(|s|, i requires 0 <= i < |s| => AsciiLower(s[i]))
  }

  /** `RawColor::from_named`: the input is lower-cased and matched against the colour
      names in the order the source lists them (a `match` on string literals, first arm
      wins). The entries for "Moccasin" and "Peachpuff" are written with capitals and so
      never equal a lower-cased string. */
  function FromNamed(name: string): Option<RawColor> {
    Lookup(Lower(name), NamedColors)
  }

  /** The value of the first entry of `table` whose key is `key`. */
  function Lookup(key: string, table: seq<(string, RawColor)>): (r: Option<RawColor>)
    ensures r.Some? ==> exists i :: 0 <= i < |table| && table[i] == (key, r.value)
                                    && forall j :: 0 <= j < i ==> table[j].0 != key
    ensures r.None? ==> forall i :: 0 <= i < |table| ==> table[i].0 != key
  {
    if table == [] then None
    else if table[0].0 == key then Some(table[0].1)
    else Lookup(key, table[1..])
  }

  /** The arms of `from_named`, in source order, grouped as the `RawColor` declaration
      groups them. */
  const NamedColors: seq<(string, RawColor)> :=
    RedNames + PinkNames + OrangeNames + YellowNames + PurpleNames
    + GreenNames + BlueNames + BrownNames + WhiteNames + GrayNames

  const RedNames: seq<(string, RawColor)> := [
      ("indianred", IndianRed),
      ("lightcoral", LightCoral),
      ("salmon", Salmon),
      ("darksalmon", DarkSalmon),
      ("lightsalmon", LightSalmon),
      ("crimson", Crimson),
      ("red", Red),
      ("firebrick", FireBrick),
      ("darkred", DarkRed)
    ]

  const PinkNames: seq<(string, RawColor)> := [
      ("pink", Pink),
      ("lightpink", LightPink),
      ("hotpink", HotPink),
      ("deeppink", DeepPink),
      ("mediumvioletred", MediumVioletRed),
      ("palevioletred", PaleVioletRed)
    ]

  const OrangeNames: seq<(string, RawColor)> := [
      ("coral", Coral),
      ("tomato", Tomato),
      ("orangered", OrangeRed),
      ("darkorange", DarkOrange),
      ("orange", Orange)
    ]

  const YellowNames: seq<(string, RawColor)> := [
      ("gold", Gold),
      ("yellow", Yellow),
      ("lightyellow", LightYellow),
      ("lemonchiffon", LemonChiffon),
      ("lightgoldenrodyellow", LightGoldenrodYellow),
      ("papayawhip", PapayaWhip),
      ("Moccasin", Moccasin),
      ("Peachpuff", PeachPuff),
      ("palegoldenrod", PaleGoldenrod),
      ("khaki", Khaki),
      ("darkkhaki", DarkKhaki)
    ]

  const PurpleNames: seq<(string, RawColor)> := [
      ("lavender", Lavender),
      ("thistle", Thistle),
      ("plum", Plum),
      ("violet", Violet),
      ("orchid", Orchid),
      ("fuchsia", Fuchsia),
      ("magenta", Magenta),
      ("mediumorchid", MediumOrchid),
      ("mediumpurple", MediumPurple),
      ("rebeccapurple", RebeccaPurple),
      ("blueviolet", BlueViolet),
      ("darkviolet", DarkViolet),
      ("darkorchid", DarkOrchid),
      ("darkmagenta", DarkMagenta),
      ("purple", Purple),
      ("indigo", Indigo),
      ("slateblue", SlateBlue),
      ("darkslateblue", DarkSlateBlue),
      ("mediumslateblue", MediumSlateBlue)
    ]

  const GreenNames: seq<(string, RawColor)> := [
      ("greenyellow", GreenYellow),
      ("chartreuse", Chartreuse),
      ("lawngreen", LawnGreen),
      ("lime", Lime),
      ("limegreen", LimeGreen),
      ("palegreen", PaleGreen),
      ("lightgreen", LightGreen),
      ("mediumspringgreen", MediumSpringGreen),
      ("springgreen", SpringGreen),
      ("mediumseagreen", MediumSeaGreen),
      ("seagreen", SeaGreen),
      ("forestgreen", ForestGreen),
      ("green", Green),
      ("darkgreen", DarkGreen),
      ("yellowgreen", YellowGreen),
      ("olivedrab", OliveDrab),
      ("olive", Olive),
      ("darkolivegreen", DarkOliveGreen),
      ("mediumaquamarine", MediumAquamarine),
      ("darkseagreen", DarkSeaGreen),
      ("lightseagreen", LightSeaGreen),
      ("darkcyan", DarkCyan),
      ("teal", Teal)
    ]

  const BlueNames: seq<(string, RawColor)> := [
      ("aqua", Aqua),
      ("cyan", Cyan),
      ("lightcyan", LightCyan),
      ("paleturquoise", PaleTurquoise),
      ("aquamarine", Aquamarine),
      ("turquoise", Turquoise),
      ("mediumturquoise", MediumTurquoise),
      ("darkturquoise", DarkTurquoise),
      ("cadetblue", CadetBlue),
      ("steelblue", SteelBlue),
      ("lightsteelblue", LightSteelBlue),
      ("powderblue", PowderBlue),
      ("lightblue", LightBlue),
      ("skyblue", SkyBlue),
      ("lightskyblue", LightSkyBlue),
      ("deepskyblue", DeepSkyBlue),
      ("dodgerblue", DodgerBlue),
      ("cornflowerblue", CornflowerBlue),
      ("royalblue", RoyalBlue),
      ("blue", Blue),
      ("mediumblue", MediumBlue),
      ("darkblue", DarkBlue),
      ("navy", Navy),
      ("midnightblue", MidnightBlue)
    ]

  const BrownNames: seq<(string, RawColor)> := [
      ("cornsilk", Cornsilk),
      ("blanchedalmond", BlanchedAlmond),
      ("bisque", Bisque),
      ("navajowhite", NavajoWhite),
      ("wheat", Wheat),
      ("burlywood", BurlyWood),
      ("tan", Tan),
      ("rosybrown", RosyBrown),
      ("sandybrown", SandyBrown),
      ("goldenrod", Goldenrod),
      ("darkgoldenrod", DarkGoldenrod),
      ("peru", Peru),
      ("chocolate", Chocolate),
      ("saddlebrown", SaddleBrown),
      ("sienna", Sienna),
      ("brown", Brown),
      ("maroon", Maroon)
    ]

  const WhiteNames: seq<(string, RawColor)> := [
      ("white", White),
      ("snow", Snow),
      ("honeydew", HoneyDew),
      ("mintcream", MintCream),
      ("azure", Azure),
      ("aliceblue", AliceBlue),
      ("ghostwhite", GhostWhite),
      ("whitesmoke", WhiteSmoke),
      ("seashell", SeaShell),
      ("beige", Beige),
      ("oldlace", OldLace),
      ("floralwhite", FloralWhite),
      ("ivory", Ivory),
      ("antiquewhite", AntiqueWhite),
      ("linen", Linen),
      ("lavenderblush", LavenderBlush),
      ("mistyrose", MistyRose)
    ]

  const GrayNames: seq<(string, RawColor)> := [
      ("gainsboro", Gainsboro),
      ("lightgray", LightGray),
      ("silver", Silver),
      ("darkgray", DarkGray),
      ("gray", Gray),
      ("dimgray", DimGray),
      ("lightslategray", LightSlateGray),
      ("slategray", SlateGray),
      ("darkslategray", DarkSlateGray),
      ("black", Black)
    ]

  /** The shared shape of `parse_hsl` and `parse_rgb`: the trimmed input must be
      `name ( u8 , u8 , u8 )` with any whitespace before each token after `name`;
      whitespace after `)` is consumed and anything else after it is left over. */
  function ParseTriple(name: string, input: string): (r: IResult<(Byte, Byte, Byte)>)
    ensures !r.Failure?
    ensures r.Parsed? ==> name <= Trim(input)
  {
    var input := Trim(input);
    var (input, _) :- Tag(name, input);
    var (input, _) :- Tag("(", TrimStart(input));
    var (input, first) :- Field(",", input);
    var (input, second) :- Field(",", input);
    var (input, third) :- Field(")", input);
    Parsed(TrimStart(input), (first, second, third))
  }

  /** One argument of `parse_triple`: whitespace, a `u8`, whitespace, then `sep`. */
  function Field(sep: string, input: string): (r: IResult<Byte>)
    ensures !r.Failure?
  {
    var (input, v) :- ParseU8(TrimStart(input));
    var (input, _) :- Tag(sep, TrimStart(input));
    Parsed(input, v)
  }

  /** `RawColor::parse_hsl`: saturation or lightness above 100 is a `Failure`. */
  function ParseHsl(input: string): (r: IResult<RawColor>)
    ensures r.Parsed? ==> r.value.Hsl? && r.value.saturation <= 100 && r.value.lightness <= 100
    ensures !r.Error? ==> ParseTriple("hsl", input).Parsed?
  {
    var (rest, (hue, saturation, lightness)) :- ParseTriple("hsl", input);
    if saturation > 100 || lightness > 100 then Failure
    else Parsed(rest, Hsl(hue, saturation, lightness))
  }

  /** `RawColor::parse_hex`: `#` and three two-digit hexadecimal primaries; no trimming. */
  function ParseHex(input: string): (r: IResult<RawColor>)
    ensures r.Parsed? ==> |input| >= 7 && input[0] == '#' && r.value.Rgb? && r.rest == input[7..]
  {
    var (input, _) :- Tag("#", input);
    var (input, red) :- HexPrimary(input);
    var (input, green) :- HexPrimary(input);
    var (input, blue) :- HexPrimary(input);
    Parsed(input, Rgb(red, green, blue))
  }

  /** `RawColor::parse_rgb`. */
  function ParseRgb(input: string): (r: IResult<RawColor>)
    ensures r.Parsed? ==> r.value.Rgb? && "rgb" <= Trim(input)
  {
    var (rest, (red, green, blue)) :- ParseTriple("rgb", input);
    Parsed(rest, Rgb(red, green, blue))
  }

  /** `RawColor::parse`: the first notation that parses wins; a parser that reports an
      error or a failure only passes the input on to the next notation. */
  function RawParse(input: string): (r: Option<RawColor>)
    ensures r.Some? <==> (FromNamed(input).Some? || ParseHsl(input).Parsed?
                          || ParseHex(input).Parsed? || ParseRgb(input).Parsed?)
    ensures FromNamed(input).Some? ==> r == FromNamed(input)
  {
    if FromNamed(input).Some? then FromNamed(input)
    else if ParseHsl(input).Parsed? then Some(ParseHsl(input).value)
    else if ParseHex(input).Parsed? then Some(ParseHex(input).value)
    else if ParseRgb(input).Parsed? then Some(ParseRgb(input).value)
    else None
  }

  /** The primaries `impl From<RawColor> for Color` gives each named colour. */
  function NamedPrimaries(raw: RawColor): (Byte, Byte, Byte)
    requires !raw.Rgb? && !raw.Hsl?
  {
    match raw
    case IndianRed => (205, 92, 92)
    case LightCoral => (240, 128, 128)
    case Salmon => (250, 128, 114)
    case DarkSalmon => (233, 150, 122)
    case LightSalmon => (255, 160, 122)
    case Crimson => (220, 20, 60)
    case Red => (255, 0, 0)
    case FireBrick => (178, 34, 34)
    case DarkRed => (139, 0, 0)
    case Pink => (255, 192, 203)
    case LightPink => (255, 182, 193)
    case HotPink => (255, 105, 180)
    case DeepPink => (255, 20, 147)
    case MediumVioletRed => (199, 21, 133)
    case PaleVioletRed => (219, 112, 147)
    case Coral => (255, 127, 80)
    case Tomato => (255, 99, 71)
    case OrangeRed => (255, 69, 0)
    case DarkOrange => (255, 140, 0)
    case Orange => (255, 165, 0)
    case Gold => (255, 215, 0)
    case Yellow => (255, 255, 0)
    case LightYellow => (255, 255, 224)
    case LemonChiffon => (255, 250, 205)
    case LightGoldenrodYellow => (250, 250, 210)
    case PapayaWhip => (255, 239, 213)
    case Moccasin => (255, 228, 181)
    case PeachPuff => (255, 218, 185)
    case PaleGoldenrod => (238, 232, 170)
    case Khaki => (240, 230, 140)
    case DarkKhaki => (189, 183, 107)
    case Lavender => (230, 230, 250)
    case Thistle => (216, 191, 216)
    case Plum => (221, 160, 221)
    case Violet => (238, 130, 238)
    case Orchid => (218, 112, 214)
    case Fuchsia => (255, 0, 255)
    case Magenta => (255, 0, 255)
    case MediumOrchid => (186, 85, 211)
    case MediumPurple => (147, 112, 219)
    case RebeccaPurple => (102, 51, 153)
    case BlueViolet => (138, 43, 226)
    case DarkViolet => (148, 0, 211)
    case DarkOrchid => (153, 50, 204)
    case DarkMagenta => (139, 0, 139)
    case Purple => (128, 0, 128)
    case Indigo => (75, 0, 130)
    case SlateBlue => (106, 90, 205)
    case DarkSlateBlue => (72, 61, 139)
    case MediumSlateBlue => (123, 104, 238)
    case GreenYellow => (173, 255, 47)
    case Chartreuse => (127, 255, 0)
    case LawnGreen => (124, 252, 0)
    case Lime => (0, 255, 0)
    case LimeGreen => (50, 205, 50)
    case PaleGreen => (152, 251, 152)
    case LightGreen => (144, 238, 144)
    case MediumSpringGreen => (0, 250, 154)
    case SpringGreen => (0, 255, 127)
    case MediumSeaGreen => (60, 179, 113)
    case SeaGreen => (46, 139, 87)
    case ForestGreen => (34, 139, 34)
    case Green => (0, 128, 0)
    case DarkGreen => (0, 100, 0)
    case YellowGreen => (154, 205, 50)
    case OliveDrab => (107, 142, 35)
    case Olive => (128, 128, 0)
    case DarkOliveGreen => (85, 107, 47)
    case MediumAquamarine => (102, 205, 170)
    case DarkSeaGreen => (143, 188, 139)
    case LightSeaGreen => (32, 178, 170)
    case DarkCyan => (0, 139, 139)
    case Teal => (0, 128, 128)
    case Aqua => (0, 255, 255)
    case Cyan => (0, 255, 255)
    case LightCyan => (224, 255, 255)
    case PaleTurquoise => (175, 238, 238)
    case Aquamarine => (127, 255, 212)
    case Turquoise => (64, 224, 208)
    case MediumTurquoise => (72, 209, 204)
    case DarkTurquoise => (0, 206, 209)
    case CadetBlue => (95, 158, 160)
    case SteelBlue => (70, 130, 180)
    case LightSteelBlue => (176, 196, 222)
    case PowderBlue => (176, 224, 230)
    case LightBlue => (173, 216, 230)
    case SkyBlue => (135, 206, 235)
    case LightSkyBlue => (135, 206, 250)
    case DeepSkyBlue => (0, 191, 255)
    case DodgerBlue => (30, 144, 255)
    case CornflowerBlue => (100, 149, 237)
    case RoyalBlue => (65, 105, 225)
    case Blue => (0, 0, 255)
    case MediumBlue => (0, 0, 205)
    case DarkBlue => (0, 0, 139)
    case Navy => (0, 0, 128)
    case MidnightBlue => (25, 25, 112)
    case Cornsilk => (255, 248, 220)
    case BlanchedAlmond => (255, 235, 205)
    case Bisque => (255, 228, 196)
    case NavajoWhite => (255, 222, 173)
    case Wheat => (245, 222, 179)
    case BurlyWood => (222, 184, 135)
    case Tan => (210, 180, 140)
    case RosyBrown => (188, 143, 143)
    case SandyBrown => (244, 164, 96)
    case Goldenrod => (218, 165, 32)
    case DarkGoldenrod => (184, 134, 11)
    case Peru => (205, 133, 63)
    case Chocolate => (210, 105, 30)
    case SaddleBrown => (139, 69, 19)
    case Sienna => (160, 82, 45)
    case Brown => (165, 42, 42)
    case Maroon => (128, 0, 0)
    case White => (255, 255, 255)
    case Snow => (255, 250, 250)
    case HoneyDew => (240, 255, 240)
    case MintCream => (245, 255, 250)
    case Azure => (240, 255, 255)
    case AliceBlue => (240, 248, 255)
    case GhostWhite => (248, 248, 255)
    case WhiteSmoke => (245, 245, 245)
    case SeaShell => (255, 245, 238)
    case Beige => (245, 245, 220)
    case OldLace => (253, 245, 230)
    case FloralWhite => (255, 250, 240)
    case Ivory => (255, 255, 240)
    case AntiqueWhite => (250, 235, 215)
    case Linen => (250, 240, 230)
    case LavenderBlush => (255, 240, 245)
    case MistyRose => (255, 228, 225)
    case Gainsboro => (220, 220, 220)
    case LightGray => (211, 211, 211)
    case Silver => (192, 192, 192)
    case DarkGray => (169, 169, 169)
    case Gray => (128, 128, 128)
    case DimGray => (105, 105, 105)
    case LightSlateGray => (119, 136, 153)
    case SlateGray => (112, 128, 144)
    case DarkSlateGray => (47, 79, 79)
    case Black => (0, 0, 0)
  }

  /** `impl From<RawColor> for Color`: every arm goes through `Color::rgb`, except `Hsl`,
      which is `unimplemented!()`. */
  function FromRaw(raw: RawColor): (r: Result<Color, ColorError>)
    ensures r.Ok? ==> r.value.a == 255
    ensures r.Err? <==> raw.Hsl?
    ensures r.Err? ==> r.error == HslUnimplemented
    ensures raw.Rgb? ==> r == Ok(Color(raw.red, raw.green, raw.blue, 255))
  {
    if raw.Rgb? then Ok(Color.Rgb(raw.red, raw.green, raw.blue))
    else if raw.Hsl? then Err(HslUnimplemented)
    else
      var (r, g, b) := NamedPrimaries(raw);
      Ok(Color.Rgb(r, g, b))
  }

  /** `Color::parse`: resolve a colour expression to RGBA8. */
  function ParseColor(input: string): (r: Result<Color, ColorError>)
    ensures r.Ok? ==> r.value.a == 255
    ensures r == Err(CouldNotParse) <==> RawParse(input).None?
    ensures r == Err(HslUnimplemented) <==> RawParse(input).Some? && RawParse(input).value.Hsl?
  {
    match RawParse(input)
    case None => Err(CouldNotParse)
    case Some(raw) => FromRaw(raw)
  }
}
