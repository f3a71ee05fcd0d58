# rogue — a Dafny model of the tile engine core

`rogue` is a small terminal-style roguelike written in Rust. The game (`src/main.rs`)
keeps a player position and draws rooms as nine-patches into a `Frame`, a
width×height grid of tiles stored column-major in one vector (`tiler/src/frame.rs`).
The tiles are an enum whose look is declared by `#[tileset(...)]` attributes. The
procedural macro `#[derive(TileSet)]` (`tiler_derive/src/lib.rs`) reads those
attributes, checks them, resolves colour names with an HTML-style colour parser, and
renders one 20×40 RGBA bitmap per tile with a font (`tiler_derive/src/glyph.rs`).

The model is laid out as follows.

- `results.dfy` (`Results`): the `Option` and `Result` values used for error paths.
- `colors.dfy` (`Colors`): `Color`, `RawColor` and the colour parser.
  - The parser tries, in order, the 141 names (case-insensitive), `hsl(h, s, l)`,
    `#rrggbb` and `rgb(r, g, b)`.
  - It is built from `nom`-style combinators: tag, take-while-m-n, the 8-bit decimal
    and 2-digit hex primaries, and whitespace trimming.
  - `Color::parse` fails with "could not parse color". It reaches the
    `unimplemented!()` panic of the HSL conversion, which is modelled as the error
    value `HslUnimplemented`.
- `color_laws.dfy` (`ColorLaws`): round trips and the order of the alternatives of
  the colour parser, with worked examples.
- `glyphs.dfy` (`Glyphs`): the `Glyph` RGBA buffer, written in place. This covers
  `Glyph::blank`, `set_pixel`, and `Font::glyph`'s painting of a rasterised outline
  over a background-filled cell, with clipping.
- `tilesets.dfy` (`TileSets`): the derive macro.
  - Parsing of `#[tileset(...)]` items and the flattening of several attributes.
  - The aggregation loop `get_all_tile_info`, with its five error cases and their
    order.
  - The atlas of bitmaps, characters and indices that the generated impls return,
    built tile by tile as the `map` closure does.
- `atlas_laws.dfy` (`AtlasLaws`): the shape of the atlas, and the generated `match`
  arms of `as_char` and `idx`.
- `tileset_laws.dfy` (`TileSetLaws`): what a successful derive means, and which
  error each malformed declaration produces.
- `frames.dfy` (`Frames`): `Frame<T>` as a class whose `buf` field the methods
  reassign, its index arithmetic, and the text of `debug_print`.
- `rogue.dfy` (`Rogue`): `Rect`, `Room`, the nine-patch drawing loops over a `Frame`,
  and the player's movement on arrow keys.

Behaviour worth knowing, all modelled as written:

- **Frame keys.** `frame[(a, b)]` goes to `get(row = a, col = b)` and slot
  `b * height + a`. Nothing checks `a < height`, so a key whose first part reaches
  past the height aliases a slot of the next column. On the game's 80×30 frame,
  `(35, 0)` and `(5, 1)` are the same cell (`Frames.RowOverflowAliases`,
  `Frames.KeysAliasExample`).
  - The nine-patch writes `frame[(x, y)]` with `x` horizontal, so the drawing
    lemmas that describe cells hold when the rectangle's x-range fits in the
    frame's height (`Rogue.RowsInFrame`).
- **Colour names.** The names are lower-cased before lookup. The table spells two of
  them with a capital (`"Moccasin"`, `"Peachpuff"`), so those two colours can
  never be named (`ColorLaws.MoccasinAndPeachpuffUnresolved`).
- **Colour blending.** `Font::glyph` calls `Color::interp(fg, bg, v)` while
  `interp` declares its parameters as `(bg, fg, t)`. The model takes the blend as a
  parameter, called in the same argument order.

## Model

| member | source | states |
|---|---|---|
| Colors.Color.Mono | tiler_derive/src/glyph.rs:120-123 | all three channels equal the level and alpha is 255 |
| Colors.TrimStart | tiler_derive/src/glyph.rs:815-831 | the result is a suffix of the input, what was removed is all whitespace, and the result does not start with whitespace |
| Colors.TrimEnd | tiler_derive/src/glyph.rs:775 | the result is a prefix, what was removed is all whitespace, and the result does not end with whitespace |
| Colors.DigitValue | tiler_derive/src/glyph.rs:838-843 | a hex digit's value is below 16, and below 10 exactly for decimal digits |
| Colors.Tag | tiler_derive/src/glyph.rs:776 | `tag` succeeds exactly when the input starts with the tag, and then leaves the input after it |
| Colors.LeadingCount | tiler_derive/src/glyph.rs:844 | counts the leading characters satisfying the predicate, capped at n, and stops at the first that fails |
| Colors.TakeWhileMN | tiler_derive/src/glyph.rs:844 | on success takes between m and n characters, all satisfying the predicate, and stops before one that fails unless n was reached |
| Colors.ParseU8 | tiler_derive/src/glyph.rs:847-856 | consumes 1 to 3 digits, and stops before a digit only after three |
| Colors.HexPrimary | tiler_derive/src/glyph.rs:836-845 | on success consumes exactly two characters |
| Colors.Lookup | tiler_derive/src/glyph.rs:624-771 | returns the colour of the first entry with the key, and None exactly when no entry has it |
| Colors.ParseTriple | tiler_derive/src/glyph.rs:813-833 | the shared `name(a, b, c)` shape never fails hard, and succeeds only when the trimmed input starts with the name |
| Colors.ParseHsl | tiler_derive/src/glyph.rs:773-800 | yields `Hsl` with saturation and lightness at most 100, and it only fails or succeeds when the triple itself parsed |
| Colors.ParseHex | tiler_derive/src/glyph.rs:802-811 | yields `Rgb` from `#` plus six characters and leaves the rest |
| Colors.ParseRgb | tiler_derive/src/glyph.rs:813-833 | yields `Rgb` and needs the trimmed input to start with `rgb` |
| Colors.RawParse | tiler_derive/src/glyph.rs:607-621 | succeeds exactly when one of the four alternatives does, and a name takes precedence |
| Colors.FromRaw | tiler_derive/src/glyph.rs:153-301 | `Rgb(r, g, b)` becomes an opaque colour with those channels; an `Hsl` value is the unimplemented error and nothing else is |
| Colors.ParseColor | tiler_derive/src/glyph.rs:126-129 | the result is opaque; it is "could not parse" exactly when no alternative matched, and the HSL error exactly when an HSL value was parsed |
| ColorLaws.NamedColorsWellFormed | tiler_derive/src/glyph.rs:153-301 | no name in the table contains `(` or `#`, none is spelled "moccasin" or "peachpuff", and Moccasin and PeachPuff are listed only under their capitalised spellings |
| ColorLaws.LowerHasNoCapitals | tiler_derive/src/glyph.rs:626 | lower-casing keeps the length and leaves no capital letter |
| ColorLaws.CapitalisedNamesNeverMatch | tiler_derive/src/glyph.rs:654-655 | no input string looks up Moccasin or PeachPuff by name |
| ColorLaws.CapitalisedKeys | tiler_derive/src/glyph.rs:654-655 | in a well-formed table, a key that finds Moccasin or PeachPuff starts with a capital |
| ColorLaws.AbsentKeys | tiler_derive/src/glyph.rs:624-771 | in a well-formed table, a key with `(` or `#`, or spelled "moccasin" or "peachpuff", finds nothing |
| ColorLaws.UnmatchedNames | tiler_derive/src/glyph.rs:624-627 | no spelling of "moccasin" or "peachpuff" is a colour name |
| ColorLaws.MoccasinAndPeachpuffUnresolved | tiler_derive/src/glyph.rs:654-655 | "moccasin" and "peachpuff", in any case, do not parse as colours |
| ColorLaws.MarkedStringsAreNotNames | tiler_derive/src/glyph.rs:624-771 | a string containing `(` or `#` is not a colour name |
| ColorLaws.HexPrimaryRoundTrip | tiler_derive/src/glyph.rs:836-845 | parsing the two hex digits of any byte gives the byte back and leaves the rest |
| ColorLaws.ParseU8RoundTrip | tiler_derive/src/glyph.rs:847-856 | parsing the decimal digits of any byte gives it back when no digit follows |
| ColorLaws.ParseU8RejectsOverflow | tiler_derive/src/glyph.rs:847-856 | three digits worth more than 255 are an error, not a shorter number |
| ColorLaws.ParseHexRoundTrip | tiler_derive/src/glyph.rs:802-811 | `#rrggbb` of any colour parses back to its channels |
| ColorLaws.HexPrimaries | tiler_derive/src/glyph.rs:802-811 | after `#`, three pairs of hex digits parse to their three bytes and leave the rest |
| ColorLaws.ResolvedByHex | tiler_derive/src/glyph.rs:607-621 | when no name and no HSL matches, parsed hex gives the opaque colour |
| ColorLaws.HexResolves | tiler_derive/src/glyph.rs:126-129 | `Color::parse` of the hex notation of any opaque colour, followed by anything, is that colour |
| ColorLaws.TripleRoundTrip | tiler_derive/src/glyph.rs:813-833 | `name( a , b , c )`, with any whitespace around the fields, parses back to the three bytes |
| ColorLaws.RgbNotationParses | tiler_derive/src/glyph.rs:607-621 | `rgb(...)` is no name, no HSL and no hex, and `parse_rgb` reads it back |
| ColorLaws.RgbResolves | tiler_derive/src/glyph.rs:126-129 | `Color::parse` of the `rgb(...)` notation of any opaque colour is that colour |
| ColorLaws.HslResolution | tiler_derive/src/glyph.rs:773-800 | `hsl(...)` hits the unimplemented conversion when saturation and lightness are at most 100, and does not parse otherwise |
| ColorLaws.HslFailureUnresolved | tiler_derive/src/glyph.rs:607-621 | after a hard HSL failure (saturation or lightness above 100) the `if let Ok` falls through, and the name, hex and rgb alternatives all miss too, so `Color::parse` reports could not parse |
| ColorLaws.ResolvedByName | tiler_derive/src/glyph.rs:607-610 | a recognised name decides the colour |
| ColorLaws.NamesIgnoreCase | tiler_derive/src/glyph.rs:624-627 | two spellings with the same lower case parse to the same colour |
| ColorLaws.NameExcludesNotations | tiler_derive/src/glyph.rs:607-621 | a name never also parses as HSL, hex or rgb |
| ColorLaws.HslExcludesHexAndRgb | tiler_derive/src/glyph.rs:611-618 | HSL input never also parses as hex or rgb |
| ColorLaws.HexExcludesRgb | tiler_derive/src/glyph.rs:614-618 | hex input never also parses as rgb |
| ColorLaws.WhiteAndBlack | tiler_derive/src/glyph.rs:107-108 | WHITE is (255, 255, 255, 255) and BLACK is (0, 0, 0, 255) |
| ColorLaws.HexExample | tiler_derive/src/glyph.rs:802-811 | "#ff8000" is (255, 128, 0), even with trailing text |
| ColorLaws.ShortHexExample | tiler_derive/src/glyph.rs:802-811 | the three-digit form "#fff" does not parse |
| ColorLaws.TightRgbExample | tiler_derive/src/glyph.rs:813-833 | "rgb(10,20,30)" is (10, 20, 30) |
| ColorLaws.SpacedRgbExample | tiler_derive/src/glyph.rs:813-833 | "rgb( 10 , 20 , 30 )" is (10, 20, 30) |
| ColorLaws.HslExample | tiler_derive/src/glyph.rs:158 | "hsl(120,50,50)" reaches the unimplemented conversion |
| ColorLaws.HslOutOfRangeExample | tiler_derive/src/glyph.rs:792-795 | "hsl(120,101,50)" does not parse |
| ColorLaws.LowerCaseNameExample | tiler_derive/src/glyph.rs:634 | "red" is (255, 0, 0) |
| ColorLaws.UpperCaseNameExample | tiler_derive/src/glyph.rs:626 | "RED" is (255, 0, 0) |
| ColorLaws.MixedCaseNameExample | tiler_derive/src/glyph.rs:626 | "Red" is (255, 0, 0) |
| ColorLaws.UpperCaseRgbExample | tiler_derive/src/glyph.rs:816 | "RGB(10,20,30)" does not parse, because the rgb tag is case-sensitive |
| Glyphs.Filled | tiler_derive/src/glyph.rs:70-83 | n pixels of four bytes, each repeating the colour's r, g, b, a |
| Glyphs.FilledPixel | tiler_derive/src/glyph.rs:70-83 | every pixel of a filled buffer is the fill colour |
| Glyphs.WritePixel | tiler_derive/src/glyph.rs:89-95 | the pixel's four bytes become the colour and every other byte is kept |
| Glyphs.PixelOffsetInGrid | tiler_derive/src/glyph.rs:85-87 | a pixel inside the glyph starts inside the buffer |
| Glyphs.PixelOffsetInjective | tiler_derive/src/glyph.rs:85-87 | distinct pixels inside the width have distinct offsets |
| Glyphs.Glyph.Blank | tiler_derive/src/glyph.rs:70-83 | a 20×40 glyph filled with the colour, which is valid |
| Glyphs.Glyph.SetPixel | tiler_derive/src/glyph.rs:89-95 | the glyph's data becomes the old data with that pixel written, and the dimensions stay |
| Glyphs.Target | tiler_derive/src/glyph.rs:44-48 | a sample is drawn exactly when its shifted position lies in the 20×40 cell |
| Glyphs.PaintKeepsUntouched | tiler_derive/src/glyph.rs:43-53 | a pixel no sample lands on keeps its bytes |
| Glyphs.PaintLastSampleWins | tiler_derive/src/glyph.rs:43-53 | a pixel holds the blend of the last sample that lands on it |
| Glyphs.GlyphData | tiler_derive/src/glyph.rs:32-57 | a rendered glyph always has 20×40×4 bytes, which is `Font::glyph`'s `is_valid` assertion |
| Glyphs.PaintSamples | tiler_derive/src/glyph.rs:43-53 | painting in place equals the painting function of the old data |
| Glyphs.RenderGlyph | tiler_derive/src/glyph.rs:32-57 | returns a fresh valid 20×40 glyph whose data is the background with the clipped samples painted |
| Glyphs.UncoveredPixelIsBackground | tiler_derive/src/glyph.rs:41-54 | a pixel no sample covers, or every pixel when there is no bounding box, is the background colour |
| Glyphs.CoveredPixelIsBlend | tiler_derive/src/glyph.rs:43-53 | a covered pixel is the blend of fg and bg at the coverage of its last sample |
| TileSets.ParseTileAttr | tiler_derive/src/lib.rs:44-79 | a parsed item has its keyword, an unknown keyword is the lookahead error, and a malformed known one the other error |
| TileSets.ParseItems | tiler_derive/src/lib.rs:88-96 | a list parses exactly when every item does, one attribute per item |
| TileSets.TileAttrsStep | tiler_derive/src/lib.rs:280-287 | one more attribute adds its parsed items when its path is `tileset`, propagates their error, and is skipped otherwise |
| TileSets.GetTileAttrs | tiler_derive/src/lib.rs:277-289 | the loop returns the concatenation of the items of the `tileset` attributes, or the first parse error |
| TileSets.TileAttrsFailFast | tiler_derive/src/lib.rs:285 | an error in the first n attributes is the error of the whole list |
| TileSets.ApplyAttr | tiler_derive/src/lib.rs:212-251 | one attribute can only fail with a duplicate char, a second default or a colour error for this variant |
| TileSets.ApplyAttrsStep | tiler_derive/src/lib.rs:211-252 | one more attribute applies to the state the earlier ones left |
| TileSets.ApplyAttrsFailFast | tiler_derive/src/lib.rs:211-252 | the first failing attribute decides the variant's error |
| TileSets.CollectTilesFailFast | tiler_derive/src/lib.rs:207-263 | the first failing variant decides the error |
| TileSets.VariantFails | tiler_derive/src/lib.rs:207-263 | a variant that fails after good predecessors makes the whole derive fail with its error |
| TileSets.ReadTileAttrs | tiler_derive/src/lib.rs:208-252 | the inner loop starts from no char, white on black, and equals folding the attributes |
| TileSets.GetAllTileInfo | tiler_derive/src/lib.rs:204-274 | the loop returns exactly the tile-set information of the variants, or its error |
| TileSets.AsU16 | tiler_derive/src/lib.rs:154-155 | `as u16` is below 65536 and keeps small values |
| TileSets.TileBitmap | tiler_derive/src/lib.rs:149-155 | a tile's bitmap is 20×40 with four bytes per pixel |
| TileSets.RenderTile | tiler_derive/src/lib.rs:149-155 | rendering a tile in place gives its bitmap: the glyph of its char in its colours, with `u16` dimensions |
| TileSets.AtlasStep | tiler_derive/src/lib.rs:135-171 | one more tile appends its bitmap, its `as_char` arm and its `idx` arm with the next index |
| TileSets.RenderAtlas | tiler_derive/src/lib.rs:134-171 | the `map`/`unzip` loop over the tiles, with `characters` pushed alongside, builds exactly the atlas of the tiles |
| TileSets.DeriveTileSet | tiler_derive/src/lib.rs:122-200 | the derive returns the atlas of the enum's tiles, or "expected enum", or the aggregation error |
| TileSets.Arm | tiler_derive/src/lib.rs:187-197 | a generated `match` picks the first arm of the variant, and has none exactly when no arm names it |
| TileSetLaws.Unparse | tiler_derive/src/lib.rs:44-79 | every attribute has an item that parses to it |
| TileSetLaws.ParseItemsRoundTrip | tiler_derive/src/lib.rs:88-96 | a list of items written from attributes parses back to them |
| TileSetLaws.TilesetOnly | tiler_derive/src/lib.rs:283 | keeps only attributes whose path is `tileset` |
| TileSetLaws.OtherPathsIgnored | tiler_derive/src/lib.rs:280-284 | attributes of other paths do not change the result |
| TileSetLaws.TileAttrsConcatenate | tiler_derive/src/lib.rs:277-289 | the attributes of two attribute lists are the concatenation of each's, and errors propagate from the first |
| TileSetLaws.ApplyAttrsMeaning | tiler_derive/src/lib.rs:211-252 | a variant's attributes succeed iff at most one char, at most one default overall and every colour parses; then the char, default and last fg/bg colours are the result |
| TileSetLaws.DefaultVariantExists | tiler_derive/src/lib.rs:226-227 | a default variant is recorded exactly when some variant is marked `default`, and it is one of the variants |
| TileSetLaws.VariantInfoMeaning | tiler_derive/src/lib.rs:207-262 | a variant yields a tile iff its attributes parse, are well formed and set a char; the tile carries its char and colours |
| TileSetLaws.CollectTilesMeaning | tiler_derive/src/lib.rs:207-263 | the loop over variants succeeds iff every variant is well formed and at most one is default, giving one tile per variant |
| TileSetLaws.CollectTilesLast | tiler_derive/src/lib.rs:207-263 | the induction step of the loop over variants: the last variant adds one tile |
| TileSetLaws.FrontFails | tiler_derive/src/lib.rs:207-263 | a failing prefix fails the whole list, and the list is not well formed |
| TileSetLaws.FrontSucceeds | tiler_derive/src/lib.rs:207-263 | after a successful prefix, the list succeeds iff its last variant does |
| TileSetLaws.AllWellFormedSnoc | tiler_derive/src/lib.rs:207-263 | a list is well formed iff its prefix and its last variant are |
| TileSetLaws.AllTileInfoMeaning | tiler_derive/src/lib.rs:204-274 | the derive succeeds iff every variant is well formed and exactly one is default; the tiles are one per variant in order, and the default is that variant |
| TileSetLaws.TileOfVariant | tiler_derive/src/lib.rs:257-262 | tile i carries variant i's ident, its single char and its last fg/bg colours, white and black otherwise |
| TileSetLaws.LastColorsResolve | tiler_derive/src/lib.rs:239-250 | when every colour parses, the last fg and bg colours parse |
| TileSetLaws.AttrFails | tiler_derive/src/lib.rs:211-251 | an attribute that fails after good predecessors fails the whole derive with its error |
| TileSetLaws.SecondCharRejected | tiler_derive/src/lib.rs:217-223 | a second `char` on a variant is "there must only be a single `char` attribute" |
| TileSetLaws.SecondDefaultRejected | tiler_derive/src/lib.rs:226-233 | a second `default` anywhere is "multiple variants marked as `default`" for that variant |
| TileSetLaws.BadColorRejected | tiler_derive/src/lib.rs:239-249 | a colour that does not parse fails the derive with the parser's error |
| TileSetLaws.MissingCharRejected | tiler_derive/src/lib.rs:253-256 | a variant without `char` is "no `char` set" |
| TileSetLaws.NoDefaultRejected | tiler_derive/src/lib.rs:264-272 | well-formed variants with no default are "no variant was declared `default`" |
| TileSetLaws.DeriveOutcome | tiler_derive/src/lib.rs:122-131 | the derive succeeds iff the input is an enum whose tile information succeeds, and reports "expected enum" or that error otherwise |
| AtlasLaws.AtlasBitmapsShape | tiler_derive/src/lib.rs:149-155 | every bitmap of the atlas is 20×40 with 3200 bytes |
| AtlasLaws.ArmOfDistinct | tiler_derive/src/lib.rs:187-197 | with distinct idents, each arm is the one its ident selects |
| AtlasLaws.AtlasArms | tiler_derive/src/lib.rs:172-197 | with distinct idents, `idx` of tile i is i, bitmap i is tile i's glyph, and `as_char` of tile i is its char |
| TileSetLaws.GeneratedImpls | tiler_derive/src/lib.rs:172-197 | for a successful derive, variant i is well formed, its `as_char` is its declared char, its `idx` is i, `get_bmps()[i]` is the glyph of its tile, and `Default` is the marked variant |
| Frames.OffsetInGrid | tiler/src/frame.rs:61-63 | a cell inside the grid has an index inside the buffer |
| Frames.OffsetInjective | tiler/src/frame.rs:61-63 | distinct cells with rows below the height have distinct indices |
| Frames.OffsetMonotone | tiler/src/frame.rs:61-63 | the index grows with row and column |
| Frames.RowOverflowAliases | tiler/src/frame.rs:61-63 | a row at or past the height reaches the cell of the next column |
| Frames.KeysAliasExample | tiler/src/frame.rs:47-50 | on an 80×30 frame the keys (35, 0) and (5, 1) reach the same slot |
| Frames.GetAfterPut | tiler/src/frame.rs:47-59 | reading a cell after writing one gives the written value at that cell and the old value elsewhere |
| Frames.Line | tiler/src/frame.rs:73-75 | a printed line has one character per column |
| Frames.LinesLength | tiler/src/frame.rs:72-77 | n printed rows are n × (width + 1) characters |
| Frames.LinesAt | tiler/src/frame.rs:72-77 | the character at a row and column is that cell's `as_char`, and each line ends in a newline |
| Frames.LineAt | tiler/src/frame.rs:73-75 | the column-th character of a line is that cell's `as_char` |
| Frames.DumpLayout | tiler/src/frame.rs:70-78 | the printout is "Frame:\n" and then one line per row, each holding the cells' characters and a newline |
| Frames.DumpAt | tiler/src/frame.rs:70-78 | one character of the printout is the corresponding cell's `as_char` or a newline |
| Frames.Frame.New | tiler/src/frame.rs:16-29 | a width×height frame with every cell the default |
| Frames.Frame.Default | tiler/src/frame.rs:37-39 | a fresh 80×25 frame of defaults |
| Frames.Frame.Set | tiler/src/frame.rs:52-59 | writing through `get_mut` changes exactly that slot, and reading it back gives the value |
| Frames.Frame.DebugPrint | tiler/src/frame.rs:70-78 | the text printed is the printout function of the buffer |
| Rogue.FromParts | src/main.rs:162-170 | the corners hold the four given coordinates |
| Rogue.NewRoom | src/main.rs:95-97 | a room's rectangle is `Rect::from_parts` of its walls |
| Rogue.Draw | src/main.rs:129-152 | drawing leaves the frame equal to the four phases applied to the old buffer |
| Rogue.DrawEdgesX | src/main.rs:135-138 | the first loop writes TOP and BOTTOM along the horizontal edges |
| Rogue.DrawEdgesY | src/main.rs:139-142 | the second loop writes LEFT and RIGHT along the vertical edges |
| Rogue.DrawCorners | src/main.rs:143-146 | the four corner writes |
| Rogue.DrawMiddle | src/main.rs:147-151 | the nested loops write MIDDLE inside |
| Rogue.EdgesXAt | src/main.rs:135-138 | after the first loop, a cell holds TOP or BOTTOM when it lies on those edges and is unchanged otherwise |
| Rogue.EdgesYAt | src/main.rs:139-142 | after the second loop, a cell holds LEFT or RIGHT when it lies on those edges and is unchanged otherwise |
| Rogue.CornersAt | src/main.rs:143-146 | after the corner writes, a corner holds its tile and other cells are unchanged |
| Rogue.ColumnAt | src/main.rs:148-150 | the inner loop writes MIDDLE down one column of the inside |
| Rogue.MiddleAt | src/main.rs:147-151 | after the nested loops, an inside cell holds MIDDLE and others are unchanged |
| Rogue.DrawnCell | src/main.rs:129-152 | every cell after drawing is the tile of the last write that covers it, or its old value |
| Rogue.RoomOutline | src/main.rs:129-152 | a room at least 2×2 cells (right ≥ left + 2, bottom ≥ top + 2) has its four corner tiles, the edge tiles along its border and MIDDLE inside |
| Rogue.DrawnOutsideUnchanged | src/main.rs:129-152 | cells outside the rectangle keep their tiles |
| Rogue.GameRoomFits | src/main.rs:55-56 | the room the game draws fits its 80×30 frame |
| Rogue.MovedStaysInWorld | src/main.rs:64-88 | a key press keeps the player in the world, moves it by at most one cell along one axis, and other keys do nothing |
| Rogue.OppositeKeysCancel | src/main.rs:64-88 | opposite arrows undo each other away from the walls |
| Rogue.PressLeftClamps | src/main.rs:66-70 | n presses of Left end at column max(x − n, 0) |
| Rogue.State.New | src/main.rs:36-43 | the player starts at (5, 5), inside the world |
| Rogue.State.KeyDownEvent | src/main.rs:64-88 | the player moves as `Moved` says and stays in the world |

The table names the members whose contracts state the properties. The functions
below model the source's operations without a contract of their own; the members
in the table state what they mean.

- `Colors.FromNamed` — `RawColor::from_named`, `tiler_derive/src/glyph.rs:623-771`.
- `Colors.Trim` — `str::trim`, `tiler_derive/src/glyph.rs:775` and `:815`.
- `Colors.FromStrRadixU8` — `u8::from_str_radix`, `tiler_derive/src/glyph.rs:841-843` and `:852-854`.
- `Colors.Field` — one `trim_start`, `parse_u8`, `trim_start`, `tag(sep)` step, `tiler_derive/src/glyph.rs:779-790` and `:819-830`.
- `Frames.Offset` and `Frames.Frame.Idx` — `idx`, `tiler/src/frame.rs:61-63`.
- `Frames.Frame.Get` — `get` and `Index`, `tiler/src/frame.rs:47-50` and `:81-86`.
- `Frames.Put` — a store through `get_mut` and `IndexMut`, `tiler/src/frame.rs:56-59` and `:88-92`.
- `Frames.Lines` and `Frames.Dump` — the text of `debug_print`, `tiler/src/frame.rs:70-78`.
- `Glyphs.Paint` — the `draw` callback over the samples, `tiler_derive/src/glyph.rs:43-53`.
- `Glyphs.Glyph.PixelStart` — `pixel_start`, `tiler_derive/src/glyph.rs:85-87`.
- `Rogue.EdgesX`, `Rogue.EdgesY`, `Rogue.Corners`, `Rogue.Column`, `Rogue.Middle` and `Rogue.Drawn` — the phases of `NinePatch::draw`, `src/main.rs:135-138`, `:139-142`, `:143-146`, `:148-150`, `:147-151` and `:129-152`.
- `Rogue.Moved` — the match of `key_down_event`, `src/main.rs:64-88`.
- `TileSets.KeywordOf` — the keyword each item is written with, `tiler_derive/src/lib.rs:44-79`.
- `TileSets.TileAttrsOf` — `get_tile_attrs`, `tiler_derive/src/lib.rs:277-289`.
- `TileSets.ApplyAttrs` — the inner loop over a variant's attributes, `tiler_derive/src/lib.rs:211-252`.
- `TileSets.VariantInfo` — one iteration of the outer loop, `tiler_derive/src/lib.rs:207-262`.
- `TileSets.CollectTiles` — the outer loop, `tiler_derive/src/lib.rs:207-263`.
- `TileSets.AllTileInfo` — `get_all_tile_info`, `tiler_derive/src/lib.rs:204-274`.
- `TileSets.AtlasOf` — the `map`/`unzip` over the tiles, `tiler_derive/src/lib.rs:134-171`.
- `TileSets.DeriveTileSetOf` — `real_derive_tileset`, `tiler_derive/src/lib.rs:122-200`.

## Left out

- `Font::new` and the rusttype rasteriser are left out because they are foreign code. A glyph's pixel bounding box and coverage samples are parameters of `Glyphs.RenderGlyph`. In `TileSets.DeriveTileSet` they are a function `font` from character to outline.
- `Color::interp` computes in floating point (`f32`, square roots, a truncating cast), so it is not modelled. It is the parameter `blend`, and coverage values are `real`s.
- The HSL-to-RGB conversion does not exist in the source. Reaching it panics, which is modelled as the error `HslUnimplemented`.
- Token-level syn and quote plumbing is not modelled:
  - spans and `to_compile_error`;
  - syn's own error texts for malformed items, which are reduced to `UnexpectedKeyword` and `MalformedItem`;
  - the generated token streams, which are modelled by the atlas value and `Arm`.
- Only `#[tileset(...)]` attributes are kept. Other attribute paths are carried as opaque items and ignored, as in the source.
- `tiler/src/lib.rs` (the window loop, `Grid`, the `TileSet` trait and `RgbaImage`) is not part of this model. `Grid` is taken to be `Frame`.
- Also left out of the game:
  - `State::new`'s random world is left out because it depends on randomness; `Grid::from_fn` is not part of this model.
  - `State::draw`, `update` and `main` are left out because they depend on the window loop.
- `println!`/`print!` in `debug_print` are not modelled as output: `Frames.Frame.DebugPrint` returns the printed text instead.
- Rust's `usize` is modelled as unbounded `nat`:
  - overflow of `width * height` is not modelled;
  - the debug-mode underflow panic of `bottom_right - 1` is excluded by `Rogue.Drawable`'s `r >= 1 && b >= 1`;
  - out-of-bounds panics of frame indexing are excluded by its corner bounds;
  - `Frames.Frame.Get` and `Frames.Frame.Set` require `Idx(col, row) < |buf|`, which excludes the `Vec` index panic of `get`/`get_mut` (`tiler/src/frame.rs:47-59`); the panic itself is not modelled;
  - `Glyphs.Glyph.SetPixel` requires `4 * PixelStart(x, y) + 3 < |data|`, which excludes the `Vec` index panic of `set_pixel` (`tiler_derive/src/glyph.rs:89-95`); `Font::glyph` never reaches it because it clips its writes to the cell (`tiler_derive/src/glyph.rs:46`).
- `char` is Dafny's `char`, and colour names are compared after ASCII lower-casing only, as `to_ascii_lowercase` does.
- `Rogue.DrawnCell`, `Rogue.RoomOutline`, `Rogue.EdgesXAt`, `Rogue.EdgesYAt`, `Rogue.CornersAt`, `Rogue.ColumnAt`, `Rogue.MiddleAt`: these describe cells only when the rectangle's x-range lies within the frame's height (`RowsInFrame`). Outside it, writes alias other columns; this is covered by `Frames.RowOverflowAliases` instead.
- `Rogue.DrawnOutsideUnchanged` additionally needs the corners in order (left < right, top < bottom). An inverted rectangle's corner writes land outside it.
- `Rogue.RoomOutline` is stated for rooms of at least 2×2 cells (right ≥ left + 2, bottom ≥ top + 2). In a room one cell wide or tall, later stores overwrite earlier ones at the same key: TOP_RIGHT over TOP_LEFT and the other later corners over earlier ones (`src/main.rs:143-146`), RIGHT over LEFT (`src/main.rs:140-141`), and BOTTOM over TOP (`src/main.rs:136-137`). `Rogue.DrawnCell` covers those rooms.
