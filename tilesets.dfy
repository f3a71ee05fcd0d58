/**
 * The `TileSet` derive (tiler_derive/src/lib.rs): the `#[tileset(...)]` attributes of an
 * enum's variants are parsed and aggregated into one tile per variant (its character
 * and colours) and the enum's default variant, and the tiles are turned into an atlas:
 * bitmap i, index i and the character of the i-th variant.
 *
 * Token streams are abstracted to records: an attribute is its path and its
 * comma-separated items, an item is a keyword and the literal after `=`, if any.
 */
module TileSets {
  import opened Results
  import opened Colors
  import opened Glyphs

  // ---------------------------------------------------------------------------
  // Attributes

  /** The literal after `=` in an attribute item. */
  datatype Literal = CharLit(c: char) | StrLit(s: string) | OtherLit

  /** One item of `#[tileset(...)]`: a keyword and the literal after `=`, when there is
      an `=`. */
  datatype Item = Item(keyword: string, value: Option<Literal>)

  /** An attribute on a variant: its path and, for a parenthesised list, its items. */
  datatype Attribute = Attribute(path: string, items: seq<Item>)

  /** An enum variant: its identifier and its attributes, in source order. */
  datatype Variant = Variant(ident: string, attrs: seq<Attribute>)

  /** `TileAttr`: one parsed item. */
  datatype TileAttr = Char(c: char) | Default | FgColor(fg: string) | BgColor(bg: string)

  /** Why the derive produced no code. */
  datatype DeriveError =
    | UnexpectedKeyword(found: string)
    | MalformedItem(keyword: string)
    | DuplicateChar(variant: string)
    | MultipleDefault(variant: string)
    | BadColor(variant: string, error: ColorError)
    | NoChar(variant: string)
    | NoDefault
    | ExpectedEnum
  {
    /** The message the source attaches to the error, where it writes one out. A
        `BadColor` carrying `HslUnimplemented` is the panic of `unimplemented!()`. */
    function Message(): string {
      match this
      case DuplicateChar(_) => "there must only be a single `char` attribute"
      case MultipleDefault(_) => "multiple variants marked as `default`"
      case BadColor(_, e) => e.Message()
      case NoChar(_) => "no `char` set"
      case NoDefault => "no variant was declared `default`"
      case ExpectedEnum => "expected enum"
      case UnexpectedKeyword(_) => "expected one of `default`, `char`, `fg_color`, `bg_color`"
      case MalformedItem(_) => "malformed `tileset` item"
    }
  }

  const Keywords: set<string> := {"default", "char", "fg_color", "bg_color"}

  /** The keyword a parsed item was written with. */
  function KeywordOf(a: TileAttr): string {
    match a
    case Char(_) => "char"
    case Default => "default"
    case FgColor(_) => "fg_color"
    case BgColor(_) => "bg_color"
  }

  /** `TileAttr::parse`: dispatch on the keyword; `default` stands alone, `char` takes a
      character literal and the colours a string literal. */
  function ParseTileAttr(item: Item): (r: Result<TileAttr, DeriveError>)
    ensures r.Ok? ==> KeywordOf(r.value) == item.keyword
    ensures r == Err(UnexpectedKeyword(item.keyword)) <==> item.keyword !in Keywords
    ensures r.Err? ==> r.error in {UnexpectedKeyword(item.keyword), MalformedItem(item.keyword)}
  {
    if item.keyword == "default" then
      if item.value.None? then Ok(Default) else Err(MalformedItem(item.keyword))
    else if item.keyword == "char" then
      match item.value
      case Some(CharLit(c)) => Ok(Char(c))
      case _ => Err(MalformedItem(item.keyword))
    else if item.keyword == "fg_color" then
      match item.value
      case Some(StrLit(s)) => Ok(FgColor(s))
      case _ => Err(MalformedItem(item.keyword))
    else if item.keyword == "bg_color" then
      match item.value
      case Some(StrLit(s)) => Ok(BgColor(s))
      case _ => Err(MalformedItem(item.keyword))
    else Err(UnexpectedKeyword(item.keyword))
  }

  /** `parse_terminated(TileAttr::parse)`: every item parsed, in order; the first item
      that does not parse is the error. */
  function ParseItems(items: seq<Item>): (r: Result<seq<TileAttr>, DeriveError>)
    ensures r.Ok? <==> forall i :: 0 <= i < |items| ==> ParseTileAttr(items[i]).Ok?
    ensures r.Ok? ==> |r.value| == |items|
                      && forall i :: 0 <= i < |items| ==> ParseTileAttr(items[i]) == Ok(r.value[i])
  {
    if items == [] then Ok([])
    else
      var front :- ParseItems(items[..|items| - 1]);
      var last :- ParseTileAttr(items[|items| - 1]);
      Ok(front + [last])
  }

  /** The tile attributes of a variant: the items of its `tileset` attributes, in
      order; attributes with another path are skipped. */
  function TileAttrsOf(attrs: seq<Attribute>): (r: Result<seq<TileAttr>, DeriveError>)
  {
    if attrs == [] then Ok([])
    else
      var front :- TileAttrsOf(attrs[..|attrs| - 1]);
      var a := attrs[|attrs| - 1];
      if a.path != "tileset" then Ok(front)
      else
        var items :- ParseItems(a.items);
        Ok(front + items)
  }

  /** `get_tile_attrs`. */
  method GetTileAttrs(variant: Variant) returns (r: Result<seq<TileAttr>, DeriveError>)
    ensures r == TileAttrsOf(variant.attrs)
  {
    var attrs: seq<TileAttr> := [];
    for i := 0 to |variant.attrs|
      invariant TileAttrsOf(variant.attrs[..i]) == Ok(attrs)
    {
      TileAttrsStep(variant.attrs, i, attrs);
      var attr := variant.attrs[i];
      if attr.path == "tileset" {
        var tileAttrs := ParseItems(attr.items);
        if tileAttrs.Err? {
          TileAttrsFailFast(variant.attrs, i + 1);
          return Err(tileAttrs.error);
        }
        attrs := attrs + tileAttrs.value;
      }
    }
    assert variant.attrs[..|variant.attrs|] == variant.attrs;
    return Ok(attrs);
  }

  /** One more attribute adds its items, when it is a `tileset` attribute. */
  lemma TileAttrsStep(attrs: seq<Attribute>, i: nat, front: seq<TileAttr>)
    requires i < |attrs| && TileAttrsOf(attrs[..i]) == Ok(front)
    ensures attrs[i].path != "tileset" ==> TileAttrsOf(attrs[..i + 1]) == Ok(front)
    ensures attrs[i].path == "tileset" ==>
              TileAttrsOf(attrs[..i + 1]) == (match ParseItems(attrs[i].items)
                                              case Ok(items) => Ok(front + items)
                                              case Err(e) => Err(e))
  {
    assert attrs[..i + 1][..i] == attrs[..i];
  }

  /** A failure in the first `n` attributes is the failure of them all. */
  lemma {:induction false} TileAttrsFailFast(attrs: seq<Attribute>, n: nat)
    requires n <= |attrs| && TileAttrsOf(attrs[..n]).Err?
    ensures TileAttrsOf(attrs) == TileAttrsOf(attrs[..n])
    decreases |attrs| - n
  {
    if n < |attrs| {
      assert attrs[..n + 1][..n] == attrs[..n];
      TileAttrsFailFast(attrs, n + 1);
    } else {
      assert attrs[..n] == attrs;
    }
  }

  // ---------------------------------------------------------------------------
  // Aggregation

  /** What `get_all_tile_info` tracks while it reads the attributes of one variant:
      the variant's character and colours so far, and the enum's default so far. */
  datatype Progress = Progress(character: Option<char>, fg: Color, bg: Color, default: Option<string>)

  /** `TileInfo`. */
  datatype TileInfo = TileInfo(ident: string, character: char, fg: Color, bg: Color)

  /** `TileSetInfo`. */
  datatype TileSetInfo = TileSetInfo(default: string, tiles: seq<TileInfo>)

  /** The effect of one attribute of variant `ident`. */
  function ApplyAttr(ident: string, p: Progress, a: TileAttr): (r: Result<Progress, DeriveError>)
    ensures r.Err? ==> r.error in {DuplicateChar(ident), MultipleDefault(ident), BadColor(ident, CouldNotParse),
                                   BadColor(ident, HslUnimplemented)}
  {
    match a
    case Char(c) =>
      if p.character.Some? then Err(DuplicateChar(ident)) else Ok(p.(character := Some(c)))
    case Default =>
      if p.default.None? then Ok(p.(default := Some(ident))) else Err(MultipleDefault(ident))
    case FgColor(s) =>
      var color := ParseColor(s);
      if color.Ok? then Ok(p.(fg := color.value)) else Err(BadColor(ident, color.error))
    case BgColor(s) =>
      var color := ParseColor(s);
      if color.Ok? then Ok(p.(bg := color.value)) else Err(BadColor(ident, color.error))
  }

  /** The attributes of variant `ident`, applied in order; the first error stops. */
  function ApplyAttrs(ident: string, p: Progress, attrs: seq<TileAttr>): Result<Progress, DeriveError> {
    if attrs == [] then Ok(p)
    else
      var q :- ApplyAttrs(ident, p, attrs[..|attrs| - 1]);
      ApplyAttr(ident, q, attrs[|attrs| - 1])
  }

  /** One more attribute applies to what the ones before it left. */
  lemma ApplyAttrsStep(ident: string, p: Progress, attrs: seq<TileAttr>, j: nat, q: Progress)
    requires j < |attrs| && ApplyAttrs(ident, p, attrs[..j]) == Ok(q)
    ensures ApplyAttrs(ident, p, attrs[..j + 1]) == ApplyAttr(ident, q, attrs[j])
  {
    assert attrs[..j + 1][..j] == attrs[..j];
  }

  /** A failure in the first `n` attributes is the failure of them all. */
  lemma {:induction false} ApplyAttrsFailFast(ident: string, p: Progress, attrs: seq<TileAttr>, n: nat)
    requires n <= |attrs| && ApplyAttrs(ident, p, attrs[..n]).Err?
    ensures ApplyAttrs(ident, p, attrs) == ApplyAttrs(ident, p, attrs[..n])
    decreases |attrs| - n
  {
    if n < |attrs| {
      assert attrs[..n + 1][..n] == attrs[..n];
      ApplyAttrsFailFast(ident, p, attrs, n + 1);
    } else {
      assert attrs[..n] == attrs;
    }
  }

  /** The tile of one variant, and the default after it, given the default before it. */
  function VariantInfo(v: Variant, default: Option<string>): Result<(TileInfo, Option<string>), DeriveError> {
    var attrs :- TileAttrsOf(v.attrs);
    var p :- ApplyAttrs(v.ident, Progress(None, WHITE, BLACK, default), attrs);
    if p.character.None? then Err(NoChar(v.ident))
    else Ok((TileInfo(v.ident, p.character.value, p.fg, p.bg), p.default))
  }

  /** The tiles of the variants, in order, and the default among them; the first error
      stops. */
  function CollectTiles(vs: seq<Variant>): Result<(seq<TileInfo>, Option<string>), DeriveError> {
    if vs == [] then Ok(([], None))
    else
      var (tiles, default) :- CollectTiles(vs[..|vs| - 1]);
      var (tile, default') :- VariantInfo(vs[|vs| - 1], default);
      Ok((tiles + [tile], default'))
  }

  /** A failure in the first `n` variants is the failure of them all: later variants are
      never examined. */
  lemma {:induction false} CollectTilesFailFast(vs: seq<Variant>, n: nat)
    requires n <= |vs| && CollectTiles(vs[..n]).Err?
    ensures CollectTiles(vs) == CollectTiles(vs[..n])
    decreases |vs| - n
  {
    if n < |vs| {
      assert vs[..n + 1][..n] == vs[..n];
      CollectTilesFailFast(vs, n + 1);
    } else {
      assert vs[..n] == vs;
    }
  }

  /** `get_all_tile_info` as a function of the variants. */
  function AllTileInfo(vs: seq<Variant>): Result<TileSetInfo, DeriveError> {
    var (tiles, default) :- CollectTiles(vs);
    if default.None? then Err(NoDefault) else Ok(TileSetInfo(default.value, tiles))
  }

  /** A failure while reading variant `i`, after the variants before it were read,
      is the result of `get_all_tile_info`. */
  lemma VariantFails(vs: seq<Variant>, i: nat, e: DeriveError)
    requires i < |vs| && CollectTiles(vs[..i]).Ok?
    requires VariantInfo(vs[i], CollectTiles(vs[..i]).value.1) == Err(e)
    ensures AllTileInfo(vs) == Err(e)
  {
    assert vs[..i + 1][..i] == vs[..i];
    CollectTilesFailFast(vs, i + 1);
  }

  /** The inner loop of `get_all_tile_info`: the attributes of variant `ident`, read in
      order from a fresh character, WHITE on BLACK, and the default so far. */
  method ReadTileAttrs(ident: string, attrs: seq<TileAttr>, default0: Option<string>)
    returns (r: Result<Progress, DeriveError>)
    ensures r == ApplyAttrs(ident, Progress(None, WHITE, BLACK, default0), attrs)
  {
    ghost var start := Progress(None, WHITE, BLACK, default0);
    var character: Option<char> := None;
    var fg := WHITE;
    var bg := BLACK;
    var default := default0;
    for j := 0 to |attrs|
      invariant ApplyAttrs(ident, start, attrs[..j]) == Ok(Progress(character, fg, bg, default))
    {
      ApplyAttrsStep(ident, start, attrs, j, Progress(character, fg, bg, default));
      match attrs[j]
      case Char(c) =>
        if character.Some? {
          ApplyAttrsFailFast(ident, start, attrs, j + 1);
          return Err(DuplicateChar(ident));
        }
        character := Some(c);
      case Default =>
        if default.Some? {
          ApplyAttrsFailFast(ident, start, attrs, j + 1);
          return Err(MultipleDefault(ident));
        }
        default := Some(ident);
      case FgColor(s) =>
        var color := ParseColor(s);
        if color.Err? {
          ApplyAttrsFailFast(ident, start, attrs, j + 1);
          return Err(BadColor(ident, color.error));
        }
        fg := color.value;
      case BgColor(s) =>
        var color := ParseColor(s);
        if color.Err? {
          ApplyAttrsFailFast(ident, start, attrs, j + 1);
          return Err(BadColor(ident, color.error));
        }
        bg := color.value;
    }
    assert attrs[..|attrs|] == attrs;
    return Ok(Progress(character, fg, bg, default));
  }

  /** `get_all_tile_info`: walk the variants in order and fail at the first problem. */
  method GetAllTileInfo(variants: seq<Variant>) returns (r: Result<TileSetInfo, DeriveError>)
    ensures r == AllTileInfo(variants)
  {
    var default: Option<string> := None;
    var tileInfo: seq<TileInfo> := [];
    for i := 0 to |variants|
      invariant CollectTiles(variants[..i]) == Ok((tileInfo, default))
    {
      var variant := variants[i];
      var tileAttrs := GetTileAttrs(variant);
      if tileAttrs.Err? {
        VariantFails(variants, i, tileAttrs.error);
        return Err(tileAttrs.error);
      }
      var progress := ReadTileAttrs(variant.ident, tileAttrs.value, default);
      if progress.Err? {
        VariantFails(variants, i, progress.error);
        return Err(progress.error);
      }
      if progress.value.character.None? {
        VariantFails(variants, i, NoChar(variant.ident));
        return Err(NoChar(variant.ident));
      }
      assert variants[..i + 1][..i] == variants[..i];
      default := progress.value.default;
      tileInfo := tileInfo + [TileInfo(variant.ident, progress.value.character.value, progress.value.fg, progress.value.bg)];
    }
    assert variants[..|variants|] == variants;
    if default.None? {
      return Err(NoDefault);
    }
    return Ok(TileSetInfo(default.value, tileInfo));
  }

  // ---------------------------------------------------------------------------
  // Atlas

  /** The outline `Font::glyph` rasterises for a character: its pixel bounding box
      (none for an empty outline) and the coverage samples of its draw callback. */
  datatype Outline = Outline(bbox: Option<(int, int)>, samples: seq<Sample>)

  /** `tiler::RgbaImage::new(width, height, data)`. */
  datatype Bitmap = Bitmap(width: nat, height: nat, data: seq<Byte>)

  /** The generated code as a value: the `Default` variant, the `get_bmps` array, and
      the arms of the `as_char` and `idx` matches, in order. */
  datatype Atlas = Atlas(default: string, bitmaps: seq<Bitmap>, chars: seq<(string, char)>,
                         indices: seq<(string, nat)>)

  /** What the derive is applied to. */
  datatype Data = Enum(variants: seq<Variant>) | Struct | Union
  datatype DeriveInput = DeriveInput(ident: string, data: Data)

  /** `as u16`: truncation to the low 16 bits. */
  function AsU16(n: nat): (r: nat)
    ensures r < 0x1_0000
    ensures n < 0x1_0000 ==> r == n
  {
    n % 0x1_0000
  }

  /** The bitmap of one tile: its character's glyph in its colours. */
  function TileBitmap(t: TileInfo, font: char -> Outline, blend: (Color, Color, real) -> Color): (b: Bitmap)
    ensures b.width == 20 && b.height == 40 && |b.data| == b.width * b.height * 4
  {
    var outline := font(t.character);
    Bitmap(AsU16(FONT_WIDTH), AsU16(FONT_HEIGHT), GlyphData(outline.bbox, outline.samples, t.fg, t.bg, blend))
  }

  /** The atlas of a tile set: the `enumerate().map()` over the tiles, unzipped into
      the bitmaps and the `idx` arms, beside the `as_char` arms it pushes. */
  function AtlasOf(info: TileSetInfo, font: char -> Outline, blend: (Color, Color, real) -> Color): Atlas {
    var tiles := info.tiles;
    Atlas(info.default,
          seq(|tiles|, k requires 0 <= k < |tiles| => TileBitmap(tiles[k], font, blend)),
          seq(|tiles|, k requires 0 <= k < |tiles| => (tiles[k].ident, tiles[k].character)),
          seq(|tiles|, k requires 0 <= k < |tiles| => (tiles[k].ident, k)))
  }

  /** `real_derive_tileset` as a function of its input. */
  function DeriveTileSetOf(input: DeriveInput, font: char -> Outline, blend: (Color, Color, real) -> Color)
    : Result<Atlas, DeriveError>
  {
    match input.data
    case Enum(vs) =>
      var info :- AllTileInfo(vs);
      Ok(AtlasOf(info, font, blend))
    case _ => Err(ExpectedEnum)
  }

  /** `real_derive_tileset`: reject anything but an enum, gather the tile information,
      then render the atlas. The font is the parameter `font`; the colour blend is
      `blend`. */
  method DeriveTileSet(input: DeriveInput, font: char -> Outline, blend: (Color, Color, real) -> Color)
    returns (r: Result<Atlas, DeriveError>)
    ensures r == DeriveTileSetOf(input, font, blend)
  {
    if !input.data.Enum? {
      return Err(ExpectedEnum);
    }
    var tileInfo := GetAllTileInfo(input.data.variants);
    if tileInfo.Err? {
      return Err(tileInfo.error);
    }
    var atlas := RenderAtlas(tileInfo.value, font, blend);
    return Ok(atlas);
  }

  /** The body of the `map` closure for one tile: render its glyph and wrap it as an
      image, its dimensions cast to `u16`. */
  method RenderTile(tile: TileInfo, font: char -> Outline, blend: (Color, Color, real) -> Color)
    returns (b: Bitmap)
    ensures b == TileBitmap(tile, font, blend)
  {
    var outline := font(tile.character);
    var glyph := RenderGlyph(outline.bbox, outline.samples, tile.fg, tile.bg, blend);
    var width := AsU16(glyph.width);
    var height := AsU16(glyph.height);
    b := Bitmap(width, height, glyph.data);
  }

  /** The loop over the tiles: tile i's glyph becomes bitmap i, with match arms giving
      it index i and its character. */
  method RenderAtlas(info: TileSetInfo, font: char -> Outline, blend: (Color, Color, real) -> Color)
    returns (atlas: Atlas)
    ensures atlas == AtlasOf(info, font, blend)
  {
    var bitmaps: seq<Bitmap> := [];
    var characters: seq<(string, char)> := [];
    var indices: seq<(string, nat)> := [];
    for idx := 0 to |info.tiles|
      invariant Atlas(info.default, bitmaps, characters, indices)
                == AtlasOf(TileSetInfo(info.default, info.tiles[..idx]), font, blend)
    {
      var tile := info.tiles[idx];
      var bitmap := RenderTile(tile, font, blend);
      AtlasStep(info, font, blend, idx);
      characters := characters + [(tile.ident, tile.character)];
      bitmaps := bitmaps + [bitmap];
      indices := indices + [(tile.ident, idx)];
    }
    assert info.tiles[..|info.tiles|] == info.tiles;
    atlas := Atlas(info.default, bitmaps, characters, indices);
  }

  /** The atlas of the first n + 1 tiles extends the atlas of the first n by tile n's
      bitmap and arms. */
  lemma AtlasStep(info: TileSetInfo, font: char -> Outline, blend: (Color, Color, real) -> Color, n: nat)
    requires n < |info.tiles|
    ensures var a := AtlasOf(TileSetInfo(info.default, info.tiles[..n]), font, blend);
            var t := info.tiles[n];
            AtlasOf(TileSetInfo(info.default, info.tiles[..n + 1]), font, blend)
            == Atlas(info.default, a.bitmaps + [TileBitmap(t, font, blend)], a.chars + [(t.ident, t.character)],
                     a.indices + [(t.ident, n)])
  {
    var a := AtlasOf(TileSetInfo(info.default, info.tiles[..n]), font, blend);
    var b := AtlasOf(TileSetInfo(info.default, info.tiles[..n + 1]), font, blend);
    var t := info.tiles[n];
    assert b.bitmaps == a.bitmaps + [TileBitmap(t, font, blend)];
    assert b.chars == a.chars + [(t.ident, t.character)];
    assert b.indices == a.indices + [(t.ident, n)];
  }

  /** A generated `match self { ... }`: the value of the first arm naming `ident`. */
  function Arm<V>(arms: seq<(string, V)>, ident: string): (r: Option<V>)
    ensures r.None? <==> forall k :: 0 <= k < |arms| ==> arms[k].0 != ident
    ensures r.Some? ==> exists k :: 0 <= k < |arms| && arms[k] == (ident, r.value)
                                    && forall j :: 0 <= j < k ==> arms[j].0 != ident
  {
    if arms == [] then None
    else if arms[0].0 == ident then Some(arms[0].1)
    else
      var r := Arm(arms[1..], ident);
      assert forall k :: 1 <= k < |arms| ==> arms[k] == arms[1..][k - 1];
      r
  }
}
