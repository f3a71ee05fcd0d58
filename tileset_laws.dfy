/**
 * What the `TileSet` derive promises, stated without its loops: which enums it
 * accepts, the tile it makes of each variant, the default it picks, the error it
 * reports first, and the layout of the atlas it generates.
 */
module TileSetLaws {
  import opened Results
  import opened Colors
  import opened TileSets
  import opened AtlasLaws

  // ---------------------------------------------------------------------------
  // Attribute lists

  /** A `TileAttr` written back as an attribute item. */
  function Unparse(a: TileAttr): (item: Item)
    ensures ParseTileAttr(item) == Ok(a)
  {
    match a
    case Char(c) => Item("char", Some(CharLit(c)))
    case Default => Item("default", None)
    case FgColor(s) => Item("fg_color", Some(StrLit(s)))
    case BgColor(s) => Item("bg_color", Some(StrLit(s)))
  }

  function UnparseAll(attrs: seq<TileAttr>): (items: seq<Item>)
    ensures |items| == |attrs|
  {
    if attrs == [] then [] else UnparseAll(attrs[..|attrs| - 1]) + [Unparse(attrs[|attrs| - 1])]
  }

  /** Writing a list of tile attributes back as items and parsing them gives the list. */
  lemma {:induction false} ParseItemsRoundTrip(attrs: seq<TileAttr>)
    ensures ParseItems(UnparseAll(attrs)) == Ok(attrs)
  {
    if attrs != [] {
      var front := attrs[..|attrs| - 1];
      ParseItemsRoundTrip(front);
      var items := UnparseAll(attrs);
      assert items[..|items| - 1] == UnparseAll(front);
      assert front + [attrs[|attrs| - 1]] == attrs;
    }
  }

  /** The attributes whose path is `tileset`, in order. */
  function TilesetOnly(attrs: seq<Attribute>): (r: seq<Attribute>)
    ensures forall a :: a in r ==> a in attrs && a.path == "tileset"
  {
    if attrs == [] then []
    else
      var a := attrs[|attrs| - 1];
      TilesetOnly(attrs[..|attrs| - 1]) + (if a.path == "tileset" then [a] else [])
  }

  /** Attributes with another path play no part. */
  lemma {:induction false} OtherPathsIgnored(attrs: seq<Attribute>)
    ensures TileAttrsOf(attrs) == TileAttrsOf(TilesetOnly(attrs))
  {
    if attrs != [] {
      var front := attrs[..|attrs| - 1];
      var a := attrs[|attrs| - 1];
      OtherPathsIgnored(front);
      var kept := TilesetOnly(attrs);
      if a.path == "tileset" {
        assert kept[..|kept| - 1] == TilesetOnly(front);
      } else {
        assert kept == TilesetOnly(front);
      }
    }
  }

  /** Several `#[tileset(..)]` attributes are concatenated in source order; the first
      one that does not parse is the error. */
  lemma {:induction false} TileAttrsConcatenate(xs: seq<Attribute>, ys: seq<Attribute>)
    ensures TileAttrsOf(xs + ys) ==
      if TileAttrsOf(xs).Err? then TileAttrsOf(xs)
      else if TileAttrsOf(ys).Err? then TileAttrsOf(ys)
      else Ok(TileAttrsOf(xs).value + TileAttrsOf(ys).value)
  {
    if ys == [] {
      assert xs + ys == xs;
      if TileAttrsOf(xs).Ok? {
        assert TileAttrsOf(xs).value + [] == TileAttrsOf(xs).value;
      }
    } else {
      var front := ys[..|ys| - 1];
      var a := ys[|ys| - 1];
      TileAttrsConcatenate(xs, front);
      assert (xs + ys)[..|xs + ys| - 1] == xs + front;
      assert (xs + ys)[|xs + ys| - 1] == a;
      if TileAttrsOf(xs).Ok? && TileAttrsOf(front).Ok? && a.path == "tileset" && ParseItems(a.items).Ok? {
        var x, f, i := TileAttrsOf(xs).value, TileAttrsOf(front).value, ParseItems(a.items).value;
        assert x + f + i == x + (f + i);
      }
    }
  }

  // ---------------------------------------------------------------------------
  // The meaning of a variant's attributes

  /** The characters given by `char`, in order. */
  function CharsOf(attrs: seq<TileAttr>): seq<char> {
    if attrs == [] then []
    else
      var a := attrs[|attrs| - 1];
      CharsOf(attrs[..|attrs| - 1]) + (if a.Char? then [a.c] else [])
  }

  /** How many times `default` appears. */
  function DefaultCount(attrs: seq<TileAttr>): nat {
    if attrs == [] then 0
    else DefaultCount(attrs[..|attrs| - 1]) + (if attrs[|attrs| - 1].Default? then 1 else 0)
  }

  /** The string of the last `fg_color`, if any. */
  function LastFg(attrs: seq<TileAttr>): Option<string> {
    if attrs == [] then None
    else if attrs[|attrs| - 1].FgColor? then Some(attrs[|attrs| - 1].fg)
    else LastFg(attrs[..|attrs| - 1])
  }

  /** The string of the last `bg_color`, if any. */
  function LastBg(attrs: seq<TileAttr>): Option<string> {
    if attrs == [] then None
    else if attrs[|attrs| - 1].BgColor? then Some(attrs[|attrs| - 1].bg)
    else LastBg(attrs[..|attrs| - 1])
  }

  /** Whether the colour string of an attribute, if it has one, resolves. */
  predicate ColorResolves(a: TileAttr) {
    match a
    case FgColor(s) => ParseColor(s).Ok?
    case BgColor(s) => ParseColor(s).Ok?
    case _ => true
  }

  predicate ColorsResolve(attrs: seq<TileAttr>) {
    attrs == [] || (ColorsResolve(attrs[..|attrs| - 1]) && ColorResolves(attrs[|attrs| - 1]))
  }

  /** The colour a colour string resolves to, or `otherwise` when there is none. */
  function ColorOr(s: Option<string>, otherwise: Color): Color {
    if s.Some? && ParseColor(s.value).Ok? then ParseColor(s.value).value else otherwise
  }

  function Flag(o: Option<char>): nat { if o.Some? then 1 else 0 }
  function Marked(o: Option<string>): nat { if o.Some? then 1 else 0 }

  /** Reading the attributes succeeds exactly when there is at most one character in
      all, at most one default in all, and every colour resolves; then the character is
      the one given, the colours are the last ones given, and the default is this
      variant when it carries one. */
  lemma {:induction false} ApplyAttrsMeaning(ident: string, p: Progress, attrs: seq<TileAttr>)
    ensures ApplyAttrs(ident, p, attrs).Ok? <==>
              Flag(p.character) + |CharsOf(attrs)| <= 1 && Marked(p.default) + DefaultCount(attrs) <= 1
              && ColorsResolve(attrs)
    ensures ApplyAttrs(ident, p, attrs).Ok? ==>
              ApplyAttrs(ident, p, attrs).value ==
                Progress(if CharsOf(attrs) == [] then p.character else Some(CharsOf(attrs)[0]),
                         ColorOr(LastFg(attrs), p.fg), ColorOr(LastBg(attrs), p.bg),
                         if DefaultCount(attrs) == 0 then p.default else Some(ident))
  {
    if attrs != [] {
      ApplyAttrsMeaning(ident, p, attrs[..|attrs| - 1]);
    }
  }

  /** A variant the derive accepts: its attributes parse, it has exactly one `char`, at
      most one `default`, and all its colours resolve. */
  predicate VariantWellFormed(v: Variant) {
    var attrs := TileAttrsOf(v.attrs);
    attrs.Ok? && |CharsOf(attrs.value)| == 1 && DefaultCount(attrs.value) <= 1 && ColorsResolve(attrs.value)
  }

  predicate VariantsWellFormed(vs: seq<Variant>) {
    forall i :: 0 <= i < |vs| ==> VariantWellFormed(vs[i])
  }

  /** The tile the derive makes of a well-formed variant: WHITE on BLACK unless coloured,
      with the last colour of each kind winning. */
  function ExpectedTile(v: Variant): TileInfo
    requires VariantWellFormed(v)
  {
    var attrs := TileAttrsOf(v.attrs).value;
    TileInfo(v.ident, CharsOf(attrs)[0], ColorOr(LastFg(attrs), WHITE), ColorOr(LastBg(attrs), BLACK))
  }

  /** How many `default` items the variants carry in all. */
  function Defaults(vs: seq<Variant>): nat {
    if vs == [] then 0
    else
      var attrs := TileAttrsOf(vs[|vs| - 1].attrs);
      Defaults(vs[..|vs| - 1]) + (if attrs.Ok? then DefaultCount(attrs.value) else 0)
  }

  /** The first variant carrying `default`. */
  function DefaultVariant(vs: seq<Variant>): Option<string> {
    if vs == [] then None
    else
      var attrs := TileAttrsOf(vs[|vs| - 1].attrs);
      var before := DefaultVariant(vs[..|vs| - 1]);
      if before.Some? then before
      else if attrs.Ok? && DefaultCount(attrs.value) > 0 then Some(vs[|vs| - 1].ident)
      else None
  }

  /** `DefaultVariant` names a variant exactly when some variant carries `default`. */
  lemma {:induction false} DefaultVariantExists(vs: seq<Variant>)
    ensures DefaultVariant(vs).Some? <==> Defaults(vs) > 0
    ensures DefaultVariant(vs).Some? ==> exists i :: 0 <= i < |vs| && vs[i].ident == DefaultVariant(vs).value
  {
    if vs != [] {
      var front := vs[..|vs| - 1];
      DefaultVariantExists(front);
      if DefaultVariant(front).Some? {
        var i :| 0 <= i < |front| && front[i].ident == DefaultVariant(front).value;
        assert vs[i] == front[i];
      }
    }
  }

  /** One variant read after a default `d` was recorded (or none was): it succeeds
      exactly when the variant is well-formed and the defaults do not clash, and then
      gives the expected tile and records this variant if it carries `default`. */
  lemma VariantInfoMeaning(v: Variant, d: Option<string>)
    ensures VariantInfo(v, d).Ok? <==>
              VariantWellFormed(v) && Marked(d) + DefaultCount(TileAttrsOf(v.attrs).value) <= 1
    ensures VariantInfo(v, d).Ok? ==>
              VariantInfo(v, d).value ==
                (ExpectedTile(v), if DefaultCount(TileAttrsOf(v.attrs).value) == 0 then d else Some(v.ident))
  {
    var attrs := TileAttrsOf(v.attrs);
    if attrs.Ok? {
      ApplyAttrsMeaning(v.ident, Progress(None, WHITE, BLACK, d), attrs.value);
    }
  }

  /** Reading the first variants succeeds exactly when each is well-formed and there
      is at most one `default` among them; then there is one tile per variant, in
      order, each the expected one, and the default is the variant carrying it. */
  lemma {:induction false} CollectTilesMeaning(vs: seq<Variant>)
    ensures CollectTiles(vs).Ok? <==>
              VariantsWellFormed(vs) && Defaults(vs) <= 1
    ensures CollectTiles(vs).Ok? ==>
              var (tiles, default) := CollectTiles(vs).value;
              |tiles| == |vs| && (forall i :: 0 <= i < |vs| ==> tiles[i] == ExpectedTile(vs[i]))
              && default == DefaultVariant(vs)
  {
    if vs != [] {
      var front := vs[..|vs| - 1];
      CollectTilesMeaning(front);
      CollectTilesLast(vs);
    }
  }

  /** The inductive step of `CollectTilesMeaning`: the last variant. */
  lemma CollectTilesLast(vs: seq<Variant>)
    requires vs != []
    requires var front := vs[..|vs| - 1];
             (CollectTiles(front).Ok? <==>
               VariantsWellFormed(front) && Defaults(front) <= 1)
             && (CollectTiles(front).Ok? ==>
                   var (tiles, default) := CollectTiles(front).value;
                   |tiles| == |front| && (forall i :: 0 <= i < |front| ==> tiles[i] == ExpectedTile(front[i]))
                   && default == DefaultVariant(front))
    ensures CollectTiles(vs).Ok? <==>
              VariantsWellFormed(vs) && Defaults(vs) <= 1
    ensures CollectTiles(vs).Ok? ==>
              var (tiles, default) := CollectTiles(vs).value;
              |tiles| == |vs| && (forall i :: 0 <= i < |vs| ==> tiles[i] == ExpectedTile(vs[i]))
              && default == DefaultVariant(vs)
  {
    var front := vs[..|vs| - 1];
    if CollectTiles(front).Ok? {
      var (tiles, default) := CollectTiles(front).value;
      FrontSucceeds(vs, tiles, default);
    } else {
      FrontFails(vs);
    }
  }

  /** When the variants before the last are rejected, so are all of them. */
  lemma FrontFails(vs: seq<Variant>)
    requires vs != []
    requires var front := vs[..|vs| - 1];
             CollectTiles(front).Err?
             && !(VariantsWellFormed(front) && Defaults(front) <= 1)
    ensures CollectTiles(vs).Err?
    ensures !(VariantsWellFormed(vs) && Defaults(vs) <= 1)
  {
    var front := vs[..|vs| - 1];
    assert Defaults(front) <= Defaults(vs);
    AllWellFormedSnoc(vs);
  }

  /** When the variants before the last are accepted, the last one decides. */
  lemma FrontSucceeds(vs: seq<Variant>, tiles: seq<TileInfo>, default: Option<string>)
    requires vs != []
    requires var front := vs[..|vs| - 1];
             CollectTiles(front) == Ok((tiles, default))
             && VariantsWellFormed(front) && Defaults(front) <= 1
             && |tiles| == |front| && (forall i :: 0 <= i < |front| ==> tiles[i] == ExpectedTile(front[i]))
             && default == DefaultVariant(front)
    ensures CollectTiles(vs).Ok? <==>
              VariantsWellFormed(vs) && Defaults(vs) <= 1
    ensures CollectTiles(vs).Ok? ==>
              var (tiles', default') := CollectTiles(vs).value;
              |tiles'| == |vs| && (forall i :: 0 <= i < |vs| ==> tiles'[i] == ExpectedTile(vs[i]))
              && default' == DefaultVariant(vs)
  {
    var front := vs[..|vs| - 1];
    var v := vs[|vs| - 1];
    var attrs := TileAttrsOf(v.attrs);
    var r := VariantInfo(v, default);
    assert CollectTiles(vs) == if r.Err? then Err(r.error) else Ok((tiles + [r.value.0], r.value.1));
    assert Defaults(vs) == Defaults(front) + (if attrs.Ok? then DefaultCount(attrs.value) else 0);
    DefaultVariantExists(front);
    assert Marked(default) == Defaults(front);
    VariantInfoMeaning(v, default);
    AllWellFormedSnoc(vs);
    if r.Ok? {
      var tiles' := tiles + [ExpectedTile(v)];
      forall i | 0 <= i < |vs|
        ensures tiles'[i] == ExpectedTile(vs[i])
      {
        if i < |front| {
          assert vs[i] == front[i];
        }
      }
    }
  }

  /** Every variant is well-formed exactly when those before the last are and the last
      one is. */
  lemma AllWellFormedSnoc(vs: seq<Variant>)
    requires vs != []
    ensures VariantsWellFormed(vs) <==> VariantsWellFormed(vs[..|vs| - 1]) && VariantWellFormed(vs[|vs| - 1])
  {
    assert forall i :: 0 <= i < |vs| - 1 ==> vs[..|vs| - 1][i] == vs[i];
  }

  /** `get_all_tile_info` succeeds exactly when every variant is well-formed and exactly
      one `default` appears in the whole enum; it then holds one tile per variant, in
      declaration order, each with its single character and its last colours (WHITE on
      BLACK when none is given), and the default is the variant that carried it. */
  lemma AllTileInfoMeaning(vs: seq<Variant>)
    ensures AllTileInfo(vs).Ok? <==>
              VariantsWellFormed(vs) && Defaults(vs) == 1
    ensures AllTileInfo(vs).Ok? ==>
              var info := AllTileInfo(vs).value;
              |info.tiles| == |vs| && (forall i :: 0 <= i < |vs| ==> info.tiles[i] == ExpectedTile(vs[i]))
              && Some(info.default) == DefaultVariant(vs)
  {
    CollectTilesMeaning(vs);
    DefaultVariantExists(vs);
  }

  /** The tile of variant `i` in an accepted enum: its one `char`, and the colour of its
      last `fg_color` / `bg_color`, WHITE / BLACK when it has none. */
  lemma TileOfVariant(vs: seq<Variant>, i: nat)
    requires AllTileInfo(vs).Ok? && i < |vs|
    ensures TileAttrsOf(vs[i].attrs).Ok? && |AllTileInfo(vs).value.tiles| == |vs|
    ensures var attrs := TileAttrsOf(vs[i].attrs).value;
            var tile := AllTileInfo(vs).value.tiles[i];
            tile.ident == vs[i].ident && CharsOf(attrs) == [tile.character]
            && (LastFg(attrs).None? ==> tile.fg == WHITE)
            && (LastBg(attrs).None? ==> tile.bg == BLACK)
            && (LastFg(attrs).Some? ==> ParseColor(LastFg(attrs).value) == Ok(tile.fg))
            && (LastBg(attrs).Some? ==> ParseColor(LastBg(attrs).value) == Ok(tile.bg))
  {
    AllTileInfoMeaning(vs);
    assert VariantWellFormed(vs[i]);
    var attrs := TileAttrsOf(vs[i].attrs).value;
    LastColorsResolve(attrs);
  }

  /** When all colours resolve, so do the last ones. */
  lemma {:induction false} LastColorsResolve(attrs: seq<TileAttr>)
    requires ColorsResolve(attrs)
    ensures LastFg(attrs).Some? ==> ParseColor(LastFg(attrs).value).Ok?
    ensures LastBg(attrs).Some? ==> ParseColor(LastBg(attrs).value).Ok?
  {
    if attrs != [] {
      LastColorsResolve(attrs[..|attrs| - 1]);
    }
  }

  /** The state in which variant `i` starts to be read, once the variants before it
      were accepted. */
  function StartOf(vs: seq<Variant>, i: nat): Progress
    requires i <= |vs| && CollectTiles(vs[..i]).Ok?
  {
    Progress(None, WHITE, BLACK, CollectTiles(vs[..i]).value.1)
  }

  /** The first error met in variant `i`, after the variants before it were accepted,
      is the error of the whole derive, whatever follows. */
  lemma AttrFails(vs: seq<Variant>, i: nat, attrs: seq<TileAttr>, j: nat, e: DeriveError)
    requires i < |vs| && CollectTiles(vs[..i]).Ok? && TileAttrsOf(vs[i].attrs) == Ok(attrs)
    requires j < |attrs| && ApplyAttrs(vs[i].ident, StartOf(vs, i), attrs[..j + 1]) == Err(e)
    ensures AllTileInfo(vs) == Err(e)
  {
    ApplyAttrsFailFast(vs[i].ident, StartOf(vs, i), attrs, j + 1);
    VariantFails(vs, i, e);
  }

  /** A second `char` on a tile is rejected. */
  lemma SecondCharRejected(vs: seq<Variant>, i: nat, attrs: seq<TileAttr>, j: nat)
    requires i < |vs| && CollectTiles(vs[..i]).Ok? && TileAttrsOf(vs[i].attrs) == Ok(attrs)
    requires j < |attrs| && ApplyAttrs(vs[i].ident, StartOf(vs, i), attrs[..j]).Ok?
    requires |CharsOf(attrs[..j])| == 1 && attrs[j].Char?
    ensures AllTileInfo(vs) == Err(DuplicateChar(vs[i].ident))
  {
    ApplyAttrsMeaning(vs[i].ident, StartOf(vs, i), attrs[..j]);
    assert attrs[..j + 1][..j] == attrs[..j];
    AttrFails(vs, i, attrs, j, DuplicateChar(vs[i].ident));
  }

  /** A `default` after one was recorded, on the same tile or an earlier one, is
      rejected. */
  lemma SecondDefaultRejected(vs: seq<Variant>, i: nat, attrs: seq<TileAttr>, j: nat)
    requires i < |vs| && CollectTiles(vs[..i]).Ok? && TileAttrsOf(vs[i].attrs) == Ok(attrs)
    requires j < |attrs| && ApplyAttrs(vs[i].ident, StartOf(vs, i), attrs[..j]).Ok?
    requires Defaults(vs[..i]) + DefaultCount(attrs[..j]) == 1 && attrs[j].Default?
    ensures AllTileInfo(vs) == Err(MultipleDefault(vs[i].ident))
  {
    CollectTilesMeaning(vs[..i]);
    DefaultVariantExists(vs[..i]);
    ApplyAttrsMeaning(vs[i].ident, StartOf(vs, i), attrs[..j]);
    assert attrs[..j + 1][..j] == attrs[..j];
    AttrFails(vs, i, attrs, j, MultipleDefault(vs[i].ident));
  }

  /** A colour string `Color::parse` rejects aborts the derive with that error. */
  lemma BadColorRejected(vs: seq<Variant>, i: nat, attrs: seq<TileAttr>, j: nat, e: ColorError)
    requires i < |vs| && CollectTiles(vs[..i]).Ok? && TileAttrsOf(vs[i].attrs) == Ok(attrs)
    requires j < |attrs| && ApplyAttrs(vs[i].ident, StartOf(vs, i), attrs[..j]).Ok?
    requires (attrs[j].FgColor? && ParseColor(attrs[j].fg) == Err(e))
             || (attrs[j].BgColor? && ParseColor(attrs[j].bg) == Err(e))
    ensures AllTileInfo(vs) == Err(BadColor(vs[i].ident, e))
  {
    assert attrs[..j + 1][..j] == attrs[..j];
    AttrFails(vs, i, attrs, j, BadColor(vs[i].ident, e));
  }

  /** A tile that ends without a `char` is rejected, before any later tile is read. */
  lemma MissingCharRejected(vs: seq<Variant>, i: nat, attrs: seq<TileAttr>)
    requires i < |vs| && CollectTiles(vs[..i]).Ok? && TileAttrsOf(vs[i].attrs) == Ok(attrs)
    requires CharsOf(attrs) == [] && ColorsResolve(attrs) && Defaults(vs[..i]) + DefaultCount(attrs) <= 1
    ensures AllTileInfo(vs) == Err(NoChar(vs[i].ident))
  {
    CollectTilesMeaning(vs[..i]);
    DefaultVariantExists(vs[..i]);
    ApplyAttrsMeaning(vs[i].ident, StartOf(vs, i), attrs);
    VariantFails(vs, i, NoChar(vs[i].ident));
  }

  /** Well-formed variants none of which is `default` are rejected as a whole. */
  lemma NoDefaultRejected(vs: seq<Variant>)
    requires VariantsWellFormed(vs) && Defaults(vs) == 0
    ensures AllTileInfo(vs) == Err(NoDefault)
  {
    CollectTilesMeaning(vs);
    DefaultVariantExists(vs);
  }

  // ---------------------------------------------------------------------------
  // The generated code

  /** The variants of an enum have distinct names. */
  predicate DistinctIdents(vs: seq<Variant>) {
    forall a, b :: 0 <= a < b < |vs| ==> vs[a].ident != vs[b].ident
  }

  /** `real_derive_tileset` succeeds exactly on an enum whose tile information is
      accepted, and otherwise reports "expected enum" or the first tile error. */
  lemma DeriveOutcome(input: DeriveInput, font: char -> Outline, blend: (Color, Color, real) -> Color)
    ensures DeriveTileSetOf(input, font, blend).Ok? <==> input.data.Enum? && AllTileInfo(input.data.variants).Ok?
    ensures !input.data.Enum? ==> DeriveTileSetOf(input, font, blend) == Err(ExpectedEnum)
    ensures input.data.Enum? && AllTileInfo(input.data.variants).Err? ==>
              DeriveTileSetOf(input, font, blend) == Err(AllTileInfo(input.data.variants).error)
  {
  }

  /** In the generated code the i-th variant has `idx() == i`, which is below the
      number of bitmaps, bitmap i is its glyph in its colours, `as_char()` is its
      character, and `Default` is the variant marked `default`. */
  lemma GeneratedImpls(input: DeriveInput, font: char -> Outline, blend: (Color, Color, real) -> Color, i: nat)
    requires input.data.Enum? && DistinctIdents(input.data.variants) && i < |input.data.variants|
    requires DeriveTileSetOf(input, font, blend).Ok?
    ensures var vs := input.data.variants;
            var a := DeriveTileSetOf(input, font, blend).value;
            VariantWellFormed(vs[i])
            && Arm(a.indices, vs[i].ident) == Some(i) && i < |a.bitmaps|
            && a.bitmaps[i] == TileBitmap(ExpectedTile(vs[i]), font, blend)
            && Arm(a.chars, vs[i].ident) == Some(ExpectedTile(vs[i]).character)
            && Some(a.default) == DefaultVariant(vs)
  {
    var vs := input.data.variants;
    AllTileInfoMeaning(vs);
    var info := AllTileInfo(vs).value;
    assert DeriveTileSetOf(input, font, blend).value == AtlasOf(info, font, blend);
    assert forall k :: 0 <= k < |vs| ==> info.tiles[k].ident == vs[k].ident;
    AtlasArms(info, font, blend, i);
  }
}
