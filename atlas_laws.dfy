/**
 * The atlas `real_derive_tileset` generates: one glyph bitmap, one `as_char` arm and
 * one `idx` arm per tile, in the order of the tiles.
 */
module AtlasLaws {
  import opened Results
  import opened Colors
  import opened Glyphs
  import opened TileSets

  /** Every bitmap of the atlas is a full 20x40 RGBA cell, as `Font::glyph` asserts. */
  lemma AtlasBitmapsShape(info: TileSetInfo, font: char -> Outline, blend: (Color, Color, real) -> Color)
    ensures forall b :: b in AtlasOf(info, font, blend).bitmaps ==>
              b.width == 20 && b.height == 40 && |b.data| == 20 * 40 * 4
  {
    var a := AtlasOf(info, font, blend);
    forall b | b in a.bitmaps
      ensures b.width == 20 && b.height == 40 && |b.data| == 20 * 40 * 4
    {
      var i :| 0 <= i < |a.bitmaps| && a.bitmaps[i] == b;
      assert b == TileBitmap(info.tiles[i], font, blend);
    }
  }

  /** With distinct keys, a generated match returns the value of the arm naming the
      key. */
  lemma ArmOfDistinct<V>(arms: seq<(string, V)>, k: nat)
    requires k < |arms| && forall a, b :: 0 <= a < b < |arms| ==> arms[a].0 != arms[b].0
    ensures Arm(arms, arms[k].0) == Some(arms[k].1)
  {
    var r := Arm(arms, arms[k].0);
    var k' :| 0 <= k' < |arms| && arms[k'] == (arms[k].0, r.value)
              && forall j :: 0 <= j < k' ==> arms[j].0 != arms[k].0;
    assert k' == k;
  }

  /** In the atlas of tiles with distinct names, tile i's `idx` arm gives i, which is
      below the number of bitmaps, bitmap i is tile i's glyph, and its `as_char` arm
      gives its character. */
  lemma AtlasArms(info: TileSetInfo, font: char -> Outline, blend: (Color, Color, real) -> Color, i: nat)
    requires i < |info.tiles|
    requires forall a, b :: 0 <= a < b < |info.tiles| ==> info.tiles[a].ident != info.tiles[b].ident
    ensures var a := AtlasOf(info, font, blend);
            Arm(a.indices, info.tiles[i].ident) == Some(i) && i < |a.bitmaps|
            && a.bitmaps[i] == TileBitmap(info.tiles[i], font, blend)
            && Arm(a.chars, info.tiles[i].ident) == Some(info.tiles[i].character)
  {
    var a := AtlasOf(info, font, blend);
    assert forall k :: 0 <= k < |info.tiles| ==> a.indices[k].0 == info.tiles[k].ident;
    assert forall k :: 0 <= k < |info.tiles| ==> a.chars[k].0 == info.tiles[k].ident;
    ArmOfDistinct(a.indices, i);
    ArmOfDistinct(a.chars, i);
  }
}
