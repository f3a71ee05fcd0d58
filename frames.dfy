/**
 * Frames (tiler/src/frame.rs): a dense grid of tiles stored column after column in
 * one buffer. `dims` is (width, height); the slot of column x, row y is
 * `x * height + y`, and a frame is indexed by the pair (row, column).
 *
 * The indexing only checks the buffer bound: a row at or beyond the height still
 * reaches a slot whenever the offset is small enough, and that slot belongs to
 * another cell (`RowOverflowAliases`).
 */
module Frames {

  /** `idx(x, y)`: the slot of column `x`, row `y` in a frame of the given height. */
  function Offset(height: nat, x: nat, y: nat): nat {
    x * height + y
  }

  /** Inside the grid, a cell's slot is inside the buffer. */
  lemma OffsetInGrid(width: nat, height: nat, row: nat, col: nat)
    requires row < height && col < width
    ensures Offset(height, col, row) < width * height
  {
    assert (col + 1) * height <= width * height by {
      MulLeft(col + 1, width, height);
    }
  }

  /** Within the height, distinct cells have distinct slots. */
  lemma OffsetInjective(height: nat, row1: nat, col1: nat, row2: nat, col2: nat)
    requires row1 < height && row2 < height
    requires Offset(height, col1, row1) == Offset(height, col2, row2)
    ensures row1 == row2 && col1 == col2
  {
    if col1 < col2 {
      MulLeft(col1 + 1, col2, height);
      assert false;
    } else if col2 < col1 {
      MulLeft(col2 + 1, col1, height);
      assert false;
    }
  }

  /** Slots grow with the column and with the row. */
  lemma OffsetMonotone(height: nat, row1: nat, col1: nat, row2: nat, col2: nat)
    requires row1 <= row2 && col1 <= col2
    ensures Offset(height, col1, row1) <= Offset(height, col2, row2)
  {
    MulLeft(col1, col2, height);
  }

  lemma MulLeft(a: nat, b: nat, h: nat)
    requires a <= b
    ensures a * h <= b * h
  {
    assert b * h == a * h + (b - a) * h;
  }

  /** A row `height` or more past the top reaches the slot of the cell `height` rows
      up in the next column: the frame does not reject it. */
  lemma RowOverflowAliases(height: nat, row: nat, col: nat)
    requires row >= height
    ensures Offset(height, col, row) == Offset(height, col + 1, row - height)
  {
  }

  /** In an 80x30 frame the cells (35, 0) and (5, 1) are one slot, so writing one
      overwrites the other: the position keys that `main.rs` and the renderer pass
      as `frame[(x, y)]` for x up to 79 fall on the same slots. */
  lemma KeysAliasExample()
    ensures Offset(30, 0, 35) == Offset(30, 1, 5) < 80 * 30
  {
  }

  /** `frame[(row, col)] = v` on the buffer value. */
  function Put<T>(buf: seq<T>, height: nat, row: nat, col: nat, v: T): (r: seq<T>)
    requires Offset(height, col, row) < |buf|
  {
    buf[Offset(height, col, row) := v]
  }

  /** After `frame[(row, col)] = v`, `frame[(row, col)]` is `v`; within the height no
      other cell changes, and the buffer keeps its length. */
  lemma GetAfterPut<T>(buf: seq<T>, height: nat, row: nat, col: nat, v: T, row': nat, col': nat)
    requires Offset(height, col, row) < |buf| && Offset(height, col', row') < |buf|
    requires row < height && row' < height
    ensures |Put(buf, height, row, col, v)| == |buf|
    ensures Put(buf, height, row, col, v)[Offset(height, col', row')] ==
              if (row', col') == (row, col) then v else buf[Offset(height, col', row')]
  {
    if (row', col') != (row, col) && Offset(height, col', row') == Offset(height, col, row) {
      OffsetInjective(height, row, col, row', col');
    }
  }

  /** Row `row`'s first `n` columns, each as its character. */
  function Line<T>(buf: seq<T>, width: nat, height: nat, row: nat, n: nat, asChar: T -> char): (s: string)
    requires |buf| == width * height && row < height && n <= width
    ensures |s| == n
  {
    if n == 0 then []
    else
      OffsetInGrid(width, height, row, n - 1);
      Line(buf, width, height, row, n - 1, asChar) + [asChar(buf[Offset(height, n - 1, row)])]
  }

  /** The first `n` rows, each followed by a newline. */
  function Lines<T>(buf: seq<T>, width: nat, height: nat, n: nat, asChar: T -> char): string
    requires |buf| == width * height && n <= height
  {
    if n == 0 then []
    else Lines(buf, width, height, n - 1, asChar) + Line(buf, width, height, n - 1, width, asChar) + "\n"
  }

  /** The text `debug_print` writes. */
  function Dump<T>(buf: seq<T>, width: nat, height: nat, asChar: T -> char): string
    requires |buf| == width * height
  {
    "Frame:\n" + Lines(buf, width, height, height, asChar)
  }

  /** Where row `row` starts in `debug_print`'s text: after "Frame:" and its newline,
      and `width + 1` characters per earlier row. */
  function RowStart(width: nat, row: nat): nat {
    7 + row * (width + 1)
  }

  /** Each row takes `width + 1` characters. */
  lemma {:induction false} LinesLength<T>(buf: seq<T>, width: nat, height: nat, n: nat, asChar: T -> char)
    requires |buf| == width * height && n <= height
    ensures |Lines(buf, width, height, n, asChar)| == n * (width + 1)
  {
    if n > 0 {
      LinesLength(buf, width, height, n - 1, asChar);
      assert |Lines(buf, width, height, n, asChar)| == |Lines(buf, width, height, n - 1, asChar)| + (width + 1);
      assert (n - 1) * (width + 1) + (width + 1) == n * (width + 1);
    }
  }

  /** Character `col` of row `row`'s line is that cell's character, and the one after
      the last column is a newline. */
  lemma {:induction false} LinesAt<T>(buf: seq<T>, width: nat, height: nat, n: nat, asChar: T -> char,
                                      row: nat, col: nat)
    requires |buf| == width * height && row < n <= height && col <= width
    ensures col < width ==> Offset(height, col, row) < |buf|
    ensures row * (width + 1) + col < |Lines(buf, width, height, n, asChar)|
    ensures Lines(buf, width, height, n, asChar)[row * (width + 1) + col] ==
              if col < width then asChar(buf[Offset(height, col, row)]) else '\n'
  {
    if col < width {
      OffsetInGrid(width, height, row, col);
    }
    LinesLength(buf, width, height, n - 1, asChar);
    var front := Lines(buf, width, height, n - 1, asChar);
    var line := Line(buf, width, height, n - 1, width, asChar);
    assert Lines(buf, width, height, n, asChar) == front + line + "\n";
    if row < n - 1 {
      MulLeft(row + 1, n - 1, width + 1);
      LinesAt(buf, width, height, n - 1, asChar, row, col);
    } else if col < width {
      LineAt(buf, width, height, n - 1, width, asChar, col);
    }
  }

  /** Character `col` of a row's text is that cell's character. */
  lemma {:induction false} LineAt<T>(buf: seq<T>, width: nat, height: nat, row: nat, n: nat, asChar: T -> char, col: nat)
    requires |buf| == width * height && row < height && col < n <= width
    ensures Offset(height, col, row) < |buf|
    ensures Line(buf, width, height, row, n, asChar)[col] == asChar(buf[Offset(height, col, row)])
  {
    OffsetInGrid(width, height, row, col);
    if col < n - 1 {
      LineAt(buf, width, height, row, n - 1, asChar, col);
    }
  }

  /** `debug_print`'s text is "Frame:" and a newline, then one line per row, in order,
      holding that row's cells from column 0 to the last, then a newline. */
  lemma DumpLayout<T>(buf: seq<T>, width: nat, height: nat, asChar: T -> char)
    requires |buf| == width * height
    ensures |Dump(buf, width, height, asChar)| == 7 + height * (width + 1)
    ensures Dump(buf, width, height, asChar)[..7] == "Frame:\n"
    ensures forall row: nat, col: nat :: row < height && col < width ==>
              Offset(height, col, row) < |buf|
              && RowStart(width, row) + col < |Dump(buf, width, height, asChar)|
              && Dump(buf, width, height, asChar)[RowStart(width, row) + col] == asChar(buf[Offset(height, col, row)])
    ensures forall row: nat :: row < height ==>
              RowStart(width, row) + width < |Dump(buf, width, height, asChar)|
              && Dump(buf, width, height, asChar)[RowStart(width, row) + width] == '\n'
  {
    LinesLength(buf, width, height, height, asChar);
    forall row: nat, col: nat | row < height && col < width
      ensures Offset(height, col, row) < |buf|
      ensures RowStart(width, row) + col < |Dump(buf, width, height, asChar)|
      ensures Dump(buf, width, height, asChar)[RowStart(width, row) + col] == asChar(buf[Offset(height, col, row)])
    {
      DumpAt(buf, width, height, asChar, row, col);
    }
    forall row: nat | row < height
      ensures RowStart(width, row) + width < |Dump(buf, width, height, asChar)|
      ensures Dump(buf, width, height, asChar)[RowStart(width, row) + width] == '\n'
    {
      DumpAt(buf, width, height, asChar, row, width);
    }
  }

  /** One position of `debug_print`'s text. */
  lemma DumpAt<T>(buf: seq<T>, width: nat, height: nat, asChar: T -> char, row: nat, col: nat)
    requires |buf| == width * height && row < height && col <= width
    ensures col < width ==> Offset(height, col, row) < |buf|
    ensures RowStart(width, row) + col < |Dump(buf, width, height, asChar)|
    ensures Dump(buf, width, height, asChar)[RowStart(width, row) + col] ==
              if col < width then asChar(buf[Offset(height, col, row)]) else '\n'
  {
    LinesAt(buf, width, height, height, asChar, row, col);
    var lines := Lines(buf, width, height, height, asChar);
    assert Dump(buf, width, height, asChar) == "Frame:\n" + lines;
    assert RowStart(width, row) + col == 7 + (row * (width + 1) + col);
  }

  /** `Frame<T>`: the buffer and the dimensions (width, height). */
  class Frame<T> {
    var buf: seq<T>
    var width: nat
    var height: nat

    /** Every cell of the grid has its slot. */
    predicate Valid()
      reads this
    {
      |buf| == width * height
    }

    /** `Frame::new`: `width * height` copies of `T::default()`, given as `default`. */
    constructor New(width: nat, height: nat, default: T)
      ensures this.width == width && this.height == height
      ensures |buf| == width * height && forall i :: 0 <= i < |buf| ==> buf[i] == default
      ensures Valid()
    {
      var area := width * height;
      var b: seq<T> := [];
      for i := 0 to area
        invariant |b| == i && forall j :: 0 <= j < i ==> b[j] == default
      {
        b := b + [default];
      }
      this.buf := b;
      this.width := width;
      this.height := height;
    }

    /** `Frame::default`: an 80x25 frame of defaults. */
    static method Default(default: T) returns (f: Frame<T>)
      ensures fresh(f)
      ensures f.width == 80 && f.height == 25 && f.Valid()
      ensures forall i :: 0 <= i < |f.buf| ==> f.buf[i] == default
    {
      f := new Frame.New(80, 25, default);
    }

    /** `idx`. */
    function Idx(x: nat, y: nat): nat
      reads this
    {
      Offset(height, x, y)
    }

    /** `get` and `Index`: the cell at (row, col), i.e. slot `col * height + row`;
        only the buffer bound is checked. */
    function Get(row: nat, col: nat): T
      reads this
      requires Idx(col, row) < |buf|
    {
      buf[Idx(col, row)]
    }

    /** `get_mut` and `IndexMut`, followed by a store: `frame[(row, col)] = v`. */
    method Set(row: nat, col: nat, v: T)
      requires Idx(col, row) < |buf|
      modifies this
      ensures width == old(width) && height == old(height)
      ensures buf == Put(old(buf), height, row, col, v)
      ensures |buf| == old(|buf|) && Valid() == old(Valid())
      ensures Get(row, col) == v
    {
      buf := buf[Idx(col, row) := v];
    }

    /** `debug_print`, returning its text: rows from the top, each row's cells from the
        left. `as_char` is the parameter `asChar`. */
    method DebugPrint(asChar: T -> char) returns (text: string)
      requires Valid()
      ensures text == Dump(buf, width, height, asChar)
    {
      text := "Frame:\n";
      for row := 0 to height
        invariant text == "Frame:\n" + Lines(buf, width, height, row, asChar)
      {
        ghost var before := text;
        for col := 0 to width
          invariant text == before + Line(buf, width, height, row, col, asChar)
        {
          OffsetInGrid(width, height, row, col);
          text := text + [asChar(Get(row, col))];
        }
        text := text + "\n";
      }
    }
  }
}
