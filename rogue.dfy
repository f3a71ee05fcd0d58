/**
 * The game (src/main.rs): rooms drawn as nine-patches into a frame, and a player moved
 * one cell at a time by the arrow keys inside the 80x30 world.
 *
 * Every frame write here is `frame[(x, y)] = tile`, that is row x, column y of the
 * frame (see Frames).
 */
module Rogue {
  import opened Results
  import opened Frames

  /** `Tiles`. */
  datatype Tile = Grass | LightGrass | Character | WallNS | WallEW | WallNW | WallNE | WallSW | WallSE | Floor

  /** `App::WIDTH` and `App::HEIGHT` of the game. */
  const WIDTH: nat := 80
  const HEIGHT: nat := 30

  datatype Point = Point(x: nat, y: nat)

  /** `Rect`: the top-left corner and the bottom-right corner, one past the last
      column and row. */
  datatype Rect = Rect(topLeft: Point, bottomRight: Point)

  /** `Rect::from_parts`. */
  function FromParts(left: nat, top: nat, right: nat, bottom: nat): (r: Rect)
    ensures r.topLeft.x == left && r.topLeft.y == top
    ensures r.bottomRight.x == right && r.bottomRight.y == bottom
  {
    Rect(Point(left, top), Point(right, bottom))
  }

  /** `Room`: a rectangle whose border is walls. */
  datatype Room = Room(rect: Rect)

  /** `Room::new`. */
  function NewRoom(left: nat, top: nat, right: nat, bottom: nat): (room: Room)
    ensures room.rect == FromParts(left, top, right, bottom)
  {
    Room(Rect(Point(left, top), Point(right, bottom)))
  }

  /** The nine tiles of a `NinePatch`. */
  datatype NinePatch<T> = NinePatch(topLeft: T, top: T, topRight: T, left: T, middle: T, right: T,
                                    bottomLeft: T, bottom: T, bottomRight: T)

  /** The `NinePatch` constants of `Room`. */
  const ROOM_PATCH: NinePatch<Tile> :=
    NinePatch(WallNW, WallEW, WallNE, WallNS, Floor, WallNS, WallSW, WallEW, WallSE)

  // ---------------------------------------------------------------------------
  // Drawing, as the sequence of writes `NinePatch::draw` makes

  /** What `NinePatch::draw` needs so that it neither underflows (`right - 1`,
      `bottom - 1`) nor indexes past the buffer: every written key lies between the
      four corners, so the corners' slots bound them all. */
  predicate Drawable(rect: Rect, height: nat, size: nat) {
    var (l, t, r, b) := (rect.topLeft.x, rect.topLeft.y, rect.bottomRight.x, rect.bottomRight.y);
    r >= 1 && b >= 1
    && Offset(height, t, l) < size && Offset(height, t, r - 1) < size
    && Offset(height, b - 1, l) < size && Offset(height, b - 1, r - 1) < size
  }

  /** The first loop, from column `x` on: TOP along the top row, BOTTOM along the
      bottom row. */
  function EdgesX<T>(buf: seq<T>, height: nat, rect: Rect, p: NinePatch<T>, x: nat): (r: seq<T>)
    requires Drawable(rect, height, |buf|)
    ensures |r| == |buf|
    decreases rect.bottomRight.x - x
  {
    var (t, r, b) := (rect.topLeft.y, rect.bottomRight.x, rect.bottomRight.y);
    if x >= r - 1 then buf
    else
      var buf' := Put(Put(buf, height, x, t, p.top), height, x, b - 1, p.bottom);
      EdgesX(buf', height, rect, p, x + 1)
  }

  /** The second loop, from row `y` on: LEFT along the left column, RIGHT along the
      right column. */
  function EdgesY<T>(buf: seq<T>, height: nat, rect: Rect, p: NinePatch<T>, y: nat): (r: seq<T>)
    requires Drawable(rect, height, |buf|)
    ensures |r| == |buf|
    decreases rect.bottomRight.y - y
  {
    var (l, r, b) := (rect.topLeft.x, rect.bottomRight.x, rect.bottomRight.y);
    if y >= b - 1 then buf
    else
      OffsetMonotone(height, l, y, l, b - 1);
      OffsetMonotone(height, r - 1, y, r - 1, b - 1);
      var buf' := Put(Put(buf, height, l, y, p.left), height, r - 1, y, p.right);
      EdgesY(buf', height, rect, p, y + 1)
  }

  /** The four corner writes, in order. */
  function Corners<T>(buf: seq<T>, height: nat, rect: Rect, p: NinePatch<T>): (r: seq<T>)
    requires Drawable(rect, height, |buf|)
    ensures |r| == |buf|
  {
    var (l, t, r, b) := (rect.topLeft.x, rect.topLeft.y, rect.bottomRight.x, rect.bottomRight.y);
    var buf1 := Put(buf, height, l, t, p.topLeft);
    var buf2 := Put(buf1, height, r - 1, t, p.topRight);
    var buf3 := Put(buf2, height, l, b - 1, p.bottomLeft);
    Put(buf3, height, r - 1, b - 1, p.bottomRight)
  }

  /** The inner loop of the last nest, for column `x`, from row `y` on: MIDDLE. */
  function Column<T>(buf: seq<T>, height: nat, rect: Rect, p: NinePatch<T>, x: nat, y: nat): (r: seq<T>)
    requires Drawable(rect, height, |buf|) && x < rect.bottomRight.x
    ensures |r| == |buf|
    decreases rect.bottomRight.y - y
  {
    var (r, b) := (rect.bottomRight.x, rect.bottomRight.y);
    if y >= b - 1 then buf
    else
      OffsetMonotone(height, x, y, r - 1, b - 1);
      Column(Put(buf, height, x, y, p.middle), height, rect, p, x, y + 1)
  }

  /** The last nest, from column `x` on. */
  function Middle<T>(buf: seq<T>, height: nat, rect: Rect, p: NinePatch<T>, x: nat): (r: seq<T>)
    requires Drawable(rect, height, |buf|)
    ensures |r| == |buf|
    decreases rect.bottomRight.x - x
  {
    var r := rect.bottomRight.x;
    if x >= r - 1 then buf
    else Middle(Column(buf, height, rect, p, x, rect.topLeft.y + 1), height, rect, p, x + 1)
  }

  /** The buffer after `NinePatch::draw`: edges, sides, corners, then the middle. */
  function Drawn<T>(buf: seq<T>, height: nat, rect: Rect, p: NinePatch<T>): (r: seq<T>)
    requires Drawable(rect, height, |buf|)
    ensures |r| == |buf|
  {
    var edges := EdgesY(EdgesX(buf, height, rect, p, rect.topLeft.x + 1), height, rect, p, rect.topLeft.y + 1);
    Middle(Corners(edges, height, rect, p), height, rect, p, rect.topLeft.x + 1)
  }

  /** `NinePatch::draw`. */
  method Draw<T>(frame: Frame<T>, rect: Rect, p: NinePatch<T>)
    requires Drawable(rect, frame.height, |frame.buf|)
    modifies frame
    ensures frame.width == old(frame.width) && frame.height == old(frame.height)
    ensures frame.buf == Drawn(old(frame.buf), frame.height, rect, p)
  {
    DrawEdgesX(frame, rect, p);
    DrawEdgesY(frame, rect, p);
    DrawCorners(frame, rect, p);
    DrawMiddle(frame, rect, p);
  }

  /** The first loop of `NinePatch::draw`. */
  method DrawEdgesX<T>(frame: Frame<T>, rect: Rect, p: NinePatch<T>)
    requires Drawable(rect, frame.height, |frame.buf|)
    modifies frame
    ensures frame.width == old(frame.width) && frame.height == old(frame.height)
    ensures frame.buf == EdgesX(old(frame.buf), frame.height, rect, p, rect.topLeft.x + 1)
  {
    var Rect(topLeft, bottomRight) := rect;
    ghost var target := EdgesX(frame.buf, frame.height, rect, p, topLeft.x + 1);
    var x := topLeft.x + 1;
    while x < bottomRight.x - 1
      invariant frame.width == old(frame.width) && frame.height == old(frame.height)
      invariant |frame.buf| == old(|frame.buf|)
      invariant EdgesX(frame.buf, frame.height, rect, p, x) == target
      decreases bottomRight.x - x
    {
      frame.Set(x, topLeft.y, p.top);
      frame.Set(x, bottomRight.y - 1, p.bottom);
      x := x + 1;
    }
  }

  /** The second loop of `NinePatch::draw`. */
  method DrawEdgesY<T>(frame: Frame<T>, rect: Rect, p: NinePatch<T>)
    requires Drawable(rect, frame.height, |frame.buf|)
    modifies frame
    ensures frame.width == old(frame.width) && frame.height == old(frame.height)
    ensures frame.buf == EdgesY(old(frame.buf), frame.height, rect, p, rect.topLeft.y + 1)
  {
    var Rect(topLeft, bottomRight) := rect;
    ghost var target := EdgesY(frame.buf, frame.height, rect, p, topLeft.y + 1);
    var y := topLeft.y + 1;
    while y < bottomRight.y - 1
      invariant frame.width == old(frame.width) && frame.height == old(frame.height)
      invariant |frame.buf| == old(|frame.buf|)
      invariant EdgesY(frame.buf, frame.height, rect, p, y) == target
      decreases bottomRight.y - y
    {
      OffsetMonotone(frame.height, topLeft.x, y, topLeft.x, bottomRight.y - 1);
      OffsetMonotone(frame.height, bottomRight.x - 1, y, bottomRight.x - 1, bottomRight.y - 1);
      frame.Set(topLeft.x, y, p.left);
      frame.Set(bottomRight.x - 1, y, p.right);
      y := y + 1;
    }
  }

  /** The four corner writes of `NinePatch::draw`. */
  method DrawCorners<T>(frame: Frame<T>, rect: Rect, p: NinePatch<T>)
    requires Drawable(rect, frame.height, |frame.buf|)
    modifies frame
    ensures frame.width == old(frame.width) && frame.height == old(frame.height)
    ensures frame.buf == Corners(old(frame.buf), frame.height, rect, p)
  {
    var Rect(topLeft, bottomRight) := rect;
    frame.Set(topLeft.x, topLeft.y, p.topLeft);
    frame.Set(bottomRight.x - 1, topLeft.y, p.topRight);
    frame.Set(topLeft.x, bottomRight.y - 1, p.bottomLeft);
    frame.Set(bottomRight.x - 1, bottomRight.y - 1, p.bottomRight);
  }

  /** The last loop nest of `NinePatch::draw`. */
  method DrawMiddle<T>(frame: Frame<T>, rect: Rect, p: NinePatch<T>)
    requires Drawable(rect, frame.height, |frame.buf|)
    modifies frame
    ensures frame.width == old(frame.width) && frame.height == old(frame.height)
    ensures frame.buf == Middle(old(frame.buf), frame.height, rect, p, rect.topLeft.x + 1)
  {
    var Rect(topLeft, bottomRight) := rect;
    ghost var target := Middle(frame.buf, frame.height, rect, p, topLeft.x + 1);
    var x := topLeft.x + 1;
    while x < bottomRight.x - 1
      invariant frame.width == old(frame.width) && frame.height == old(frame.height)
      invariant |frame.buf| == old(|frame.buf|)
      invariant Middle(frame.buf, frame.height, rect, p, x) == target
      decreases bottomRight.x - x
    {
      ghost var column := Column(frame.buf, frame.height, rect, p, x, topLeft.y + 1);
      var y := topLeft.y + 1;
      while y < bottomRight.y - 1
        invariant frame.width == old(frame.width) && frame.height == old(frame.height)
        invariant |frame.buf| == old(|frame.buf|)
        invariant Column(frame.buf, frame.height, rect, p, x, y) == column
        decreases bottomRight.y - y
      {
        OffsetMonotone(frame.height, x, y, bottomRight.x - 1, bottomRight.y - 1);
        frame.Set(x, y, p.middle);
        y := y + 1;
      }
      x := x + 1;
    }
  }

  // ---------------------------------------------------------------------------
  // What each cell holds after drawing

  /** The written keys' rows lie inside the frame's height, so distinct keys have
      distinct slots (otherwise writes alias, see `Frames.RowOverflowAliases`). */
  predicate RowsInFrame(rect: Rect, height: nat) {
    rect.topLeft.x < height && rect.bottomRight.x <= height
  }

  /** The tile `NinePatch::draw` leaves at key (row, col), or none for a key it does not
      write: the middle is written last, then the corners in reverse order of writing,
      then the sides and the edges. */
  function CellAt<T>(rect: Rect, p: NinePatch<T>, row: nat, col: nat): Option<T> {
    var (l, t, r, b) := (rect.topLeft.x, rect.topLeft.y, rect.bottomRight.x - 1, rect.bottomRight.y - 1);
    if l < row < r && t < col < b then Some(p.middle)
    else if row == r && col == b then Some(p.bottomRight)
    else if row == l && col == b then Some(p.bottomLeft)
    else if row == r && col == t then Some(p.topRight)
    else if row == l && col == t then Some(p.topLeft)
    else if t < col < b && row == r then Some(p.right)
    else if t < col < b && row == l then Some(p.left)
    else if l < row < r && col == b then Some(p.bottom)
    else if l < row < r && col == t then Some(p.top)
    else None
  }

  /** The first loop, from column `x` on, at one key. */
  lemma {:induction false} EdgesXAt<T>(buf: seq<T>, height: nat, rect: Rect, p: NinePatch<T>, x: nat, row: nat, col: nat)
    requires Drawable(rect, height, |buf|) && RowsInFrame(rect, height)
    requires row < height && Offset(height, col, row) < |buf|
    ensures EdgesX(buf, height, rect, p, x)[Offset(height, col, row)] ==
              if x <= row < rect.bottomRight.x - 1 && col == rect.bottomRight.y - 1 then p.bottom
              else if x <= row < rect.bottomRight.x - 1 && col == rect.topLeft.y then p.top
              else buf[Offset(height, col, row)]
    decreases rect.bottomRight.x - x
  {
    var (t, r, b) := (rect.topLeft.y, rect.bottomRight.x, rect.bottomRight.y);
    if x < r - 1 {
      var buf1 := Put(buf, height, x, t, p.top);
      var buf2 := Put(buf1, height, x, b - 1, p.bottom);
      GetAfterPut(buf, height, x, t, p.top, row, col);
      GetAfterPut(buf1, height, x, b - 1, p.bottom, row, col);
      EdgesXAt(buf2, height, rect, p, x + 1, row, col);
    }
  }

  /** The second loop, from row `y` on, at one key. */
  lemma {:induction false} EdgesYAt<T>(buf: seq<T>, height: nat, rect: Rect, p: NinePatch<T>, y: nat, row: nat, col: nat)
    requires Drawable(rect, height, |buf|) && RowsInFrame(rect, height)
    requires row < height && Offset(height, col, row) < |buf|
    ensures EdgesY(buf, height, rect, p, y)[Offset(height, col, row)] ==
              if y <= col < rect.bottomRight.y - 1 && row == rect.bottomRight.x - 1 then p.right
              else if y <= col < rect.bottomRight.y - 1 && row == rect.topLeft.x then p.left
              else buf[Offset(height, col, row)]
    decreases rect.bottomRight.y - y
  {
    var (l, r, b) := (rect.topLeft.x, rect.bottomRight.x, rect.bottomRight.y);
    if y < b - 1 {
      OffsetMonotone(height, l, y, l, b - 1);
      OffsetMonotone(height, r - 1, y, r - 1, b - 1);
      var buf1 := Put(buf, height, l, y, p.left);
      var buf2 := Put(buf1, height, r - 1, y, p.right);
      GetAfterPut(buf, height, l, y, p.left, row, col);
      GetAfterPut(buf1, height, r - 1, y, p.right, row, col);
      EdgesYAt(buf2, height, rect, p, y + 1, row, col);
    }
  }

  /** The corner writes at one key. */
  lemma CornersAt<T>(buf: seq<T>, height: nat, rect: Rect, p: NinePatch<T>, row: nat, col: nat)
    requires Drawable(rect, height, |buf|) && RowsInFrame(rect, height)
    requires row < height && Offset(height, col, row) < |buf|
    ensures var (l, t, r, b) := (rect.topLeft.x, rect.topLeft.y, rect.bottomRight.x - 1, rect.bottomRight.y - 1);
            Corners(buf, height, rect, p)[Offset(height, col, row)] ==
              if row == r && col == b then p.bottomRight
              else if row == l && col == b then p.bottomLeft
              else if row == r && col == t then p.topRight
              else if row == l && col == t then p.topLeft
              else buf[Offset(height, col, row)]
  {
    var (l, t, r, b) := (rect.topLeft.x, rect.topLeft.y, rect.bottomRight.x - 1, rect.bottomRight.y - 1);
    var buf1 := Put(buf, height, l, t, p.topLeft);
    var buf2 := Put(buf1, height, r, t, p.topRight);
    var buf3 := Put(buf2, height, l, b, p.bottomLeft);
    GetAfterPut(buf, height, l, t, p.topLeft, row, col);
    GetAfterPut(buf1, height, r, t, p.topRight, row, col);
    GetAfterPut(buf2, height, l, b, p.bottomLeft, row, col);
    GetAfterPut(buf3, height, r, b, p.bottomRight, row, col);
  }

  /** The inner loop of the last nest, at one key. */
  lemma {:induction false} ColumnAt<T>(buf: seq<T>, height: nat, rect: Rect, p: NinePatch<T>, x: nat, y: nat,
                                       row: nat, col: nat)
    requires Drawable(rect, height, |buf|) && RowsInFrame(rect, height) && x < rect.bottomRight.x - 1
    requires row < height && Offset(height, col, row) < |buf|
    ensures Column(buf, height, rect, p, x, y)[Offset(height, col, row)] ==
              if row == x && y <= col < rect.bottomRight.y - 1 then p.middle else buf[Offset(height, col, row)]
    decreases rect.bottomRight.y - y
  {
    var (r, b) := (rect.bottomRight.x, rect.bottomRight.y);
    if y < b - 1 {
      OffsetMonotone(height, x, y, r - 1, b - 1);
      GetAfterPut(buf, height, x, y, p.middle, row, col);
      ColumnAt(Put(buf, height, x, y, p.middle), height, rect, p, x, y + 1, row, col);
    }
  }

  /** The last nest, from column `x` on, at one key. */
  lemma {:induction false} MiddleAt<T>(buf: seq<T>, height: nat, rect: Rect, p: NinePatch<T>, x: nat, row: nat, col: nat)
    requires Drawable(rect, height, |buf|) && RowsInFrame(rect, height)
    requires row < height && Offset(height, col, row) < |buf|
    ensures Middle(buf, height, rect, p, x)[Offset(height, col, row)] ==
              if x <= row < rect.bottomRight.x - 1 && rect.topLeft.y < col < rect.bottomRight.y - 1 then p.middle
              else buf[Offset(height, col, row)]
    decreases rect.bottomRight.x - x
  {
    if x < rect.bottomRight.x - 1 {
      var column := Column(buf, height, rect, p, x, rect.topLeft.y + 1);
      ColumnAt(buf, height, rect, p, x, rect.topLeft.y + 1, row, col);
      MiddleAt(column, height, rect, p, x + 1, row, col);
    }
  }

  /** When the written rows lie inside the frame, drawing leaves at every key of the
      frame the tile `CellAt` names, and keeps the old tile at every key it does not
      name. */
  lemma DrawnCell<T>(buf: seq<T>, height: nat, rect: Rect, p: NinePatch<T>, row: nat, col: nat)
    requires Drawable(rect, height, |buf|) && RowsInFrame(rect, height)
    requires row < height && Offset(height, col, row) < |buf|
    ensures Drawn(buf, height, rect, p)[Offset(height, col, row)] ==
              match CellAt(rect, p, row, col)
              case Some(v) => v
              case None => buf[Offset(height, col, row)]
  {
    var (l, t) := (rect.topLeft.x, rect.topLeft.y);
    var edgesX := EdgesX(buf, height, rect, p, l + 1);
    var edges := EdgesY(edgesX, height, rect, p, t + 1);
    var corners := Corners(edges, height, rect, p);
    EdgesXAt(buf, height, rect, p, l + 1, row, col);
    EdgesYAt(edgesX, height, rect, p, t + 1, row, col);
    CornersAt(edges, height, rect, p, row, col);
    MiddleAt(corners, height, rect, p, l + 1, row, col);
  }

  /** A room at least two cells wide and two tall gets its four corner tiles, its edges
      and sides, and its floor (empty when the room is exactly two cells across). */
  lemma RoomOutline<T>(buf: seq<T>, height: nat, rect: Rect, p: NinePatch<T>)
    requires Drawable(rect, height, |buf|) && RowsInFrame(rect, height)
    requires rect.topLeft.x + 1 < rect.bottomRight.x && rect.topLeft.y + 1 < rect.bottomRight.y
    ensures var (l, t, r, b) := (rect.topLeft.x, rect.topLeft.y, rect.bottomRight.x - 1, rect.bottomRight.y - 1);
            var d := Drawn(buf, height, rect, p);
            d[Offset(height, t, l)] == p.topLeft && d[Offset(height, t, r)] == p.topRight
            && d[Offset(height, b, l)] == p.bottomLeft && d[Offset(height, b, r)] == p.bottomRight
    ensures var (l, t, r, b) := (rect.topLeft.x, rect.topLeft.y, rect.bottomRight.x - 1, rect.bottomRight.y - 1);
            var d := Drawn(buf, height, rect, p);
            forall x: nat :: l < x < r ==>
              Offset(height, t, x) < |d| && d[Offset(height, t, x)] == p.top
              && Offset(height, b, x) < |d| && d[Offset(height, b, x)] == p.bottom
    ensures var (l, t, r, b) := (rect.topLeft.x, rect.topLeft.y, rect.bottomRight.x - 1, rect.bottomRight.y - 1);
            var d := Drawn(buf, height, rect, p);
            forall y: nat :: t < y < b ==>
              Offset(height, y, l) < |d| && d[Offset(height, y, l)] == p.left
              && Offset(height, y, r) < |d| && d[Offset(height, y, r)] == p.right
    ensures var (l, t, r, b) := (rect.topLeft.x, rect.topLeft.y, rect.bottomRight.x - 1, rect.bottomRight.y - 1);
            var d := Drawn(buf, height, rect, p);
            forall x: nat, y: nat :: l < x < r && t < y < b ==>
              Offset(height, y, x) < |d| && d[Offset(height, y, x)] == p.middle
  {
    var (l, t, r, b) := (rect.topLeft.x, rect.topLeft.y, rect.bottomRight.x - 1, rect.bottomRight.y - 1);
    DrawnCell(buf, height, rect, p, l, t);
    DrawnCell(buf, height, rect, p, r, t);
    DrawnCell(buf, height, rect, p, l, b);
    DrawnCell(buf, height, rect, p, r, b);
    forall x: nat | l < x < r
      ensures Offset(height, t, x) < |buf| && Offset(height, b, x) < |buf|
      ensures Drawn(buf, height, rect, p)[Offset(height, t, x)] == p.top
      ensures Drawn(buf, height, rect, p)[Offset(height, b, x)] == p.bottom
    {
      DrawnCell(buf, height, rect, p, x, t);
      DrawnCell(buf, height, rect, p, x, b);
    }
    forall y: nat | t < y < b
      ensures Offset(height, y, l) < |buf| && Offset(height, y, r) < |buf|
      ensures Drawn(buf, height, rect, p)[Offset(height, y, l)] == p.left
      ensures Drawn(buf, height, rect, p)[Offset(height, y, r)] == p.right
    {
      OffsetMonotone(height, l, y, l, b);
      OffsetMonotone(height, r, y, r, b);
      DrawnCell(buf, height, rect, p, l, y);
      DrawnCell(buf, height, rect, p, r, y);
    }
    forall x: nat, y: nat | l < x < r && t < y < b
      ensures Offset(height, y, x) < |buf|
      ensures Drawn(buf, height, rect, p)[Offset(height, y, x)] == p.middle
    {
      OffsetMonotone(height, x, y, r, b);
      DrawnCell(buf, height, rect, p, x, y);
    }
  }

  /** No key outside a rectangle whose corners are in order changes. (An inverted
      rectangle still gets its corner tiles, at keys outside it.) */
  lemma DrawnOutsideUnchanged<T>(buf: seq<T>, height: nat, rect: Rect, p: NinePatch<T>, row: nat, col: nat)
    requires Drawable(rect, height, |buf|) && RowsInFrame(rect, height)
    requires rect.topLeft.x < rect.bottomRight.x && rect.topLeft.y < rect.bottomRight.y
    requires row < height && Offset(height, col, row) < |buf|
    requires !(rect.topLeft.x <= row < rect.bottomRight.x && rect.topLeft.y <= col < rect.bottomRight.y)
    ensures Drawn(buf, height, rect, p)[Offset(height, col, row)] == buf[Offset(height, col, row)]
  {
    DrawnCell(buf, height, rect, p, row, col);
  }

  /** The room the game draws, `Room::new(0, 0, 5, 7)`, fits an 80x30 frame and its
      rows are inside the frame's height. */
  lemma GameRoomFits()
    ensures var rect := NewRoom(0, 0, 5, 7).rect;
            Drawable(rect, HEIGHT, WIDTH * HEIGHT) && RowsInFrame(rect, HEIGHT)
  {
  }

  // ---------------------------------------------------------------------------
  // The player

  /** The keys the game reacts to; every other key is `Other`. */
  datatype KeyCode = Left | Up | Right | Down | Other(code: nat)

  /** Where a key press moves the player: one step in the key's direction unless that
      leaves the 80x30 world. */
  function Moved(p: Point, key: KeyCode): Point {
    match key
    case Left => if p.x > 0 then Point(p.x - 1, p.y) else p
    case Up => if p.y > 0 then Point(p.x, p.y - 1) else p
    case Right => if p.x < 79 then Point(p.x + 1, p.y) else p
    case Down => if p.y < 29 then Point(p.x, p.y + 1) else p
    case Other(_) => p
  }

  predicate InWorld(p: Point) {
    p.x < WIDTH && p.y < HEIGHT
  }

  /** A key press keeps the player in the world, moves it by at most one cell along
      one axis, and only an arrow key moves it. */
  lemma MovedStaysInWorld(p: Point, key: KeyCode)
    requires InWorld(p)
    ensures InWorld(Moved(p, key))
    ensures var q := Moved(p, key);
            (q.y == p.y && (q.x == p.x || q.x + 1 == p.x || q.x == p.x + 1))
            || (q.x == p.x && (q.y + 1 == p.y || q.y == p.y + 1))
    ensures key.Other? ==> Moved(p, key) == p
  {
  }

  /** Opposite keys undo each other away from the walls. */
  lemma OppositeKeysCancel(p: Point)
    ensures 0 < p.x <= 79 ==> Moved(Moved(p, Left), Right) == p
    ensures p.x < 79 ==> Moved(Moved(p, Right), Left) == p
    ensures 0 < p.y <= 29 ==> Moved(Moved(p, Up), Down) == p
    ensures p.y < 29 ==> Moved(Moved(p, Down), Up) == p
  {
  }

  /** Pressing Left `n` times from column x ends in column max(x - n, 0). */
  function PressLeft(p: Point, n: nat): Point {
    if n == 0 then p else Moved(PressLeft(p, n - 1), Left)
  }

  lemma {:induction false} PressLeftClamps(p: Point, n: nat)
    ensures PressLeft(p, n) == Point(if p.x >= n then p.x - n else 0, p.y)
  {
    if n > 0 {
      PressLeftClamps(p, n - 1);
    }
  }

  /** The game state: where the player stands. The random world is not modelled. */
  class State {
    var player: Point

    /** The player starts at (5, 5). */
    constructor New()
      ensures player == Point(5, 5) && InWorld(player)
    {
      player := Point(5, 5);
    }

    /** `key_down_event`. */
    method KeyDownEvent(key: KeyCode)
      modifies this
      ensures player == Moved(old(player), key)
      ensures old(InWorld(player)) ==> InWorld(player)
    {
      match key {
        case Left =>
          if player.x > 0 {
            player := player.(x := player.x - 1);
          }
        case Up =>
          if player.y > 0 {
            player := player.(y := player.y - 1);
          }
        case Right =>
          if player.x < 79 {
            player := player.(x := player.x + 1);
          }
        case Down =>
          if player.y < 29 {
            player := player.(y := player.y + 1);
          }
        case Other(_) =>
      }
    }
  }
}
