/** The terminal's framebuffer back end: a grid of cells on the screen, and a queue of cells to redraw.

Plotting a cell is one write of its look; glyphs and colours below that are not modelled.
*/
module Framebuffer {
  import opened Common

  datatype Cell = Cell(c: nat, fg: nat, bg: nat, fgDefault: bool, bgDefault: bool)

  /** What a cell looks like: a default colour hides the stored one. */
  datatype Look = Look(c: nat, fg: Option<nat>, bg: Option<nat>)

  function LookOf(a: Cell): Look {
    Look(a.c, if a.fgDefault then None else Some(a.fg), if a.bgDefault then None else Some(a.bg))
  }

  function Inverse(l: Look): Look { Look(l.c, l.bg, l.fg) }

  function Swapped(a: Cell): (r: Cell)
    ensures LookOf(r) == Inverse(LookOf(a))
  {
    Cell(a.c, a.bg, a.fg, a.bgDefault, a.fgDefault)
  }

  /** Colour numbers: the eight normal, the eight bright, then direct colours, then the two defaults. */
  function Ansi(colour: nat, bright: bool): nat
    requires colour < 8
  {
    if bright then 8 + colour else colour
  }

  function DefaultColour(bright: bool): nat { if bright then 0x200_0000 else 0x100_0000 }

  /** compare_char, test by test: two cells compare equal exactly when they look the same. */
  predicate Compare(a: Cell, b: Cell)
    ensures Compare(a, b) <==> LookOf(a) == LookOf(b)
  {
    if a.c != b.c then false
    else if a.fgDefault != b.fgDefault || a.bgDefault != b.bgDefault then false
    else if !a.fgDefault && a.fg != b.fg then false
    else if !a.bgDefault && a.bg != b.bg then false
    else true
  }

  datatype Item = Item(x: nat, y: nat, c: Cell)

  // ---------- positions ----------

  function Index(x: nat, y: nat, cols: nat): nat { y * cols + x }

  lemma IndexBound(x: nat, y: nat, cols: nat, rows: nat)
    requires x < cols && y < rows
    ensures Index(x, y, cols) < rows * cols
  {
    assert (y + 1) * cols <= rows * cols;
  }

  /** Splitting an index into row and column and putting it together again. */
  lemma IndexSplit(i: nat, cols: nat, rows: nat)
    requires 0 < cols && i < rows * cols
    ensures i % cols < cols && i / cols < rows && Index(i % cols, i / cols, cols) == i
  {
    var y := i / cols;
    assert i == cols * y + i % cols;
    assert rows <= y ==> rows * cols <= y * cols;
  }

  lemma IndexInjective(x: nat, y: nat, x': nat, y': nat, cols: nat)
    requires x < cols && x' < cols && Index(x, y, cols) == Index(x', y', cols)
    ensures x == x' && y == y'
  {
    assert y < y' ==> (y + 1) * cols <= y' * cols;
    assert y' < y ==> (y' + 1) * cols <= y * cols;
  }

  // ---------- the plain screen ----------

  /** The rows from top to bottom, a row up; the last of them blank. */
  ghost function ScrolledUp(s: seq<Look>, cols: nat, top: nat, bottom: nat, blank: Look): (r: seq<Look>)
    ensures |r| == |s|
  {
    var lo, hi := top * cols, bottom * cols;
    seq(|s|, j requires 0 <= j < |s| =>
      if lo <= j < hi - cols && j + cols < |s| then s[j + cols] else if hi - cols <= j < hi then blank else s[j])
  }

  /** The rows from top to bottom, a row down; the first of them blank. */
  ghost function ScrolledDown(s: seq<Look>, cols: nat, top: nat, bottom: nat, blank: Look): (r: seq<Look>)
    ensures |r| == |s|
  {
    var lo, hi := top * cols, bottom * cols;
    seq(|s|, j requires 0 <= j < |s| =>
      if lo + cols <= j < hi then s[j - cols] else if lo <= j < lo + cols then blank else s[j])
  }

  /** Positions lo to hi replaced by those d further on, and by those d further back. */
  ghost function ShiftUp(s: seq<Look>, d: nat, lo: nat, hi: nat): (r: seq<Look>)
    ensures |r| == |s|
  {
    seq(|s|, j requires 0 <= j < |s| => if lo <= j < hi && j + d < |s| then s[j + d] else s[j])
  }

  ghost function ShiftDown(s: seq<Look>, d: nat, lo: nat, hi: nat): (r: seq<Look>)
    ensures |r| == |s|
  {
    seq(|s|, j requires 0 <= j < |s| => if lo <= j < hi && d <= j then s[j - d] else s[j])
  }

  ghost function Blanked(s: seq<Look>, lo: nat, hi: nat, blank: Look): (r: seq<Look>)
    ensures |r| == |s|
  {
    seq(|s|, j requires 0 <= j < |s| => if lo <= j < hi then blank else s[j])
  }

  lemma ShiftUpMore(s: seq<Look>, d: nat, lo: nat, i: nat)
    requires lo + d <= i < |s| && 0 < d
    ensures ShiftUp(s, d, lo, i - d)[i] == s[i]
    ensures Put(ShiftUp(s, d, lo, i - d), i - d, s[i]) == ShiftUp(s, d, lo, i - d + 1)
  {
  }

  lemma ShiftDownMore(s: seq<Look>, d: nat, i: nat, hi: nat)
    requires i + d < hi <= |s| && 0 < d
    ensures ShiftDown(s, d, i + d + 1, hi)[i] == s[i]
    ensures Put(ShiftDown(s, d, i + d + 1, hi), i + d, s[i]) == ShiftDown(s, d, i + d, hi)
  {
  }

  lemma ShiftDownNone(s: seq<Look>, n: nat, lo: nat, hi: nat)
    requires hi <= lo
    ensures ShiftDown(s, n, lo, hi) == s
  {
  }

  lemma ShiftUpNone(s: seq<Look>, n: nat, lo: nat, hi: nat)
    requires hi <= lo
    ensures ShiftUp(s, n, lo, hi) == s
  {
  }

  /** Shifting the margins' rows and blanking the row left over is scrolling. */
  lemma ScrollIsShift(s: seq<Look>, cols: nat, rows: nat, top: nat, bottom: nat, blank: Look)
    requires top < bottom <= rows && |s| == rows * cols
    ensures Blanked(ShiftUp(s, cols, top * cols, (bottom - 1) * cols), (bottom - 1) * cols, bottom * cols, blank)
         == ScrolledUp(s, cols, top, bottom, blank)
    ensures Blanked(ShiftDown(s, cols, (top + 1) * cols, bottom * cols), top * cols, (top + 1) * cols, blank)
         == ScrolledDown(s, cols, top, bottom, blank)
  {
    Room(cols, rows, top, bottom);
  }

  /** A full redraw: every cell, and the cursor's cell inverted. */
  ghost function Redraw(s: seq<Look>, cursor: Option<nat>): seq<Look> {
    seq(|s|, j requires 0 <= j < |s| => if cursor == Some(j) then Inverse(s[j]) else s[j])
  }

  // ---------- queue, map and grid ----------

  /** The map sends each position with a pending redraw to its queue item; nothing else is in either. */
  ghost predicate QueueOk(queue: seq<Item>, slots: seq<int>, n: nat, cols: nat, rows: nat) {
    Mapped(queue, slots, n, cols, rows) && Agree(queue, slots, n, cols)
  }

  /** The half of it that even a refresh keeps: what the map names is an item for that very position. */
  ghost predicate Mapped(queue: seq<Item>, slots: seq<int>, n: nat, cols: nat, rows: nat) {
    && |slots| == |queue| == rows * cols && n <= |queue|
    && (forall k :: 0 <= k < n ==> queue[k].x < cols && queue[k].y < rows && PlaceOf(queue, k, cols) < |slots|)
    && (forall i :: 0 <= i < |slots| ==> -1 <= slots[i] < n && (0 <= slots[i] ==> PlaceOf(queue, slots[i], cols) == i))
  }

  /** The other half: the map names every item. */
  ghost predicate Agree(queue: seq<Item>, slots: seq<int>, n: nat, cols: nat) {
    n <= |queue|
    && forall k :: 0 <= k < n ==> PlaceOf(queue, k, cols) < |slots| && slots[PlaceOf(queue, k, cols)] == k
  }

  /** The first of the first n items for a position, and n if there is none. */
  ghost function FirstAt(queue: seq<Item>, n: nat, cols: nat, i: nat): (k: nat)
    requires n <= |queue|
    ensures k <= n && (k < n ==> PlaceOf(queue, k, cols) == i)
    ensures forall j :: 0 <= j < k ==> PlaceOf(queue, j, cols) != i
  {
    if n == 0 then 0
    else
      var k := FirstAt(queue, n - 1, cols, i);
      if k < n - 1 || PlaceOf(queue, n - 1, cols) == i then k else n
  }

  function PlaceOf(queue: seq<Item>, k: nat, cols: nat): nat
    requires k < |queue|
  {
    Index(queue[k].x, queue[k].y, cols)
  }

  /** The cell a reader of the screen would be given at i: the pending one if any. */
  function Pending(queue: seq<Item>, slots: seq<int>, grid: seq<Cell>, i: nat): Cell
    requires i < |slots| == |grid| && slots[i] < |queue|
  {
    if 0 <= slots[i] then queue[slots[i]].c else grid[i]
  }

  /** Fewer items than positions whenever some position has none: the queue cannot overflow. */
  lemma RoomLeft(queue: seq<Item>, slots: seq<int>, n: nat, cols: nat, rows: nat, i: nat)
    requires QueueOk(queue, slots, n, cols, rows) && i < |slots| && slots[i] < 0
    ensures n < |slots|
  {
    hide Index;
    var places := Places(queue, n, cols);
    PlacesSize(queue, slots, n, cols, rows, n);
    var all := Below(|slots|);
    assert i !in places by { InPlaces(queue, n, cols, i); }
    forall p | p in places ensures p in all - {i} { InPlaces(queue, n, cols, p); }
    assert places <= all - {i};
    SmallerSet(places, all - {i});
  }

  ghost function Places(queue: seq<Item>, n: nat, cols: nat): set<nat>
    requires n <= |queue|
  {
    if n == 0 then {} else Places(queue, n - 1, cols) + {PlaceOf(queue, n - 1, cols)}
  }

  lemma InPlaces(queue: seq<Item>, n: nat, cols: nat, p: nat)
    requires n <= |queue|
    ensures p in Places(queue, n, cols) <==> exists k :: 0 <= k < n && PlaceOf(queue, k, cols) == p
  {
    hide PlaceOf;
    if n > 0 {
      InPlaces(queue, n - 1, cols, p);
    }
  }

  lemma {:induction false} PlacesSize(queue: seq<Item>, slots: seq<int>, n: nat, cols: nat, rows: nat, k: nat)
    requires QueueOk(queue, slots, n, cols, rows) && k <= n
    ensures |Places(queue, k, cols)| == k
  {
    hide Index;
    if k > 0 {
      PlacesSize(queue, slots, n, cols, rows, k - 1);
      InPlaces(queue, k - 1, cols, PlaceOf(queue, k - 1, cols));
      assert slots[PlaceOf(queue, k - 1, cols)] == k - 1;
    }
  }

  ghost function Below(n: nat): (s: set<int>)
    ensures |s| == n && forall j :: j in s <==> 0 <= j < n
  {
    if n == 0 then {} else Below(n - 1) + {n - 1}
  }

  lemma SmallerSet(a: set<int>, b: set<int>)
    requires a <= b
    ensures |a| <= |b|
  {
    assert b == a + (b - a);
  }

  // ---------- pixels ----------

  /** The position of a cursor that is on the screen. */
  function Spot(x: nat, y: nat, cols: nat, rows: nat): Option<nat> {
    if x < cols && y < rows then Some(Index(x, y, cols)) else None
  }

  /** Between flushes the pixels show the grid, except that the place the cursor was last drawn may be inverted. */
  ghost predicate Painted(pixels: seq<Look>, grid: seq<Cell>, last: Option<nat>) {
    && |pixels| == |grid|
    && forall j :: 0 <= j < |grid| ==>
         || pixels[j] == LookOf(grid[j])
         || (last == Some(j) && pixels[j] == Inverse(LookOf(grid[j])))
  }

  /** What the loop of a flush does to one position with the first k items: nothing unless it is pending and one of
      them is for it, and then the first of those is drawn, whichever of them the map names. */
  ghost predicate Drawn(queue: seq<Item>, k: nat, cols: nat, j: nat, was: int, before: Cell, look: Look,
                        slot: int, cell: Cell, pixel: Look)
    requires k <= |queue|
  {
    var f := FirstAt(queue, k, cols, j);
    if was < 0 || f == k then slot == was && cell == before && pixel == look
    else slot == -1 && cell == queue[f].c && pixel == LookOf(queue[f].c)
  }

  lemma NoneDrawn(queue: seq<Item>, cols: nat, j: nat, slot: int, cell: Cell, pixel: Look)
    ensures Drawn(queue, 0, cols, j, slot, cell, pixel, slot, cell, pixel)
  {
  }

  lemma DrawnNext(queue: seq<Item>, k: nat, cols: nat, j: nat, was: int, before: Cell, look: Look,
                  slot: int, cell: Cell, pixel: Look)
    requires k < |queue| && Drawn(queue, k, cols, j, was, before, look, slot, cell, pixel)
    ensures if PlaceOf(queue, k, cols) == j && 0 <= slot
            then Drawn(queue, k + 1, cols, j, was, before, look, -1, queue[k].c, LookOf(queue[k].c))
            else Drawn(queue, k + 1, cols, j, was, before, look, slot, cell, pixel)
  {
    hide PlaceOf;
  }

  /** The cell a flush leaves at a position: the pending one under the cursor, and elsewhere, if one is pending,
      that of the first item for the position. */
  ghost function Settled(queue: seq<Item>, n: nat, slots: seq<int>, grid: seq<Cell>, cols: nat, cursor: Option<nat>,
                         j: nat): Cell
    requires n <= |queue| && j < |slots| == |grid| && slots[j] < n
  {
    var f := FirstAt(queue, n, cols, j);
    if cursor == Some(j) then Pending(queue, slots, grid, j)
    else if 0 <= slots[j] && f < n then queue[f].c else grid[j]
  }

  /** And what it leaves on the screen there: the cursor, that cell where it was pending or where the cursor was last
      drawn, and nothing new elsewhere. */
  ghost function Plotted(cell: Cell, pending: bool, cursor: bool, last: bool, pixel: Look): Look {
    if cursor then Inverse(LookOf(cell)) else if pending || last then LookOf(cell) else pixel
  }

  ghost predicate Flushed(queue: seq<Item>, n: nat, slots: seq<int>, grid: seq<Cell>, pixels: seq<Look>, cols: nat,
                          cursor: Option<nat>, last: Option<nat>, slots': seq<int>, grid': seq<Cell>,
                          pixels': seq<Look>)
    requires n <= |queue| && |slots| == |grid| == |pixels| && forall j :: 0 <= j < |slots| ==> slots[j] < n
  {
    && |slots'| == |grid'| == |pixels'| == |slots|
    && forall j :: 0 <= j < |slots| ==>
         && slots'[j] == -1 && grid'[j] == Settled(queue, n, slots, grid, cols, cursor, j)
         && pixels'[j] == Plotted(grid'[j], 0 <= slots[j], cursor == Some(j), last == Some(j), pixels[j])
  }

  /** The three parts of a flush put together: the cursor, the items, and the place the cursor has left. */
  lemma FlushedBy(queue: seq<Item>, n: nat, slots: seq<int>, grid: seq<Cell>, pixels: seq<Look>, cols: nat, rows: nat,
                  cursor: Option<nat>, last: Option<nat>, slots1: seq<int>, grid1: seq<Cell>, pixels1: seq<Look>,
                  slots2: seq<int>, grid2: seq<Cell>, pixels2: seq<Look>)
    requires Mapped(queue, slots, n, cols, rows) && |grid| == |pixels| == |slots|
    requires (cursor.Some? ==> cursor.value < |slots|) && (last.Some? ==> last.value < |slots|)
    requires slots1 == if cursor.Some? then slots[cursor.value := -1] else slots
    requires grid1 == if cursor.Some? then grid[cursor.value := Pending(queue, slots, grid, cursor.value)] else grid
    requires pixels1 == if cursor.Some? then pixels[cursor.value := Inverse(LookOf(grid1[cursor.value]))] else pixels
    requires |slots2| == |grid2| == |pixels2| == |slots|
    requires forall j :: 0 <= j < |slots| ==>
               Drawn(queue, n, cols, j, slots1[j], grid1[j], pixels1[j], slots2[j], grid2[j], pixels2[j])
    ensures Flushed(queue, n, slots, grid, pixels, cols, cursor, last, slots2, grid2,
                    if last.Some? && last != cursor then pixels2[last.value := LookOf(grid2[last.value])] else pixels2)
  {
    hide PlaceOf;
  }

  /** A flush leaves nothing queued. If the map named every item, the first item for a position is its only one, so
      the flush keeps the plain screen; pixels in step with the grid stay so. */
  lemma FlushShows(queue: seq<Item>, n: nat, slots: seq<int>, grid: seq<Cell>, pixels: seq<Look>, cols: nat, rows: nat,
                   cursor: Option<nat>, last: Option<nat>, slots': seq<int>, grid': seq<Cell>, pixels': seq<Look>)
    requires Mapped(queue, slots, n, cols, rows) && |grid| == |pixels| == |slots|
    requires Flushed(queue, n, slots, grid, pixels, cols, cursor, last, slots', grid', pixels')
    ensures QueueOk(queue, slots', 0, cols, rows)
    ensures Agree(queue, slots, n, cols) ==> ScreenOf(queue, slots', grid') == ScreenOf(queue, slots, grid)
    ensures Painted(pixels, grid, last) ==>
              Painted(pixels', grid', cursor) && pixels' == Redraw(ScreenOf(queue, slots', grid'), cursor)
  {
    hide PlaceOf;
    hide Painted;
    hide Redraw;
    forall j | 0 <= j < |slots| && Agree(queue, slots, n, cols)
      ensures Settled(queue, n, slots, grid, cols, cursor, j) == Pending(queue, slots, grid, j)
    {
      if 0 <= slots[j] { FirstIsOnly(queue, n, slots, cols, rows, j); }
    }
    if Painted(pixels, grid, last) {
      PaintedStays(queue, n, slots, grid, pixels, cols, cursor, last, slots', grid', pixels');
    }
  }

  lemma FirstIsOnly(queue: seq<Item>, n: nat, slots: seq<int>, cols: nat, rows: nat, j: nat)
    requires QueueOk(queue, slots, n, cols, rows) && j < |slots| && 0 <= slots[j]
    ensures FirstAt(queue, n, cols, j) == slots[j]
  {
    hide PlaceOf;
    assert PlaceOf(queue, slots[j], cols) == j;
  }

  lemma PaintedStays(queue: seq<Item>, n: nat, slots: seq<int>, grid: seq<Cell>, pixels: seq<Look>, cols: nat,
                     cursor: Option<nat>, last: Option<nat>, slots': seq<int>, grid': seq<Cell>, pixels': seq<Look>)
    requires n <= |queue| && |slots| == |grid| == |pixels| && forall j :: 0 <= j < |slots| ==> slots[j] < n
    requires Flushed(queue, n, slots, grid, pixels, cols, cursor, last, slots', grid', pixels')
    requires Painted(pixels, grid, last)
    ensures Painted(pixels', grid', cursor) && pixels' == Redraw(ScreenOf(queue, slots', grid'), cursor)
  {
    hide PlaceOf;
    hide FirstAt;
  }

  class Terminal {
    const cols: nat
    const rows: nat
    const grid: array<Cell>
    const queue: array<Item>
    const slots: array<int>
    const pixels: array<Look>

    var queued: nat
    var pen: Cell
    var cursorX: nat
    var cursorY: nat
    var oldX: nat
    var oldY: nat
    var cursorEnabled: bool
    var wrapEnabled: bool
    var scrollEnabled: bool
    var top: nat
    var bottom: nat
    var savedPen: Cell
    var savedX: nat
    var savedY: nat

    ghost predicate Shape()
      reads this`top, this`bottom
    {
      && 0 < cols && 0 < rows && top < bottom <= rows
      && grid.Length == queue.Length == slots.Length == pixels.Length == rows * cols
      && grid as object != queue && grid as object != slots && grid as object != pixels
      && queue as object != slots && queue as object != pixels && slots as object != pixels
    }

    /** What a refresh keeps: an item may be left in the queue that the map does not name. */
    ghost predicate Loose()
      reads this`top, this`bottom, this`queued, queue, slots
    {
      Shape() && Mapped(queue[..], slots[..], queued, cols, rows)
    }

    ghost predicate Valid()
      reads this`top, this`bottom, this`queued, queue, slots
      ensures Valid() ==> Loose()
    {
      Loose() && Agree(queue[..], slots[..], queued, cols)
    }

    /** The plain screen this state stands for. */
    ghost function Screen(): (s: seq<Look>)
      requires Loose()
      reads this`top, this`bottom, this`queued, grid, queue, slots
      ensures |s| == rows * cols
    {
      ScreenOf(queue[..], slots[..], grid[..])
    }

    /** The cursor may stand one past the last column, and nowhere else outside the screen. */
    ghost predicate CursorOk()
      reads this`cursorX, this`cursorY
    {
      cursorX <= cols && cursorY < rows
    }

    ghost predicate PixelsOk()
      reads this`oldX, this`oldY, grid, pixels
    {
      Painted(pixels[..], grid[..], Spot(oldX, oldY, cols, rows))
    }

    /** Where the cursor shows. */
    ghost function Cursor(): Option<nat>
      reads this`cursorEnabled, this`cursorX, this`cursorY
    {
      if cursorEnabled then Spot(cursorX, cursorY, cols, rows) else None
    }

    ghost predicate SavedOk()
      reads this`savedX, this`savedY
    {
      savedX <= cols && savedY < rows
    }

    /** What holds between any two calls. */
    ghost predicate Ok()
      reads this, grid, queue, slots, pixels
    {
      Valid() && CursorOk() && SavedOk() && PixelsOk()
    }

    /** A terminal as the context initialiser leaves it before its first refresh. */
    constructor (cols: nat, rows: nat, blank: Cell)
      requires 0 < cols && 0 < rows
      ensures Valid() && SavedOk() && this.cols == cols && this.rows == rows && pen == blank.(c := 32)
      ensures queued == 0 && cursorX == 0 && cursorY == 0 && oldX == 0 && oldY == 0
      ensures cursorEnabled && wrapEnabled && scrollEnabled && top == 0 && bottom == rows
      ensures Screen() == seq(rows * cols, i => LookOf(blank.(c := 32)))
      ensures fresh(grid) && fresh(queue) && fresh(slots) && fresh(pixels)
    {
      this.cols, this.rows := cols, rows;
      pen := blank.(c := 32);
      queued, cursorX, cursorY, oldX, oldY := 0, 0, 0, 0, 0;
      savedPen, savedX, savedY := blank, 0, 0;
      cursorEnabled, wrapEnabled, scrollEnabled, top, bottom := true, true, true, 0, rows;
      var n := rows * cols;
      grid := new Cell[n](_ => blank.(c := 32));
      queue := new Item[n](_ => Item(0, 0, blank));
      slots := new int[n](_ => -1);
      pixels := new Look[n](_ => LookOf(blank));
    }

    /** A cell to be drawn there needs a new item, and there is none left. */
    ghost predicate NoRoom(x: nat, y: nat)
      requires Loose() && x < cols && y < rows
      reads this`top, this`bottom, this`queued, queue, slots
    {
      IndexBound(x, y, cols, rows);
      slots[Index(x, y, cols)] < 0 && queued == rows * cols
    }

    /** push_to_queue: one cell of the plain screen is replaced. While the map names every item nothing is lost to a
        full queue; after a refresh the cell is lost exactly if it needs a new item and the queue is full. */
    method Push(c: Cell, x: nat, y: nat)
      requires Loose()
      modifies queue, slots, this`queued
      ensures Loose() && (old(Valid()) ==> Valid())
      ensures Screen() == if x < cols && y < rows && !old(NoRoom(x, y))
                          then Put(old(Screen()), Index(x, y, cols), LookOf(c)) else old(Screen())
      ensures old(Valid()) && x < cols && y < rows ==> !old(NoRoom(x, y))
      ensures x < cols && y < rows ==>
                Queued(old(queue[..]), old(slots[..]), grid[..], old(queued), cols, Item(x, y, c),
                       queue[..], slots[..], queued)
    {
      hide ScreenOf;
      hide PlaceOf;
      hide Agree;
      if x >= cols || y >= rows {
        return;
      }
      IndexBound(x, y, cols, rows);
      var i := y * cols + x;
      var q := slots[i];
      if q < 0 {
        if !Compare(grid[i], c) && queued != rows * cols {
          q := queued;
          queue[q] := Item(x, y, c);
          slots[i] := q;
          queued := queued + 1;
        }
      } else {
        queue[q] := queue[q].(c := c);
      }
      QueuedShows(old(queue[..]), old(slots[..]), grid[..], old(queued), cols, rows, Item(x, y, c),
                  queue[..], slots[..], queued);
    }

    /** The pending cell at i if there is one, and the cell of the grid otherwise. */
    method Fetch(i: nat) returns (c: Cell)
      requires Valid() && i < rows * cols
      ensures LookOf(c) == Screen()[i]
    {
      var q := slots[i];
      c := if 0 <= q then queue[q].c else grid[i];
      assert c == Pending(queue[..], slots[..], grid[..], i);
    }

    /** The cell at one position copied to another, as the loops over the whole screen do it. */
    method CopyCell(to: nat, from: nat)
      requires Valid() && to < rows * cols && from < rows * cols
      modifies queue, slots, this`queued
      ensures Valid() && Screen() == Put(old(Screen()), to, old(Screen())[from])
    {
      hide Mapped;
      hide Agree;
      hide ScreenOf;
      var c := Fetch(from);
      IndexSplit(to, cols, rows);
      Push(c, to % cols, to / cols);
    }

    method MoveCharacter(newX: nat, newY: nat, fromX: nat, fromY: nat)
      requires Valid()
      modifies queue, slots, this`queued
      ensures Valid()
      ensures Screen() ==
              if fromX < cols && fromY < rows && newX < cols && newY < rows
              then (IndexBound(fromX, fromY, cols, rows);
                    Put(old(Screen()), Index(newX, newY, cols), old(Screen())[Index(fromX, fromY, cols)]))
              else old(Screen())
    {
      hide Mapped;
      hide Agree;
      hide ScreenOf;
      if fromX >= cols || fromY >= rows || newX >= cols || newY >= rows {
        return;
      }
      IndexBound(fromX, fromY, cols, rows);
      var c := Fetch(fromX + fromY * cols);
      Push(c, newX, newY);
    }

    /** A row of blanks. */
    method BlankRow(y: nat)
      requires Valid() && y < rows
      modifies queue, slots, this`queued
      ensures Valid()
      ensures Screen() == Blanked(old(Screen()), y * cols, (y + 1) * cols, LookOf(pen.(c := 32)))
    {
      hide Mapped;
      hide Agree;
      hide ScreenOf;
      hide Screen;
      ghost var was := Screen();
      var i := 0;
      IndexBound(cols - 1, y, cols, rows);
      while i < cols
        invariant i <= cols && Valid()
        invariant Screen() == Blanked(was, y * cols, y * cols + i, LookOf(pen.(c := 32)))
      {
        IndexBound(i, y, cols, rows);
        Push(pen.(c := 32), i, y);
        i := i + 1;
      }
    }

    /** scroll: the rows between the margins go up by one. */
    method Scroll()
      requires Valid()
      modifies queue, slots, this`queued
      ensures Valid()
      ensures Screen() == ScrolledUp(old(Screen()), cols, top, bottom, LookOf(pen.(c := 32)))
    {
      hide Mapped;
      hide Agree;
      hide ScreenOf;
      hide Screen;
      hide Blanked;
      hide ScrolledUp;
      hide ShiftUp;
      ghost var was := Screen();
      Room(cols, rows, top, bottom);
      ScrollIsShift(was, cols, rows, top, bottom, LookOf(pen.(c := 32)));
      var i := (top + 1) * cols;
      ShiftUpNone(was, cols, top * cols, i - cols);
      while i < bottom * cols
        invariant (top + 1) * cols <= i <= bottom * cols && Valid()
        invariant Screen() == ShiftUp(was, cols, top * cols, i - cols)
      {
        ShiftUpMore(was, cols, top * cols, i);
        CopyCell(i - cols, i);
        i := i + 1;
      }
      BlankRow(bottom - 1);
    }

    /** revscroll: the rows between the margins go down by one. */
    method RevScroll()
      requires Valid()
      modifies queue, slots, this`queued
      ensures Valid()
      ensures Screen() == ScrolledDown(old(Screen()), cols, top, bottom, LookOf(pen.(c := 32)))
    {
      hide Mapped;
      hide Agree;
      hide ScreenOf;
      hide Screen;
      hide Blanked;
      hide ScrolledDown;
      hide ShiftDown;
      ghost var was := Screen();
      Room(cols, rows, top, bottom);
      ScrollIsShift(was, cols, rows, top, bottom, LookOf(pen.(c := 32)));
      var start := top * cols;
      var i := (bottom - 1) * cols;
      ShiftDownNone(was, cols, i + cols, bottom * cols);
      while i > start
        invariant start <= i <= (bottom - 1) * cols && Valid()
        invariant Screen() == ShiftDown(was, cols, i + cols, bottom * cols)
      {
        i := i - 1;
        ShiftDownMore(was, cols, i, bottom * cols);
        CopyCell(i + cols, i);
      }
      BlankRow(top);
    }

    method Clear(move: bool)
      requires Valid()
      modifies queue, slots, this`queued, this`cursorX, this`cursorY
      ensures Valid()
      ensures Screen() == Blanked(old(Screen()), 0, rows * cols, LookOf(pen.(c := 32)))
      ensures if move then cursorX == 0 && cursorY == 0 else cursorX == old(cursorX) && cursorY == old(cursorY)
    {
      hide Mapped;
      hide Agree;
      hide ScreenOf;
      ghost var was := Screen();
      var i := 0;
      while i < rows * cols
        invariant i <= rows * cols && Valid() && cursorX == old(cursorX) && cursorY == old(cursorY)
        invariant Screen() == Blanked(was, 0, i, LookOf(pen.(c := 32)))
      {
        IndexSplit(i, cols, rows);
        Push(pen.(c := 32), i % cols, i / cols);
        i := i + 1;
      }
      if move {
        cursorX, cursorY := 0, 0;
      }
    }

    /** set_cursor_pos: any pair of 64-bit values lands on the screen; one that went below zero counts as zero. */
    method SetCursorPos(x: nat, y: nat)
      requires Valid() && x < U64 && y < U64
      modifies this`cursorX, this`cursorY
      ensures Valid() && Screen() == old(Screen())
      ensures cursorX < cols && cursorY < rows
      ensures x < cols ==> cursorX == x
      ensures y < rows ==> cursorY == y
      ensures cols <= x ==> cursorX == if x < U64 / 2 then cols - 1 else 0
      ensures rows <= y ==> cursorY == if y < U64 / 2 then rows - 1 else 0
    {
      cursorX := if x < cols then x else if x > (U64 - 1) / 2 then 0 else cols - 1;
      cursorY := if y < rows then y else if y > (U64 - 1) / 2 then 0 else rows - 1;
    }

    method GetCursorPos() returns (x: nat, y: nat)
      requires Valid()
      ensures x < cols && y < rows
      ensures x == cursorX || (x == cols - 1 && cols <= cursorX)
      ensures y == cursorY || (y == rows - 1 && rows <= cursorY)
    {
      x := if cursorX >= cols then cols - 1 else cursorX;
      y := if cursorY >= rows then rows - 1 else cursorY;
    }

    /** raw_putchar: wrap or stay, scroll if the wrap leaves the bottom margin, write, step right. */
    method RawPutChar(ch: nat)
      requires Valid() && CursorOk()
      modifies queue, slots, this`queued, this`cursorX, this`cursorY
      ensures Valid() && CursorOk() && 0 < cursorX
      ensures var wraps := old(cursorX) == cols && wrapEnabled && (old(cursorY) < bottom - 1 || scrollEnabled);
              var scrolls := wraps && old(cursorY) == bottom - 1;
              var base := if scrolls
                          then ScrolledUp(old(Screen()), cols, top, bottom, LookOf(pen.(c := 32))) else old(Screen());
              && cursorX - 1 == (if old(cursorX) < cols then old(cursorX) else if wraps then 0 else cols - 1)
              && cursorY == (if wraps && !scrolls && old(cursorY) < rows - 1 then old(cursorY) + 1 else old(cursorY))
              && Screen() == Put(base, Index(cursorX - 1, cursorY, cols), LookOf(pen.(c := ch)))
    {
      hide Mapped;
      hide Agree;
      hide ScreenOf;
      hide ScrolledUp;
      hide Index;
      if cursorX >= cols {
        if wrapEnabled && (cursorY < bottom - 1 || scrollEnabled) {
          cursorX := 0;
          cursorY := cursorY + 1;
          if cursorY == bottom {
            cursorY := cursorY - 1;
            Scroll();
          }
          if cursorY >= rows {
            cursorY := rows - 1;
          }
        } else {
          cursorX := cols - 1;
        }
      }
      Push(pen.(c := ch), cursorX, cursorY);
      cursorX := cursorX + 1;
    }

    /** save_state and restore_state of the back end, and swap_palette. */
    method SaveState()
      modifies this`savedPen, this`savedX, this`savedY
      ensures savedPen == pen && savedX == cursorX && savedY == cursorY
    {
      savedPen, savedX, savedY := pen, cursorX, cursorY;
    }

    method RestoreState()
      modifies this`pen, this`cursorX, this`cursorY
      ensures pen == savedPen && cursorX == savedX && cursorY == savedY
    {
      pen, cursorX, cursorY := savedPen, savedX, savedY;
    }

    method SwapPalette()
      modifies this`pen
      ensures pen == Swapped(old(pen))
    {
      pen := Swapped(pen);
    }

    /** One of the eight normal or bright colours, for text or background. */
    method SetColour(fg: bool, colour: nat, bright: bool)
      requires colour < 8
      modifies this`pen
      ensures pen == if fg then old(pen).(fg := Ansi(colour, bright), fgDefault := false)
                     else old(pen).(bg := Ansi(colour, bright), bgDefault := false)
    {
      var v := Ansi(colour, bright);
      pen := if fg then pen.(fg := v, fgDefault := false) else pen.(bg := v, bgDefault := false);
    }

    method SetRgb(fg: bool, rgb: nat)
      modifies this`pen
      ensures pen == if fg then old(pen).(fg := 16 + rgb, fgDefault := false)
                     else old(pen).(bg := 16 + rgb, bgDefault := false)
    {
      pen := if fg then pen.(fg := 16 + rgb, fgDefault := false) else pen.(bg := 16 + rgb, bgDefault := false);
    }

    /** The default colours: the normal background is the one that shows through. */
    method SetDefault(fg: bool, bright: bool)
      modifies this`pen
      ensures pen == if fg then old(pen).(fg := DefaultColour(bright), fgDefault := false)
                     else if bright then old(pen).(bg := DefaultColour(bright), bgDefault := false)
                     else old(pen).(bgDefault := true)
    {
      pen := if fg then pen.(fg := DefaultColour(bright), fgDefault := false)
             else if bright then pen.(bg := DefaultColour(bright), bgDefault := false)
             else pen.(bgDefault := true);
    }

    /** draw_cursor: the cell under the cursor inverted, and settled if it was pending. */
    method DrawCursor()
      requires Loose()
      modifies grid, slots, pixels
      ensures match Spot(cursorX, cursorY, cols, rows)
              case None => grid[..] == old(grid[..]) && slots[..] == old(slots[..]) && pixels[..] == old(pixels[..])
              case Some(i) =>
                && i < rows * cols
                && grid[..] == old(grid[..])[i := old(Pending(queue[..], slots[..], grid[..], i))]
                && slots[..] == old(slots[..])[i := -1]
                && pixels[..] == old(pixels[..])[i := Inverse(LookOf(grid[i]))]
    {
      if cursorX >= cols || cursorY >= rows {
        return;
      }
      IndexBound(cursorX, cursorY, cols, rows);
      var i := cursorX + cursorY * cols;
      var q := slots[i];
      var c := if 0 <= q then queue[q].c else grid[i];
      pixels[i] := LookOf(Swapped(c));
      if 0 <= q {
        grid[i] := queue[q].c;
        slots[i] := -1;
      }
    }

    /** double_buffer_flush: nothing is left queued. Of several items for one position the first is drawn, and under
        the cursor the one the map names. While the map names every item and the pixels are in step, that makes them a
        full redraw of the plain screen with the cursor. */
    method Flush()
      requires Loose()
      modifies grid, slots, pixels, this`oldX, this`oldY, this`queued
      ensures Valid() && queued == 0
      ensures Flushed(queue[..], old(queued), old(slots[..]), old(grid[..]), old(pixels[..]), cols, Cursor(),
                      old(Spot(oldX, oldY, cols, rows)), slots[..], grid[..], pixels[..])
      ensures old(Valid()) ==> Screen() == old(Screen())
      ensures old(PixelsOk()) ==> PixelsOk() && pixels[..] == Redraw(Screen(), Cursor())
    {
      hide Agree;
      hide ScreenOf;
      hide Flushed;
      hide Index;
      hide Redraw;
      hide Painted;
      hide Drawn;
      ghost var last := Spot(oldX, oldY, cols, rows);
      SpotBound(cursorX, cursorY, cols, rows);
      SpotBound(oldX, oldY, cols, rows);
      if cursorEnabled {
        DrawCursor();
      }
      ghost var slots1, grid1, pixels1 := slots[..], grid[..], pixels[..];
      PlotItems();
      ghost var slots2, grid2, pixels2 := slots[..], grid[..], pixels[..];
      RepaintOld();
      FlushedBy(queue[..], queued, old(slots[..]), old(grid[..]), old(pixels[..]), cols, rows, Cursor(), last,
                slots1, grid1, pixels1, slots2, grid2, pixels2);
      FlushShows(queue[..], queued, old(slots[..]), old(grid[..]), old(pixels[..]), cols, rows, Cursor(), last,
                 slots[..], grid[..], pixels[..]);
      oldX, oldY, queued := cursorX, cursorY, 0;
      if old(PixelsOk()) { PaintedWeaker(pixels[..], grid[..], Cursor(), Spot(oldX, oldY, cols, rows)); }
    }

    /** The loop of a flush. An item whose position is not pending any more is passed over. */
    method PlotItems()
      requires Shape() && Mapped(queue[..], slots[..], queued, cols, rows)
      modifies grid, slots, pixels
      ensures forall j :: 0 <= j < rows * cols ==>
                Drawn(queue[..], queued, cols, j, old(slots[j]), old(grid[j]), old(pixels[j]), slots[j], grid[j],
                      pixels[j])
    {
      hide Drawn;
      hide Index;
      hide FirstAt;
      var k := 0;
      forall j | 0 <= j < rows * cols
        ensures Drawn(queue[..], 0, cols, j, slots[j], grid[j], pixels[j], slots[j], grid[j], pixels[j])
      {
        NoneDrawn(queue[..], cols, j, slots[j], grid[j], pixels[j]);
      }
      while k < queued
        invariant k <= queued
        invariant forall j :: 0 <= j < rows * cols ==>
                    Drawn(queue[..], k, cols, j, old(slots[j]), old(grid[j]), old(pixels[j]), slots[j], grid[j],
                          pixels[j])
      {
        var q := queue[k];
        assert PlaceOf(queue[..], k, cols) < slots.Length;
        var offset := Index(q.x, q.y, cols);
        forall j | 0 <= j < rows * cols
          ensures if offset == j && 0 <= slots[j]
                  then Drawn(queue[..], k + 1, cols, j, old(slots[j]), old(grid[j]), old(pixels[j]), -1, q.c,
                             LookOf(q.c))
                  else Drawn(queue[..], k + 1, cols, j, old(slots[j]), old(grid[j]), old(pixels[j]), slots[j], grid[j],
                             pixels[j])
        {
          DrawnNext(queue[..], k, cols, j, old(slots[j]), old(grid[j]), old(pixels[j]), slots[j], grid[j], pixels[j]);
        }
        k := k + 1;
        if slots[offset] < 0 {
          continue;
        }
        pixels[offset] := LookOf(q.c);
        grid[offset] := q.c;
        slots[offset] := -1;
      }
    }

    /** And last a flush repaints the cell the cursor was drawn on, if it has left it or is hidden. */
    method RepaintOld()
      requires Shape()
      modifies pixels
      ensures var last := Spot(oldX, oldY, cols, rows);
              && (last.Some? ==> last.value < rows * cols)
              && pixels[..] == if last.Some? && last != Cursor()
                               then old(pixels[..])[last.value := LookOf(grid[last.value])] else old(pixels[..])
    {
      SpotBound(oldX, oldY, cols, rows);
      if Spot(oldX, oldY, cols, rows).Some? { SameSpot(oldX, oldY, cursorX, cursorY, cols, rows); }
      if oldX != cursorX || oldY != cursorY || cursorEnabled == false {
        if oldX < cols && oldY < rows {
          var o := Index(oldX, oldY, cols);
          pixels[o] := LookOf(grid[o]);
        }
      }
    }

    method PlotGrid()
      requires Shape()
      modifies pixels
      ensures pixels[..] == GridLooks(grid[..])
    {
      var i := 0;
      while i < rows * cols
        invariant i <= rows * cols
        invariant forall j :: 0 <= j < i ==> pixels[j] == LookOf(grid[j])
      {
        pixels[i] := LookOf(grid[i]);
        i := i + 1;
      }
    }

    /** A cell is queued where the cursor is drawn. */
    ghost predicate QueuedUnderCursor()
      requires Loose()
      reads this, queue, slots
    {
      SpotBound(cursorX, cursorY, cols, rows);
      Cursor().Some? && 0 <= slots[Cursor().value]
    }

    /** full_refresh: the pixels show the grid, not the queue, and the cursor. With nothing queued that is a full
        redraw. Drawing the cursor settles a cell queued under it but leaves the item in the queue, so the queue and
        the map agree afterwards exactly if there was none. The next flush repairs the pixels only where the cursor
        was last drawn, so they stay in step exactly if that is where it is now. Push and Flush ask no more than a
        refresh keeps; Overtaken says what they do about an item left behind. */
    method FullRefresh()
      requires Loose()
      modifies grid, slots, pixels
      ensures Loose() && Screen() == old(Screen())
      ensures Valid() <==> old(Valid()) && !old(QueuedUnderCursor())
      ensures old(QueuedUnderCursor()) ==>
                var i := Cursor().value;
                i < rows * cols && slots[i] < 0 && FirstAt(queue[..], queued, cols, i) < queued
      ensures pixels[..] == Refreshed(old(grid[..]), old(Screen()), Cursor())
      ensures queued == 0 ==> Valid() && pixels[..] == Redraw(Screen(), Cursor())
      ensures PixelsOk() <==>
              || Cursor().None? || Cursor() == Spot(oldX, oldY, cols, rows)
              || (Cursor().value < |old(Screen())| && Inverse(old(Screen())[Cursor().value])
                  == old(Screen())[Cursor().value])
    {
      hide Mapped;
      hide Agree;
      hide ScreenOf;
      hide Painted;
      ghost var goal := Screen();
      PlotGrid();
      SpotBound(cursorX, cursorY, cols, rows);
      ghost var g, s := grid[..], slots[..];
      hide GridLooks;
      hide Refreshed;
      if cursorEnabled {
        DrawCursor();
      }
      RefreshedIs(g, goal, Cursor());
      RefreshQueue(queue[..], s, slots[..], g, grid[..], queued, cols, rows, Cursor());
      RefreshLeft(pixels[..], g, grid[..], goal, Cursor(), Spot(oldX, oldY, cols, rows));
      if queued == 0 {
        NothingQueued(queue[..], s, g, cols, rows);
        RedrawIs(g, goal, Cursor());
      }
    }
  }

  ghost function GridLooks(grid: seq<Cell>): (r: seq<Look>)
    ensures |r| == |grid|
  {
    seq(|grid|, j requires 0 <= j < |grid| => LookOf(grid[j]))
  }

  lemma RefreshedIs(grid: seq<Cell>, screen: seq<Look>, cursor: Option<nat>)
    requires |grid| == |screen| && (cursor.Some? ==> cursor.value < |grid|)
    ensures Refreshed(grid, screen, cursor) ==
            if cursor.Some? then GridLooks(grid)[cursor.value := Inverse(screen[cursor.value])] else GridLooks(grid)
  {
  }

  ghost function Refreshed(grid: seq<Cell>, screen: seq<Look>, cursor: Option<nat>): seq<Look>
    requires |grid| == |screen|
  {
    seq(|grid|, j requires 0 <= j < |grid| => if cursor == Some(j) then Inverse(screen[j]) else LookOf(grid[j]))
  }

  lemma RedrawIs(grid: seq<Cell>, screen: seq<Look>, cursor: Option<nat>)
    requires |grid| == |screen| && forall j :: 0 <= j < |grid| ==> screen[j] == LookOf(grid[j])
    ensures Refreshed(grid, screen, cursor) == Redraw(screen, cursor)
  {
  }

  /** Settling the cell under the cursor keeps the plain screen, and the queue in order exactly if it was not queued. */
  lemma RefreshQueue(queue: seq<Item>, slots: seq<int>, slots': seq<int>, grid: seq<Cell>, grid': seq<Cell>,
                     n: nat, cols: nat, rows: nat, cursor: Option<nat>)
    requires Mapped(queue, slots, n, cols, rows)
    requires |grid| == |slots| && (cursor.Some? ==> cursor.value < |slots|)
    requires slots' == if cursor.Some? then slots[cursor.value := -1] else slots
    requires grid' == if cursor.Some? then grid[cursor.value := Pending(queue, slots, grid, cursor.value)] else grid
    ensures Mapped(queue, slots', n, cols, rows)
    ensures Agree(queue, slots', n, cols) <==>
            Agree(queue, slots, n, cols) && (cursor.None? || slots[cursor.value] < 0)
    ensures cursor.Some? && 0 <= slots[cursor.value] ==> FirstAt(queue, n, cols, cursor.value) < n
    ensures ScreenOf(queue, slots', grid') == ScreenOf(queue, slots, grid)
    ensures cursor.Some? ==> ScreenOf(queue, slots, grid)[cursor.value] == LookOf(grid'[cursor.value])
  {
    if cursor.Some? && 0 <= slots[cursor.value] {
      var k := slots[cursor.value];
      assert PlaceOf(queue, k, cols) == cursor.value && slots'[PlaceOf(queue, k, cols)] != k;
    } else {
      assert slots' == slots;
    }
  }

  lemma PaintedWeaker(pixels: seq<Look>, grid: seq<Cell>, a: Option<nat>, b: Option<nat>)
    requires Painted(pixels, grid, a) && (a.None? || a == b)
    ensures Painted(pixels, grid, b)
  {
  }

  lemma NothingQueued(queue: seq<Item>, slots: seq<int>, grid: seq<Cell>, cols: nat, rows: nat)
    requires Mapped(queue, slots, 0, cols, rows) && |grid| == |slots|
    ensures Agree(queue, slots, 0, cols)
    ensures forall j :: 0 <= j < |slots| ==> slots[j] == -1 && ScreenOf(queue, slots, grid)[j] == LookOf(grid[j])
  {
  }

  lemma RefreshLeft(pixels: seq<Look>, was: seq<Cell>, grid: seq<Cell>, goal: seq<Look>, cursor: Option<nat>,
                    last: Option<nat>)
    requires |was| == |grid| == |goal| && (cursor.Some? ==>
                                           cursor.value < |grid| && goal[cursor.value] == LookOf(grid[cursor.value]))
    requires forall j :: 0 <= j < |grid| && cursor != Some(j) ==> grid[j] == was[j]
    requires pixels == Refreshed(was, goal, cursor)
    ensures Painted(pixels, grid, last) <==>
            cursor.None? || cursor == last || Inverse(goal[cursor.value]) == goal[cursor.value]
  {
    if cursor.Some? && cursor != last && Inverse(goal[cursor.value]) != goal[cursor.value] {
      assert pixels[cursor.value] != LookOf(grid[cursor.value]);
    }
  }

  lemma SpotBound(x: nat, y: nat, cols: nat, rows: nat)
    ensures Spot(x, y, cols, rows).None? || Spot(x, y, cols, rows).value < rows * cols
  {
    if x < cols && y < rows { IndexBound(x, y, cols, rows); }
  }

  lemma SameSpot(x: nat, y: nat, x': nat, y': nat, cols: nat, rows: nat)
    requires Spot(x, y, cols, rows).Some?
    ensures Spot(x, y, cols, rows) == Spot(x', y', cols, rows) <==> x == x' && y == y'
  {
    if Spot(x, y, cols, rows) == Spot(x', y', cols, rows) { IndexInjective(x, y, x', y', cols); }
  }

  /** The margins' rows lie within the screen. */
  lemma Room(cols: nat, rows: nat, top: nat, bottom: nat)
    requires top < bottom <= rows
    ensures (top + 1) * cols == top * cols + cols <= bottom * cols <= rows * cols
    ensures (bottom - 1) * cols == bottom * cols - cols
  {
    assert (bottom - 1) * cols + cols == bottom * cols;
    assert top * cols <= (bottom - 1) * cols;
  }

  ghost function ScreenOf(queue: seq<Item>, slots: seq<int>, grid: seq<Cell>): (s: seq<Look>)
    requires |slots| == |grid| && forall i :: 0 <= i < |slots| ==> slots[i] < |queue|
    ensures |s| == |grid|
  {
    seq(|grid|, i requires 0 <= i < |grid| => LookOf(Pending(queue, slots, grid, i)))
  }

  ghost function Put(s: seq<Look>, i: nat, l: Look): seq<Look> {
    if i < |s| then s[i := l] else s
  }

  /** Pushing an item: the one the map names for its position takes the cell; failing that, unless the grid shows it
      already or the queue is full, a new one does. */
  ghost predicate Queued(queue: seq<Item>, slots: seq<int>, grid: seq<Cell>, n: nat, cols: nat, item: Item,
                         queue': seq<Item>, slots': seq<int>, n': nat) {
    var i := Index(item.x, item.y, cols);
    && i < |slots| == |grid| == |queue| && slots[i] < |queue| && n <= |queue|
    && if 0 <= slots[i] then
         queue' == queue[slots[i] := queue[slots[i]].(c := item.c)] && slots' == slots && n' == n
       else if LookOf(grid[i]) == LookOf(item.c) || n == |queue| then
         queue' == queue && slots' == slots && n' == n
       else
         queue' == queue[n := item] && slots' == slots[i := n] && n' == n + 1
  }

  /** Whichever it does, the map still names items for the right positions, still every one if it did before, and one
      cell of the plain screen is replaced unless there is no room for it. */
  lemma QueuedShows(queue: seq<Item>, slots: seq<int>, grid: seq<Cell>, n: nat, cols: nat, rows: nat, item: Item,
                    queue': seq<Item>, slots': seq<int>, n': nat)
    requires Mapped(queue, slots, n, cols, rows) && item.x < cols && item.y < rows
    requires Queued(queue, slots, grid, n, cols, item, queue', slots', n')
    ensures Mapped(queue', slots', n', cols, rows) && (Agree(queue, slots, n, cols) ==> Agree(queue', slots', n', cols))
    ensures var i := Index(item.x, item.y, cols);
            ScreenOf(queue', slots', grid) ==
            if slots[i] < 0 && n == rows * cols then ScreenOf(queue, slots, grid)
            else Put(ScreenOf(queue, slots, grid), i, LookOf(item.c))
    ensures Agree(queue, slots, n, cols) ==> 0 <= slots[Index(item.x, item.y, cols)] || n < rows * cols
  {
    hide Index;
    hide PlaceOf;
    var i := Index(item.x, item.y, cols);
    if 0 <= slots[i] {
      Repushed(queue, slots, grid, n, cols, rows, i, item.c);
    } else {
      if Agree(queue, slots, n, cols) { RoomLeft(queue, slots, n, cols, rows, i); }
      if n < |queue| && LookOf(grid[i]) != LookOf(item.c) { Pushed(queue, slots, grid, n, cols, rows, item); }
    }
  }

  /** A new item keeps what the map names, and leaves other items unnamed only if it finds one for its position. */
  lemma Pushed(queue: seq<Item>, slots: seq<int>, grid: seq<Cell>, n: nat, cols: nat, rows: nat, item: Item)
    requires Mapped(queue, slots, n, cols, rows) && |grid| == |slots| && n < |queue|
    requires item.x < cols && item.y < rows
    requires var i := Index(item.x, item.y, cols); i < |slots| && slots[i] < 0
    ensures var i := Index(item.x, item.y, cols);
            var queue', slots' := queue[n := item], slots[i := n];
            && Mapped(queue', slots', n + 1, cols, rows)
            && (Agree(queue, slots, n, cols) ==> Agree(queue', slots', n + 1, cols))
            && ScreenOf(queue', slots', grid) == Put(ScreenOf(queue, slots, grid), i, LookOf(item.c))
  {
    hide Index;
    var i := Index(item.x, item.y, cols);
    var queue', slots' := queue[n := item], slots[i := n];
    forall k | 0 <= k < n ensures PlaceOf(queue', k, cols) == PlaceOf(queue, k, cols) {}
    forall j | 0 <= j < |slots'| ensures -1 <= slots'[j] < n + 1
      && (0 <= slots'[j] ==> PlaceOf(queue', slots'[j], cols) == j) {
      if j != i && 0 <= slots[j] { assert PlaceOf(queue', slots[j], cols) == PlaceOf(queue, slots[j], cols); }
    }
  }

  /** After a refresh an item may be left that the map does not name. A push for its position then adds a second one,
      which is the pending cell; but the next flush draws the first and passes the second over, unless the cursor is
      drawn there. */
  lemma Overtaken(queue: seq<Item>, slots: seq<int>, grid: seq<Cell>, n: nat, cols: nat, rows: nat, item: Item, i: nat,
                  cursor: Option<nat>)
    requires Mapped(queue, slots, n, cols, rows) && |grid| == |slots| && n < |queue|
    requires item.x < cols && item.y < rows && i == Index(item.x, item.y, cols) < |slots| && slots[i] < 0
    requires FirstAt(queue, n, cols, i) < n
    ensures var queue', slots' := queue[n := item], slots[i := n];
            && Mapped(queue', slots', n + 1, cols, rows) && !Agree(queue', slots', n + 1, cols)
            && Pending(queue', slots', grid, i) == item.c
            && Settled(queue', n + 1, slots', grid, cols, cursor, i) ==
               if cursor == Some(i) then item.c else queue[FirstAt(queue, n, cols, i)].c
  {
    hide Index;
    Pushed(queue, slots, grid, n, cols, rows, item);
    FirstUnmoved(queue, n, cols, i, item);
  }

  lemma FirstUnmoved(queue: seq<Item>, n: nat, cols: nat, i: nat, item: Item)
    requires n < |queue| && FirstAt(queue, n, cols, i) < n
    ensures FirstAt(queue[n := item], n + 1, cols, i) == FirstAt(queue, n, cols, i)
  {
    hide Index;
    var queue' := queue[n := item];
    forall k | 0 <= k < n ensures PlaceOf(queue', k, cols) == PlaceOf(queue, k, cols) {}
    var f, f' := FirstAt(queue, n, cols, i), FirstAt(queue', n + 1, cols, i);
    assert PlaceOf(queue', f, cols) == i;
    assert f' < n ==> PlaceOf(queue, f', cols) == i;
  }

  lemma Repushed(queue: seq<Item>, slots: seq<int>, grid: seq<Cell>, n: nat, cols: nat, rows: nat, i: nat, c: Cell)
    requires Mapped(queue, slots, n, cols, rows) && |grid| == |slots| && i < |slots| && 0 <= slots[i]
    ensures var queue' := queue[slots[i] := queue[slots[i]].(c := c)];
            && Mapped(queue', slots, n, cols, rows)
            && (Agree(queue, slots, n, cols) ==> Agree(queue', slots, n, cols))
            && ScreenOf(queue', slots, grid) == Put(ScreenOf(queue, slots, grid), i, LookOf(c))
  {
    hide Index;
    var q := slots[i];
    var queue' := queue[q := queue[q].(c := c)];
    forall k | 0 <= k < n ensures PlaceOf(queue', k, cols) == PlaceOf(queue, k, cols) {}
    forall j | 0 <= j < |slots| && j != i ensures slots[j] != q {
      assert 0 <= slots[j] ==> PlaceOf(queue, slots[j], cols) == j;
    }
  }
}
