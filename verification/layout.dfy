/**
  The dashboard layout object: rows of panels are placed one after the other, and each
  panel's grid position and id are written into the panel itself.
 */
module Layouts {
  import opened Shelves

  class Panel {
    const title: string
    const header: bool
    const w: nat
    const h: nat
    var id: nat
    var x: nat
    var y: nat

    /** A panel that no layout has placed yet. */
    constructor (title: string, w: nat, h: nat)
      ensures this.title == title && !header && this.w == w && this.h == h
      ensures id == x == y == 0
    {
      this.title, this.header, this.w, this.h := title, false, w, h;
      id, x, y := 0, 0, 0;
    }

    /** The title line of a row. */
    constructor Header(title: string, id: nat, y: nat)
      ensures this.title == title && header && w == COLUMNS && h == 1
      ensures this.id == id && x == 0 && this.y == y
    {
      this.title, this.header, this.w, this.h := title, true, COLUMNS, 1;
      this.id, this.x, this.y := id, 0, y;
    }

    ghost function Place(): Box
      reads this
    {
      Box(id, x, y, w, h)
    }
  }

  function SizesOf(items: seq<Panel>): (sizes: seq<Size>)
    ensures |sizes| == |items|
    ensures forall i :: 0 <= i < |items| ==> sizes[i] == Size(items[i].w, items[i].h)
  {
    seq(|items|, i requires 0 <= i < |items| => Size(items[i].w, items[i].h))
  }

  ghost predicate Distinct(items: seq<Panel>)
  {
    forall i, j :: 0 <= i < j < |items| ==> items[i] != items[j]
  }

  // ---- The loop of `Row` ----

  /** The loop's variables: the next column, the height of the current shelf, and where it is. */
  datatype Cursor = Cursor(x: nat, rowHeight: nat, y: nat)

  /** A shelf that has no room for the item is closed first. */
  function MakeRoom(c: Cursor, item: Size): Cursor
  {
    if c.x + item.w > COLUMNS then Cursor(0, 0, c.y + c.rowHeight) else c
  }

  function Advance(c: Cursor, item: Size): Cursor
  {
    var r := MakeRoom(c, item);
    Cursor(r.x + item.w, Max(r.rowHeight, item.h), r.y)
  }

  function BoxAt(c: Cursor, item: Size, id: nat): Box
  {
    var r := MakeRoom(c, item);
    Box(id, r.x, r.y, item.w, item.h)
  }

  /** The boxes of the items from the i-th on, from a cursor. */
  function Loop(items: seq<Size>, i: nat, c: Cursor, id: nat): (boxes: seq<Box>)
    requires i <= |items|
    ensures |boxes| == |items| - i
    decreases |items| - i
  {
    if i == |items| then []
    else [BoxAt(c, items[i], id)] + Loop(items, i + 1, Advance(c, items[i]), id + 1)
  }

  function LoopEnd(items: seq<Size>, i: nat, c: Cursor): Cursor
    requires i <= |items|
    decreases |items| - i
  {
    if i == |items| then c else LoopEnd(items, i + 1, Advance(c, items[i]))
  }

  /** The cursors before each item from the i-th on, and after the last. */
  function Cursors(items: seq<Size>, i: nat, c: Cursor): (cursors: seq<Cursor>)
    requires i <= |items|
    ensures |cursors| == |items| - i + 1 && cursors[0] == c
    decreases |items| - i
  {
    if i == |items| then [c] else [c] + Cursors(items, i + 1, Advance(c, items[i]))
  }

  /** The loop's body for one item takes one cursor to the next. */
  predicate Steps(cursors: seq<Cursor>, k: nat, item: Size, box: Box, id: nat)
    requires k + 1 < |cursors|
  {
    cursors[k + 1] == Advance(cursors[k], item) && box == BoxAt(cursors[k], item, id)
  }

  lemma {:induction false} LoopSteps(items: seq<Size>, i: nat, c: Cursor, id: nat, k: nat)
    requires i + k < |items|
    ensures Steps(Cursors(items, i, c), k, items[i + k], Loop(items, i, c, id)[k], id + k)
    decreases k
  {
    var next := Advance(c, items[i]);
    var cursors, boxes := Cursors(items, i + 1, next), Loop(items, i + 1, next, id + 1);
    assert Cursors(items, i, c) == [c] + cursors;
    assert Loop(items, i, c, id) == [BoxAt(c, items[i], id)] + boxes;
    if k > 0 {
      LoopSteps(items, i + 1, next, id + 1, k - 1);
      assert ([c] + cursors)[k] == cursors[k - 1] && ([c] + cursors)[k + 1] == cursors[k];
    }
  }

  lemma {:induction false} LoopLast(items: seq<Size>, i: nat, c: Cursor)
    requires i <= |items|
    ensures Cursors(items, i, c)[|items| - i] == LoopEnd(items, i, c)
    decreases |items| - i
  {
    if i < |items| {
      LoopLast(items, i + 1, Advance(c, items[i]));
    }
  }

  lemma PlaceShelfAppend(shelf: seq<Size>, item: Size, id: nat, y: nat)
    ensures PlaceShelf(shelf + [item], id, y)
         == PlaceShelf(shelf, id, y) + [Box(id + |shelf|, Width(shelf), y, item.w, item.h)]
  {
    assert (shelf + [item])[..|shelf|] == shelf;
  }

  predicate Ends(c: Cursor, bottom: nat)
  {
    c.y + c.rowHeight == bottom
  }

  lemma PlaceOne(item: Size, id: nat, y: nat)
    ensures PlaceShelf([item], id, y) == [Box(id, 0, y, item.w, item.h)]
  {
    PlaceShelfAppend([], item, id, y);
    assert [] + [item] == [item];
  }

  lemma PlaceAbove(shelf: seq<Size>, shelves: seq<seq<Size>>, id: nat, y: nat)
    ensures PlaceShelves([shelf] + shelves, id, y)
         == PlaceShelf(shelf, id, y) + PlaceShelves(shelves, id + |shelf|, y + Height(shelf))
    ensures StackHeight([shelf] + shelves) == Height(shelf) + StackHeight(shelves)
  {
    assert ([shelf] + shelves)[1..] == shelves;
  }

  /** The loop completes the open shelf and places the remaining greedy shelves below it. */
  lemma {:induction false} LoopPlaces(items: seq<Size>, i: nat, open: seq<Size>, id: nat, y: nat)
    requires i <= |items| && open != []
    ensures var c, shelves := Cursor(Width(open), Height(open), y), Pack(items[i..], open);
            && PlaceShelf(open, id, y) + Loop(items, i, c, id + |open|) == PlaceShelves(shelves, id, y)
            && Ends(LoopEnd(items, i, c), y + StackHeight(shelves))
    decreases |items| - i
  {
    if i == |items| {
      PlaceAbove(open, [], id, y);
      assert [open] + [] == [open];
    } else {
      assert items[i..][0] == items[i] && items[i..][1..] == items[i + 1..];
      if Width(open) + items[i].w > COLUMNS {
        LoopWraps(items, i, open, id, y);
      } else {
        LoopContinues(items, i, open, id, y);
      }
    }
  }

  lemma {:induction false} LoopWraps(items: seq<Size>, i: nat, open: seq<Size>, id: nat, y: nat)
    requires i < |items| && open != [] && Width(open) + items[i].w > COLUMNS
    ensures var c, shelves := Cursor(Width(open), Height(open), y), [open] + Pack(items[i + 1..], [items[i]]);
            && PlaceShelf(open, id, y) + Loop(items, i, c, id + |open|) == PlaceShelves(shelves, id, y)
            && Ends(LoopEnd(items, i, c), y + StackHeight(shelves))
    decreases |items| - i, 0
  {
    var id', y', shelves := id + |open|, y + Height(open), Pack(items[i + 1..], [items[i]]);
    var next := Cursor(items[i].w, items[i].h, y');
    WidthOne(items[i]);
    PlaceOne(items[i], id', y');
    LoopPlaces(items, i + 1, [items[i]], id', y');
    var c := Cursor(Width(open), Height(open), y);
    assert Advance(c, items[i]) == next && BoxAt(c, items[i], id') == Box(id', 0, y', items[i].w, items[i].h);
    assert Loop(items, i, c, id') == [BoxAt(c, items[i], id')] + Loop(items, i + 1, next, id' + 1);
    PlaceAbove(open, shelves, id, y);
  }

  lemma {:induction false} LoopContinues(items: seq<Size>, i: nat, open: seq<Size>, id: nat, y: nat)
    requires i < |items| && open != [] && Width(open) + items[i].w <= COLUMNS
    ensures var c, shelves := Cursor(Width(open), Height(open), y), Pack(items[i + 1..], open + [items[i]]);
            && PlaceShelf(open, id, y) + Loop(items, i, c, id + |open|) == PlaceShelves(shelves, id, y)
            && Ends(LoopEnd(items, i, c), y + StackHeight(shelves))
    decreases |items| - i, 0
  {
    var placed, box := PlaceShelf(open, id, y), Box(id + |open|, Width(open), y, items[i].w, items[i].h);
    WidthAppend(open, items[i]);
    PlaceShelfAppend(open, items[i], id, y);
    LoopPlaces(items, i + 1, open + [items[i]], id, y);
    var c := Cursor(Width(open), Height(open), y);
    var next := Cursor(Width(open) + items[i].w, Max(Height(open), items[i].h), y);
    var rest := Loop(items, i + 1, next, id + |open| + 1);
    assert Loop(items, i, c, id + |open|) == [box] + rest;
    assert placed + ([box] + rest) == (placed + [box]) + rest;
  }

  /** From an empty shelf the loop places the greedy shelves of all the items. */
  lemma LoopIsPacking(items: seq<Size>, id: nat, y: nat)
    ensures Loop(items, 0, Cursor(0, 0, y), id) == PlaceShelves(Pack(items, []), id, y)
    ensures Ends(LoopEnd(items, 0, Cursor(0, 0, y)), y + StackHeight(Pack(items, [])))
  {
    if items != [] {
      WidthOne(items[0]);
      assert [] + [items[0]] == [items[0]];
      PlaceOne(items[0], id, y);
      LoopPlaces(items, 1, [items[0]], id, y);
    }
  }

  /** The loop's body takes the cursors one to the next over all the items. */
  predicate IsRun(cursors: seq<Cursor>, boxes: seq<Box>, items: seq<Size>, id: nat)
  {
    && |cursors| == |items| + 1 && |boxes| == |items|
    && forall k :: 0 <= k < |items| ==> Steps(cursors, k, items[k], boxes[k], id + k)
  }

  /** A run of the loop's body over all the items places them as the packing does. */
  lemma PackingIsRun(items: seq<Size>, id: nat, y: nat) returns (cursors: seq<Cursor>, boxes: seq<Box>)
    ensures boxes == PlaceShelves(Pack(items, []), id, y)
    ensures IsRun(cursors, boxes, items, id) && cursors[0] == Cursor(0, 0, y)
    ensures Ends(cursors[|items|], y + StackHeight(Pack(items, [])))
  {
    var c := Cursor(0, 0, y);
    cursors, boxes := Cursors(items, 0, c), Loop(items, 0, c, id);
    LoopIsPacking(items, id, y);
    LoopLast(items, 0, c);
    forall k | 0 <= k < |items| ensures Steps(cursors, k, items[k], boxes[k], id + k) {
      LoopSteps(items, 0, c, id, k);
    }
  }

  /** No later entry of the list is the same panel. */
  predicate LastOfItsPanel(panels: seq<Panel>, k: nat)
    requires k < |panels|
  {
    panels[k] !in panels[k + 1..]
  }

  /** Each panel stands where its last entry in the list was placed. */
  ghost predicate Stand(panels: seq<Panel>, boxes: seq<Box>)
    reads panels
  {
    && |panels| == |boxes|
    && forall k: nat :: k < |panels| && LastOfItsPanel(panels, k) ==> panels[k].Place() == boxes[k]
  }

  /** Where the panels of a list stand. */
  ghost function Places(panels: seq<Panel>): (boxes: seq<Box>)
    reads panels
    ensures |boxes| == |panels|
    ensures forall i :: 0 <= i < |panels| ==> boxes[i] == panels[i].Place()
  {
    seq(|panels|, i requires 0 <= i < |panels| reads panels => panels[i].Place())
  }

  /** The panels stood where they were placed last, but only `item` may have moved. */
  ghost predicate StoodBut(panels: seq<Panel>, places: seq<Box>, boxes: seq<Box>, item: Panel)
    reads panels
  {
    && |panels| == |places| == |boxes|
    && (forall k: nat :: k < |panels| && LastOfItsPanel(panels, k) ==> places[k] == boxes[k])
    && (forall k: nat :: k < |panels| && panels[k] != item ==> panels[k].Place() == places[k])
  }

  /** A panel that is placed takes its earlier entries along and no others. */
  lemma PlacedLast(panels: seq<Panel>, places: seq<Box>, boxes: seq<Box>, item: Panel)
    requires StoodBut(panels, places, boxes, item)
    ensures Stand(panels + [item], boxes + [item.Place()])
  {
    var all := panels + [item];
    forall k: nat | k < |all| && LastOfItsPanel(all, k) ensures all[k].Place() == (boxes + [item.Place()])[k] {
      if k < |panels| {
        assert all[k + 1..] == panels[k + 1..] + [item];
        assert LastOfItsPanel(panels, k);
      }
    }
  }

  lemma OneMoreItem(items: seq<Panel>, i: nat)
    requires i < |items|
    ensures items[..i + 1] == items[..i] + [items[i]]
  {
  }

  lemma OneMoreBox(boxes: seq<Box>, i: nat)
    requires i < |boxes|
    ensures boxes[..i + 1] == boxes[..i] + [boxes[i]]
  {
  }

  /** The boxes of a layout after a row's header has been added. */
  function Headed(rows: seq<seq<Size>>): seq<Box>
  {
    Build(rows).boxes + [Box(Build(rows).nextId, 0, Build(rows).y, COLUMNS, 1)]
  }

  /** The loop of a row, and the whole layout after it. */
  lemma RowResult(rows: seq<seq<Size>>, sizes: seq<Size>) returns (cursors: seq<Cursor>, boxes: seq<Box>)
    ensures IsRun(cursors, boxes, sizes, Build(rows).nextId + 1) && cursors[0] == Cursor(0, 0, Build(rows).y + 1)
    ensures Build(rows + [sizes]).boxes == Headed(rows) + boxes
    ensures Ends(cursors[|sizes|], Build(rows + [sizes]).y)
    ensures Build(rows + [sizes]).nextId == Build(rows).nextId + 1 + |sizes|
  {
    cursors, boxes := PackingIsRun(sizes, Build(rows).nextId + 1, Build(rows).y + 1);
    BuildRow(rows, sizes);
  }

  lemma SizesAppended(rows: seq<seq<Size>>, panels: seq<Panel>, header: Panel, items: seq<Panel>)
    requires SizesOf(panels) == Entries(rows) && header.w == COLUMNS && header.h == 1
    ensures SizesOf(panels + [header] + items) == Entries(rows + [SizesOf(items)])
  {
    assert (rows + [SizesOf(items)])[..|rows|] == rows;
    assert SizesOf(panels + [header] + items) == SizesOf(panels) + [Size(COLUMNS, 1)] + SizesOf(items);
  }

  class Layout {
    var panels: seq<Panel>
    var y: nat
    var panelId: nat
    /** The sizes given to the calls of `Row` so far. */
    ghost var rows: seq<seq<Size>>

    /** The panels stand where the packing of all rows so far put them last. */
    ghost predicate Valid()
      reads this, panels
    {
      && y == Build(rows).y && panelId == Build(rows).nextId
      && SizesOf(panels) == Entries(rows) && Stand(panels, Build(rows).boxes)
    }

    constructor ()
      ensures Valid() && panels == [] && rows == []
    {
      panels, y, panelId, rows := [], 0, 1, [];
    }

    /**
      Appends a header and the items, writing each item's id and position into it. An item that occurs
      twice, or that the layout holds already, is moved, and its earlier entries with it.
     */
    method Row(title: string, items: seq<Panel>)
      requires Valid()
      modifies this, items
      ensures Valid()
      ensures rows == old(rows) + [SizesOf(items)]
      ensures exists header ::
                && panels == old(panels) + [header] + items && fresh(header) && header.header && header.title == title
                && header.Place() == Box(old(panelId), 0, old(y), 24, 1)
    {
      ghost var cursors, boxes := RowResult(rows, SizesOf(items));
      var header := AddHeader(title, Build(rows).boxes);
      PlaceItems(items, Headed(rows), cursors, boxes);
      SizesAppended(rows, old(panels), header, items);
      rows := rows + [SizesOf(items)];
    }

    method AddHeader(title: string, ghost boxes: seq<Box>) returns (header: Panel)
      requires Stand(panels, boxes)
      modifies this`panels, this`y, this`panelId
      ensures fresh(header) && header.header && header.title == title
      ensures header.Place() == Box(old(panelId), 0, old(y), 24, 1)
      ensures panels == old(panels) + [header] && panelId == old(panelId) + 1 && y == old(y) + 1
      ensures Stand(panels, boxes + [Box(old(panelId), 0, old(y), COLUMNS, 1)])
    {
      header := new Panel.Header(title, panelId, y);
      PlacedLast(panels, Places(panels), boxes, header);
      panels := panels + [header];
      panelId := panelId + 1;
      y := y + 1;
    }

    /** The loop over the items. */
    method PlaceItems(items: seq<Panel>, ghost before: seq<Box>, ghost cursors: seq<Cursor>, ghost boxes: seq<Box>)
      requires Stand(panels, before)
      requires IsRun(cursors, boxes, SizesOf(items), panelId) && cursors[0] == Cursor(0, 0, y)
      modifies this`panels, this`y, this`panelId, items
      ensures panels == old(panels) + items && panelId == old(panelId) + |items|
      ensures Stand(panels, before + boxes) && Ends(cursors[|items|], y)
    {
      ghost var id0, sizes := panelId, SizesOf(items);
      var x, rowHeight := 0, 0;
      ghost var placed := before;
      for i := 0 to |items|
        invariant panels == old(panels) + items[..i] && panelId == id0 + i
        invariant Cursor(x, rowHeight, y) == cursors[i]
        invariant placed == before + boxes[..i] && Stand(panels, placed)
      {
        assert Steps(cursors, i, sizes[i], boxes[i], id0 + i);
        x, rowHeight := PlaceItem(items[i], x, rowHeight, placed);
        placed := placed + [boxes[i]];
        OneMoreItem(items, i);
        OneMoreBox(boxes, i);
      }
      y := y + rowHeight;
      assert placed == before + boxes;
    }

    /** The body of the loop: start a new shelf if the item does not fit, then place it. */
    method PlaceItem(item: Panel, x: nat, rowHeight: nat, ghost boxes: seq<Box>) returns (x': nat, rowHeight': nat)
      requires Stand(panels, boxes)
      modifies this`panels, this`y, this`panelId, item
      ensures Cursor(x', rowHeight', y) == Advance(Cursor(x, rowHeight, old(y)), Size(item.w, item.h))
      ensures Stand(panels, boxes + [BoxAt(Cursor(x, rowHeight, old(y)), Size(item.w, item.h), old(panelId))])
      ensures panels == old(panels) + [item] && panelId == old(panelId) + 1
    {
      ghost var places := Places(panels);
      x', rowHeight' := x, rowHeight;
      var width, height := item.w, item.h;
      if x' + width > COLUMNS {
        y := y + rowHeight';
        x' := 0;
        rowHeight' := 0;
      }
      item.id := panelId;
      panelId := panelId + 1;
      item.x, item.y := x', y;
      PlacedLast(panels, places, boxes, item);
      panels := panels + [item];
      x' := x' + width;
      rowHeight' := Max(rowHeight', height);
    }
  }

  /** Whatever rows a layout was given, two different panels of it share no grid cell. */
  lemma PanelsDisjoint(layout: Layout, i: nat, j: nat)
    requires layout.Valid() && i < |layout.panels| && j < |layout.panels| && layout.panels[i] != layout.panels[j]
    ensures !Overlap(layout.panels[i].Place(), layout.panels[j].Place())
  {
    var i' := LastEntry(layout.panels, i);
    var j' := LastEntry(layout.panels, j);
    NoOverlap(layout.rows, i', j');
  }

  /** Each panel's id is the position of its last entry, counted from one. */
  lemma IdIsLastPosition(layout: Layout, k: nat)
    requires layout.Valid() && k < |layout.panels| && LastOfItsPanel(layout.panels, k)
    ensures layout.panels[k].id == k + 1
  {
    BuildInOrder(layout.rows);
    assert layout.panels[k].Place().id == Build(layout.rows).boxes[k].id;
  }

  lemma {:induction false} LastEntry(panels: seq<Panel>, i: nat) returns (k: nat)
    requires i < |panels|
    ensures i <= k < |panels| && panels[k] == panels[i] && LastOfItsPanel(panels, k)
    decreases |panels| - i
  {
    k := i;
    if !LastOfItsPanel(panels, i) {
      var j :| i < j < |panels| && panels[j] == panels[i];
      k := LastEntry(panels, j);
    }
  }

  /** The entries are numbered by their positions exactly if no panel is listed twice. */
  lemma NumberedIffDistinct(layout: Layout)
    requires layout.Valid()
    ensures (forall k: nat :: k < |layout.panels| ==> layout.panels[k].id == k + 1) <==> Distinct(layout.panels)
  {
    var panels := layout.panels;
    forall i: nat | i < |panels|
      ensures exists k: nat :: k < |panels| && panels[k] == panels[i] && panels[i].id == k + 1 && i <= k
    {
      var k := LastEntry(panels, i);
      IdIsLastPosition(layout, k);
    }
  }

  /** In every valid layout all panels end at column 24 or before exactly if all are at most that wide. */
  lemma PanelsWithinIff(layout: Layout)
    requires layout.Valid()
    ensures (forall k :: 0 <= k < |layout.panels| ==> layout.panels[k].x + layout.panels[k].w <= 24)
            <==> forall k :: 0 <= k < |layout.panels| ==> layout.panels[k].w <= 24
  {
    var panels, boxes := layout.panels, Build(layout.rows).boxes;
    if forall k :: 0 <= k < |panels| ==> panels[k].w <= 24 {
      assert forall k :: 0 <= k < |panels| ==> SizesOf(panels)[k].w <= 24;
      EntriesNarrow(layout.rows);
      BuildWithin(layout.rows);
      forall k: nat | k < |panels| ensures panels[k].x + panels[k].w <= 24 {
        var l := LastEntry(panels, k);
        assert panels[l].Place() == boxes[l] && Right(boxes[l]) <= 24;
      }
    }
  }

  /**
    An item stands right of the one before it, on its line, if both end at column 24 or before there, and starts
    a new line below it otherwise; the first starts one.
   */
  lemma NextItem(items: seq<Size>, id: nat, y: nat, k: nat)
    requires k < |items|
    ensures |PlaceShelves(Pack(items, []), id, y)| == |items|
    ensures var boxes := PlaceShelves(Pack(items, []), id, y);
            && boxes[k].id == id + k && boxes[k].w == items[k].w && boxes[k].h == items[k].h
            && (k == 0 ==> boxes[0].x == 0 && boxes[0].y == y)
            && (k > 0 ==>
                  var end := boxes[k - 1].x + items[k - 1].w;
                  if end + items[k].w <= 24 then boxes[k].x == end && boxes[k].y == boxes[k - 1].y
                  else boxes[k].x == 0 && boxes[k].y >= boxes[k - 1].y + items[k - 1].h)
  {
    var cursors, boxes := PackingIsRun(items, id, y);
    assert Steps(cursors, k, items[k], boxes[k], id + k);
    if k > 0 {
      assert Steps(cursors, k - 1, items[k - 1], boxes[k - 1], id + (k - 1));
    }
  }

  /** A panel that is given twice to one row: its first entry, the second of the list, is numbered 3. */
  method ListedTwice(panel: Panel, title: string) returns (layout: Layout)
    modifies panel
    ensures fresh(layout) && layout.Valid()
    ensures |layout.panels| == 3 && layout.panels[1] == layout.panels[2] == panel && panel.id == 3
  {
    layout := new Layout();
    layout.Row(title, [panel, panel]);
    IdIsLastPosition(layout, 2);
  }
}
