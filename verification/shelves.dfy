/**
  Shelf packing on a grid of 24 columns: which panels share a shelf, where they are placed,
  and how good the packing is.
 */
module Shelves {

  const COLUMNS: nat := 24

  /** A panel's size in grid units. */
  datatype Size = Size(w: nat, h: nat)

  /** A placed panel. */
  datatype Box = Box(id: nat, x: nat, y: nat, w: nat, h: nat)

  function Max(a: nat, b: nat): nat { if a >= b then a else b }

  function Width(items: seq<Size>): nat
  {
    if items == [] then 0 else Width(items[..|items| - 1]) + items[|items| - 1].w
  }

  function Height(items: seq<Size>): nat
  {
    if items == [] then 0 else Max(Height(items[..|items| - 1]), items[|items| - 1].h)
  }

  /** The height of shelves stacked on one another. */
  function StackHeight(shelves: seq<seq<Size>>): nat
  {
    if shelves == [] then 0 else Height(shelves[0]) + StackHeight(shelves[1..])
  }

  function Flatten(shelves: seq<seq<Size>>): seq<Size>
  {
    if shelves == [] then [] else shelves[0] + Flatten(shelves[1..])
  }

  /** Groups that each fit the grid's width. */
  ghost predicate Feasible(shelves: seq<seq<Size>>)
  {
    forall i :: 0 <= i < |shelves| ==> Width(shelves[i]) <= COLUMNS
  }

  /** The greedy shelves of `items` when `open` is the shelf being filled. */
  function Pack(items: seq<Size>, open: seq<Size>): seq<seq<Size>>
    decreases |items|
  {
    if items == [] then (if open == [] then [] else [open])
    else if open != [] && Width(open) + items[0].w > COLUMNS then [open] + Pack(items[1..], [items[0]])
    else Pack(items[1..], open + [items[0]])
  }

  // ---- Placement ----

  function PlaceShelf(shelf: seq<Size>, id: nat, y: nat): seq<Box>
  {
    if shelf == [] then []
    else
      var n := |shelf| - 1;
      PlaceShelf(shelf[..n], id, y) + [Box(id + n, Width(shelf[..n]), y, shelf[n].w, shelf[n].h)]
  }

  function PlaceShelves(shelves: seq<seq<Size>>, id: nat, y: nat): seq<Box>
  {
    if shelves == [] then []
    else PlaceShelf(shelves[0], id, y) + PlaceShelves(shelves[1..], id + |shelves[0]|, y + Height(shelves[0]))
  }

  /** The state of a dashboard layout. */
  datatype Grid = Grid(boxes: seq<Box>, y: nat, nextId: nat)

  /** A header line across the grid, then the items on their greedy shelves. */
  function AddRow(g: Grid, items: seq<Size>): Grid
  {
    Grid(g.boxes + [Box(g.nextId, 0, g.y, COLUMNS, 1)] + PlaceShelves(Pack(items, []), g.nextId + 1, g.y + 1),
         g.y + 1 + StackHeight(Pack(items, [])),
         g.nextId + 1 + |items|)
  }

  /** The layout after a sequence of rows. */
  function Build(rows: seq<seq<Size>>): Grid
  {
    if rows == [] then Grid([], 0, 1)
    else AddRow(Build(rows[..|rows| - 1]), rows[|rows| - 1])
  }

  lemma BuildRow(rows: seq<seq<Size>>, items: seq<Size>)
    ensures Build(rows + [items]) == AddRow(Build(rows), items)
  {
    assert (rows + [items])[..|rows|] == rows;
  }

  // ---- What packing keeps ----

  lemma {:induction false} PackKeepsItems(items: seq<Size>, open: seq<Size>)
    ensures Flatten(Pack(items, open)) == open + items
    decreases |items|
  {
    if items == [] {
      if open != [] { assert Flatten([open]) == open + Flatten([]); }
    } else if open != [] && Width(open) + items[0].w > COLUMNS {
      PackKeepsItems(items[1..], [items[0]]);
      assert items == [items[0]] + items[1..];
    } else {
      PackKeepsItems(items[1..], open + [items[0]]);
      assert (open + [items[0]]) + items[1..] == open + items;
    }
  }

  lemma WidthAppend(items: seq<Size>, item: Size)
    ensures Width(items + [item]) == Width(items) + item.w
    ensures Height(items + [item]) == Max(Height(items), item.h)
  {
    assert (items + [item])[..|items|] == items;
  }

  lemma WidthOne(item: Size)
    ensures Width([item]) == item.w && Height([item]) == item.h
  {
    assert [] + [item] == [item];
    WidthAppend([], item);
  }

  lemma {:induction false} WidthSplit(a: seq<Size>, b: seq<Size>)
    ensures Width(a + b) == Width(a) + Width(b)
    ensures Height(a + b) == Max(Height(a), Height(b))
    decreases |b|
  {
    if b == [] {
      assert a + b == a;
    } else {
      var n := |b| - 1;
      WidthSplit(a, b[..n]);
      assert a + b == (a + b[..n]) + [b[n]] && b == b[..n] + [b[n]];
      WidthAppend(a + b[..n], b[n]);
      WidthAppend(b[..n], b[n]);
    }
  }

  lemma WidthHead(items: seq<Size>)
    requires items != []
    ensures Width(items) == items[0].w + Width(items[1..])
    ensures Height(items) == Max(items[0].h, Height(items[1..]))
  {
    assert items == [items[0]] + items[1..];
    WidthSplit([items[0]], items[1..]);
    WidthOne(items[0]);
  }

  /** Shelves are never empty, and every shelf fits the grid if every item does. */
  lemma {:induction false} PackFits(items: seq<Size>, open: seq<Size>)
    requires Narrow(items) && Width(open) <= COLUMNS
    ensures Feasible(Pack(items, open))
    ensures forall i :: 0 <= i < |Pack(items, open)| ==> Pack(items, open)[i] != []
    decreases |items|
  {
    if items != [] {
      WidthOne(items[0]);
      if open != [] && Width(open) + items[0].w > COLUMNS {
        PackFits(items[1..], [items[0]]);
      } else {
        WidthAppend(open, items[0]);
        PackFits(items[1..], open + [items[0]]);
      }
    }
  }

  // ---- The greedy packing uses the fewest shelves ----

  /** How many more shelves the items open when `used` columns of the current one are taken. */
  function Opened(items: seq<Size>, used: nat): nat
    decreases |items|
  {
    if items == [] then 0
    else if used + items[0].w > COLUMNS then 1 + Opened(items[1..], items[0].w)
    else Opened(items[1..], used + items[0].w)
  }

  lemma {:induction false} PackCount(items: seq<Size>, open: seq<Size>)
    requires open != []
    ensures |Pack(items, open)| == 1 + Opened(items, Width(open))
    decreases |items|
  {
    if items != [] {
      WidthOne(items[0]);
      if Width(open) + items[0].w > COLUMNS {
        PackCount(items[1..], [items[0]]);
      } else {
        WidthAppend(open, items[0]);
        PackCount(items[1..], open + [items[0]]);
      }
    }
  }

  /** A fuller shelf costs at most one shelf more, and never one less. */
  lemma {:induction false} OpenedMonotone(items: seq<Size>, less: nat, more: nat)
    requires less <= more
    ensures Opened(items, less) <= Opened(items, more) <= Opened(items, less) + 1
    decreases |items|
  {
    if items != [] {
      var w := items[0].w;
      if more + w <= COLUMNS {
        OpenedMonotone(items[1..], less + w, more + w);
      } else if less + w <= COLUMNS {
        OpenedMonotone(items[1..], w, less + w);
      }
    }
  }

  /** Any split of what follows opens at least as many shelves, from an equally full shelf. */
  lemma {:induction false} OpenedMinimal(items: seq<Size>, used: nat, current: seq<Size>, later: seq<seq<Size>>)
    requires items == current + Flatten(later)
    requires used + Width(current) <= COLUMNS && Feasible(later)
    ensures Opened(items, used) <= |later|
    decreases |items|, |later|
  {
    if current != [] {
      WidthHead(current);
      assert items[1..] == current[1..] + Flatten(later);
      OpenedMinimal(items[1..], used + items[0].w, current[1..], later);
    } else if later != [] {
      OpenedMinimal(items, 0, later[0], later[1..]);
      OpenedMonotone(items, 0, used);
    }
  }

  /** No split of the items into consecutive groups that fit uses fewer shelves. */
  lemma PackFewestShelves(items: seq<Size>, groups: seq<seq<Size>>)
    requires Flatten(groups) == items && Feasible(groups)
    ensures |Pack(items, [])| <= |groups|
  {
    if items != [] {
      OpenedMinimal(items, 0, groups[0], groups[1..]);
      WidthOne(items[0]);
      PackCount(items[1..], [items[0]]);
      assert [] + [items[0]] == [items[0]];
      if items[0].w > COLUMNS {
        FlattenWidth(groups);
      }
    }
  }

  /** Every item of a feasible split fits the grid. */
  lemma {:induction false} FlattenWidth(groups: seq<seq<Size>>)
    requires Feasible(groups)
    ensures Narrow(Flatten(groups))
    decreases |groups|
  {
    if groups != [] {
      FlattenWidth(groups[1..]);
      ItemWithin(groups[0]);
    }
  }

  lemma {:induction false} ItemWithin(items: seq<Size>)
    ensures forall i :: 0 <= i < |items| ==> items[i].w <= Width(items) && items[i].h <= Height(items)
    decreases |items|
  {
    if items != [] {
      ItemWithin(items[..|items| - 1]);
    }
  }

  /** The greedy shelves are themselves such a split exactly when every item fits the grid. */
  lemma PackIsFeasibleIff(items: seq<Size>)
    ensures Feasible(Pack(items, [])) <==> Narrow(items)
  {
    PackKeepsItems(items, []);
    assert [] + items == items;
    if Feasible(Pack(items, [])) {
      FlattenWidth(Pack(items, []));
    } else if Narrow(items) {
      PackFits(items, []);
    }
  }

  // ---- How full the shelves are ----

  /** Two neighbouring shelves together are wider than the grid. */
  lemma {:induction false} NeighboursOverflow(items: seq<Size>, open: seq<Size>, i: nat)
    requires i + 1 < |Pack(items, open)|
    ensures Width(Pack(items, open)[i]) + Width(Pack(items, open)[i + 1]) > COLUMNS
    decreases |items|
  {
    if items != [] {
      WidthOne(items[0]);
      if open != [] && Width(open) + items[0].w > COLUMNS {
        if i == 0 {
          FirstShelfStartsWith(items[1..], [items[0]]);
        } else {
          NeighboursOverflow(items[1..], [items[0]], i - 1);
        }
      } else {
        NeighboursOverflow(items[1..], open + [items[0]], i);
      }
    }
  }

  lemma {:induction false} FirstShelfStartsWith(items: seq<Size>, open: seq<Size>)
    requires open != []
    ensures Pack(items, open) != [] && Width(Pack(items, open)[0]) >= Width(open)
    decreases |items|
  {
    if items != [] && Width(open) + items[0].w <= COLUMNS {
      WidthAppend(open, items[0]);
      FirstShelfStartsWith(items[1..], open + [items[0]]);
    }
  }

  lemma {:induction false} ShelvesBound(shelves: seq<seq<Size>>)
    requires forall i :: 0 <= i < |shelves| - 1 ==> Width(shelves[i]) + Width(shelves[i + 1]) > COLUMNS
    ensures |shelves| <= 2 * (Width(Flatten(shelves)) / (COLUMNS + 1)) + 1
    decreases |shelves|
  {
    if |shelves| >= 2 {
      var rest := shelves[2..];
      forall i | 0 <= i < |rest| - 1 ensures Width(rest[i]) + Width(rest[i + 1]) > COLUMNS {
        assert Width(shelves[i + 2]) + Width(shelves[i + 2 + 1]) > COLUMNS;
      }
      ShelvesBound(rest);
      assert shelves[1..][1..] == rest && shelves[1..][0] == shelves[1];
      WidthSplit(shelves[1], Flatten(rest));
      WidthSplit(shelves[0], shelves[1] + Flatten(rest));
      var a, b, c := Width(shelves[0]), Width(shelves[1]), Width(Flatten(rest));
      assert Width(Flatten(shelves)) == a + b + c && a + b >= 25;
      assert (a + b + c) / 25 >= (25 + c) / 25 == 1 + c / 25;
    }
  }

  /** Items of total width W never take more than 2 * (W / 25) + 1 shelves. */
  lemma PackShelvesBound(items: seq<Size>)
    ensures |Pack(items, [])| <= 2 * (Width(items) / 25) + 1
  {
    var shelves := Pack(items, []);
    forall i | 0 <= i < |shelves| - 1 ensures Width(shelves[i]) + Width(shelves[i + 1]) > COLUMNS {
      NeighboursOverflow(items, [], i);
    }
    ShelvesBound(shelves);
    PackKeepsItems(items, []);
    assert [] + items == items;
  }

  // ---- How high the packing is ----

  /** The height still to come when the current shelf uses `used` columns and is `tall` high. */
  function Rise(items: seq<Size>, used: nat, tall: nat): nat
    decreases |items|
  {
    if items == [] then tall
    else if used + items[0].w > COLUMNS then tall + Rise(items[1..], items[0].w, items[0].h)
    else Rise(items[1..], used + items[0].w, Max(tall, items[0].h))
  }

  lemma {:induction false} PackRise(items: seq<Size>, open: seq<Size>)
    requires open != []
    ensures StackHeight(Pack(items, open)) == Rise(items, Width(open), Height(open))
    decreases |items|
  {
    if items == [] {
      assert StackHeight([open]) == Height(open) + StackHeight([]);
    } else {
      WidthOne(items[0]);
      if Width(open) + items[0].w > COLUMNS {
        PackRise(items[1..], [items[0]]);
        assert Pack(items, open)[1..] == Pack(items[1..], [items[0]]);
      } else {
        WidthAppend(open, items[0]);
        PackRise(items[1..], open + [items[0]]);
      }
    }
  }

  /**
    Within one group of a feasible split at most one shelf is opened, so the group adds at most
    twice its height. `renewed` says that a shelf was already opened inside the group.
   */
  lemma {:induction false} RiseBound(items: seq<Size>, used: nat, tall: nat, renewed: bool, cap: nat,
                                     current: seq<Size>, later: seq<seq<Size>>)
    requires items == current + Flatten(later) && Feasible(later)
    requires Width(current) <= COLUMNS && Height(current) <= cap
    requires renewed ==> used + Width(current) <= COLUMNS
    ensures Rise(items, used, tall) <= Max(tall, cap) + (if renewed then 0 else cap) + 2 * StackHeight(later)
    decreases |items|, |later|
  {
    if current != [] {
      WidthHead(current);
      var rest, w, h := current[1..], items[0].w, items[0].h;
      assert items[1..] == rest + Flatten(later) && current[0] == items[0];
      if used + w > COLUMNS {
        RiseBound(items[1..], w, h, true, cap, rest, later);
      } else {
        RiseBound(items[1..], used + w, Max(tall, h), renewed, cap, rest, later);
      }
    } else if later != [] {
      assert items == later[0] + Flatten(later[1..]);
      RiseBound(items, used, tall, false, Height(later[0]), later[0], later[1..]);
    }
  }

  /** The greedy packing is at most twice as high as any other split that keeps the order. */
  lemma PackAtMostTwiceAsHigh(items: seq<Size>, groups: seq<seq<Size>>)
    requires Flatten(groups) == items && Feasible(groups)
    ensures StackHeight(Pack(items, [])) <= 2 * StackHeight(groups)
  {
    if items != [] {
      WidthOne(items[0]);
      assert [] + [items[0]] == [items[0]];
      PackRise(items[1..], [items[0]]);
      FlattenWidth(groups);
      RiseBound(items, 0, 0, true, Height(groups[0]), groups[0], groups[1..]);
    }
  }

  lemma {:induction false} LevelStack(shelves: seq<seq<Size>>, h: nat)
    requires forall i :: 0 <= i < |shelves| ==> shelves[i] != []
    requires forall i, j :: 0 <= i < |shelves| && 0 <= j < |shelves[i]| ==> shelves[i][j].h == h
    ensures StackHeight(shelves) == |shelves| * h
    decreases |shelves|
  {
    if shelves != [] {
      LevelHeight(shelves[0], h);
      LevelStack(shelves[1..], h);
    }
  }

  lemma {:induction false} LevelHeight(items: seq<Size>, h: nat)
    requires items != [] && forall j :: 0 <= j < |items| ==> items[j].h == h
    ensures Height(items) == h
    decreases |items|
  {
    if |items| > 1 {
      LevelHeight(items[..|items| - 1], h);
    }
  }

  lemma {:induction false} FlattenContains(groups: seq<seq<Size>>, i: nat, j: nat)
    requires i < |groups| && j < |groups[i]|
    ensures groups[i][j] in Flatten(groups)
    decreases |groups|
  {
    if i == 0 {
      assert Flatten(groups)[j] == groups[0][j];
    } else {
      FlattenContains(groups[1..], i - 1, j);
      assert groups[1..][i - 1][j] in Flatten(groups[1..]);
    }
  }

  lemma LevelGroups(groups: seq<seq<Size>>, h: nat)
    requires forall i :: 0 <= i < |Flatten(groups)| ==> Flatten(groups)[i].h == h
    requires forall i :: 0 <= i < |groups| ==> groups[i] != []
    ensures StackHeight(groups) == |groups| * h
  {
    forall i: nat, j: nat | i < |groups| && j < |groups[i]| ensures groups[i][j].h == h {
      FlattenContains(groups, i, j);
    }
    LevelStack(groups, h);
  }

  /** With panels of one height, no order-preserving arrangement of the row is lower. */
  lemma PackLowestWhenLevel(items: seq<Size>, h: nat, groups: seq<seq<Size>>)
    requires forall i :: 0 <= i < |items| ==> items[i].h == h
    requires Flatten(groups) == items && Feasible(groups) && forall i :: 0 <= i < |groups| ==> groups[i] != []
    ensures StackHeight(Pack(items, [])) <= StackHeight(groups)
  {
    PackFewestShelves(items, groups);
    PackKeepsItems(items, []);
    assert [] + items == items;
    FlattenWidth(groups);
    PackFits(items, []);
    LevelGroups(groups, h);
    LevelGroups(Pack(items, []), h);
    MulMonotone(|Pack(items, [])|, |groups|, h);
  }

  lemma MulMonotone(a: nat, b: nat, h: nat)
    requires a <= b
    ensures a * h <= b * h
  {
  }

  /** With different heights the greedy row can be higher than another arrangement. */
  lemma PackNotAlwaysLowest()
    ensures var a, b := Size(12, 1), Size(12, 10);
            && Flatten([[a], [b, b]]) == [a, b, b] && Feasible([[a], [b, b]])
            && StackHeight(Pack([a, b, b], [])) == 20 && StackHeight([[a], [b, b]]) == 11
  {
    var a, b := Size(12, 1), Size(12, 10);
    PairSize(a, b);
    PairSize(b, b);
    WidthOne(a);
    WidthOne(b);
    assert [[a], [b, b]][1..] == [[b, b]] && [[b, b]][1..] == [];
    assert Flatten([[b, b]]) == [b, b] + [];
    assert [a, b, b][1..] == [b, b] && [b, b][1..] == [b] && [b][1..] == [];
    assert [] + [a] == [a] && [a] + [b] == [a, b];
    assert Pack([b], [a, b]) == [[a, b]] + Pack([], [b]);
    assert Pack([a, b, b], []) == Pack([b, b], [a]) == [[a, b], [b]];
    assert [[a, b], [b]][1..] == [[b]] && [[b]][1..] == [];
    assert Flatten([[a], [b, b]]) == [a] + [b, b];
    assert StackHeight([[a], [b, b]]) == Height([a]) + StackHeight([[b, b]]);
    assert StackHeight([[a, b], [b]]) == Height([a, b]) + StackHeight([[b]]);
    assert StackHeight([[b]]) == Height([b]) + StackHeight([]);
    assert StackHeight([[b, b]]) == Height([b, b]) + StackHeight([]);
  }

  lemma PairSize(a: Size, b: Size)
    ensures Width([a, b]) == a.w + b.w && Height([a, b]) == Max(a.h, b.h)
  {
    WidthOne(a);
    WidthAppend([a], b);
    assert [a] + [b] == [a, b];
  }

  // ---- Geometry ----

  /** `b` comes after `a`: below it, or to its right on the same shelf. */
  predicate Follows(a: Box, b: Box)
  {
    a.y + a.h <= b.y || (a.y == b.y && a.x + a.w <= b.x)
  }

  ghost predicate InOrder(boxes: seq<Box>)
  {
    forall i, j :: 0 <= i < j < |boxes| ==> Follows(boxes[i], boxes[j])
  }

  ghost predicate Between(boxes: seq<Box>, top: nat, bottom: nat)
  {
    forall i :: 0 <= i < |boxes| ==> top <= boxes[i].y && boxes[i].y + boxes[i].h <= bottom
  }

  function Bottom(b: Box): nat { b.y + b.h }

  function Right(b: Box): nat { b.x + b.w }

  ghost predicate Reaches(boxes: seq<Box>, bottom: nat)
  {
    exists i :: 0 <= i < |boxes| && Bottom(boxes[i]) == bottom
  }

  ghost predicate WithinColumns(boxes: seq<Box>)
  {
    forall i :: 0 <= i < |boxes| ==> Right(boxes[i]) <= COLUMNS
  }

  /** Every item fits the grid's width. */
  ghost predicate Narrow(items: seq<Size>)
  {
    forall i :: 0 <= i < |items| ==> items[i].w <= COLUMNS
  }

  ghost predicate Positive(items: seq<Size>)
  {
    forall i :: 0 <= i < |items| ==> items[i].w >= 1 && items[i].h >= 1
  }

  /** Some grid cell belongs to both panels. */
  ghost predicate Overlap(a: Box, b: Box)
  {
    exists x, y :: Covers(a, x, y) && Covers(b, x, y)
  }

  predicate Covers(b: Box, x: nat, y: nat)
  {
    b.x <= x < b.x + b.w && b.y <= y < b.y + b.h
  }

  lemma {:induction false} ShelfInOrder(shelf: seq<Size>, id: nat, y: nat)
    ensures var boxes := PlaceShelf(shelf, id, y);
            && |boxes| == |shelf|
            && InOrder(boxes) && Between(boxes, y, y + Height(shelf))
            && (forall i :: 0 <= i < |boxes| ==> boxes[i].id == id + i && boxes[i].y == y)
            && (forall i :: 0 <= i < |boxes| ==> Right(boxes[i]) <= Width(shelf))
            && (forall i :: 0 <= i < |boxes| ==> Size(boxes[i].w, boxes[i].h) == shelf[i])
    decreases |shelf|
  {
    if shelf != [] {
      var n := |shelf| - 1;
      ShelfInOrder(shelf[..n], id, y);
      var early := PlaceShelf(shelf[..n], id, y);
      var last := Box(id + n, Width(shelf[..n]), y, shelf[n].w, shelf[n].h);
      assert PlaceShelf(shelf, id, y) == early + [last];
      forall i | 0 <= i < |early| ensures Follows(early[i], last) {
        assert Right(early[i]) <= last.x;
      }
    }
  }

  lemma {:induction false} ShelfReachesBottom(shelf: seq<Size>, id: nat, y: nat)
    requires shelf != []
    ensures Reaches(PlaceShelf(shelf, id, y), y + Height(shelf))
    decreases |shelf|
  {
    var n, boxes := |shelf| - 1, PlaceShelf(shelf, id, y);
    ShelfInOrder(shelf, id, y);
    if shelf[n].h >= Height(shelf[..n]) {
      assert Bottom(boxes[n]) == y + Height(shelf);
    } else {
      ShelfReachesBottom(shelf[..n], id, y);
      var early := PlaceShelf(shelf[..n], id, y);
      var i :| 0 <= i < |early| && Bottom(early[i]) == y + Height(shelf[..n]);
      assert boxes[i] == early[i];
    }
  }

  lemma InOrderAppend(first: seq<Box>, second: seq<Box>, top: nat, middle: nat, bottom: nat)
    requires InOrder(first) && InOrder(second)
    requires Between(first, top, middle) && Between(second, middle, bottom) && top <= middle <= bottom
    ensures InOrder(first + second) && Between(first + second, top, bottom)
  {
  }

  lemma {:induction false} ShelvesInOrder(shelves: seq<seq<Size>>, id: nat, y: nat)
    ensures var boxes := PlaceShelves(shelves, id, y);
            && |boxes| == |Flatten(shelves)|
            && InOrder(boxes) && Between(boxes, y, y + StackHeight(shelves))
            && (forall i :: 0 <= i < |boxes| ==> boxes[i].id == id + i)
            && (forall i :: 0 <= i < |boxes| ==> Size(boxes[i].w, boxes[i].h) == Flatten(shelves)[i])
    decreases |shelves|
  {
    if shelves != [] {
      var n, h := |shelves[0]|, Height(shelves[0]);
      ShelfInOrder(shelves[0], id, y);
      ShelvesInOrder(shelves[1..], id + n, y + h);
      InOrderAppend(PlaceShelf(shelves[0], id, y), PlaceShelves(shelves[1..], id + n, y + h),
                    y, y + h, y + StackHeight(shelves));
    }
  }

  lemma {:induction false} ShelvesWithin(shelves: seq<seq<Size>>, id: nat, y: nat)
    requires Feasible(shelves)
    ensures WithinColumns(PlaceShelves(shelves, id, y))
    decreases |shelves|
  {
    if shelves != [] {
      ShelfInOrder(shelves[0], id, y);
      ShelvesWithin(shelves[1..], id + |shelves[0]|, y + Height(shelves[0]));
    }
  }

  /** The lowest panel of the last shelf reaches the bottom of the stack. */
  lemma {:induction false} ShelvesReachBottom(shelves: seq<seq<Size>>, id: nat, y: nat)
    requires shelves != [] && forall i :: 0 <= i < |shelves| ==> shelves[i] != []
    ensures Reaches(PlaceShelves(shelves, id, y), y + StackHeight(shelves))
    decreases |shelves|
  {
    var first, n, h := PlaceShelf(shelves[0], id, y), |shelves[0]|, Height(shelves[0]);
    var rest := PlaceShelves(shelves[1..], id + n, y + h);
    if |shelves| == 1 {
      ShelfReachesBottom(shelves[0], id, y);
    } else {
      ShelvesReachBottom(shelves[1..], id + n, y + h);
    }
    EitherReaches(first, rest, y + StackHeight(shelves));
  }

  lemma EitherReaches(first: seq<Box>, rest: seq<Box>, bottom: nat)
    requires Reaches(first, bottom) || Reaches(rest, bottom)
    ensures Reaches(first + rest, bottom)
  {
    if Reaches(first, bottom) {
      var i :| 0 <= i < |first| && Bottom(first[i]) == bottom;
      assert (first + rest)[i] == first[i];
    } else {
      var i :| 0 <= i < |rest| && Bottom(rest[i]) == bottom;
      assert (first + rest)[|first| + i] == rest[i];
    }
  }

  // ---- Whole dashboards ----

  /** The sizes of all entries in list order, headers included. */
  function Entries(rows: seq<seq<Size>>): seq<Size>
  {
    if rows == [] then []
    else Entries(rows[..|rows| - 1]) + [Size(COLUMNS, 1)] + rows[|rows| - 1]
  }

  /** What one row adds below a layout. */
  function RowBoxes(items: seq<Size>, id: nat, y: nat): seq<Box>
  {
    [Box(id, 0, y, COLUMNS, 1)] + PlaceShelves(Pack(items, []), id + 1, y + 1)
  }

  lemma RowAdded(g: Grid, items: seq<Size>)
    ensures AddRow(g, items).boxes == g.boxes + RowBoxes(items, g.nextId, g.y)
  {
  }

  lemma NumbersUnderHeader(header: Box, boxes: seq<Box>, items: seq<Size>)
    requires |boxes| == |items|
    requires forall i :: 0 <= i < |boxes| ==> boxes[i].id == header.id + 1 + i
    requires forall i :: 0 <= i < |boxes| ==> Size(boxes[i].w, boxes[i].h) == items[i]
    ensures var all := [header] + boxes;
            && (forall i :: 0 <= i < |all| ==> all[i].id == header.id + i)
            && (forall i :: 0 <= i < |all| ==> Size(all[i].w, all[i].h) == ([Size(header.w, header.h)] + items)[i])
  {
  }

  lemma RowInOrder(items: seq<Size>, id: nat, y: nat)
    ensures var boxes := RowBoxes(items, id, y);
            && |boxes| == |items| + 1
            && InOrder(boxes) && Between(boxes, y, y + 1 + StackHeight(Pack(items, [])))
            && (forall i :: 0 <= i < |boxes| ==> boxes[i].id == id + i)
            && (forall i :: 0 <= i < |boxes| ==> Size(boxes[i].w, boxes[i].h) == ([Size(COLUMNS, 1)] + items)[i])
  {
    var shelves := Pack(items, []);
    PackKeepsItems(items, []);
    assert [] + items == items;
    var header, boxes := Box(id, 0, y, COLUMNS, 1), PlaceShelves(shelves, id + 1, y + 1);
    ShelvesInOrder(shelves, id + 1, y + 1);
    UnderHeader(header, boxes, y + 1 + StackHeight(shelves));
    NumbersUnderHeader(header, boxes, items);
  }

  lemma UnderHeader(header: Box, boxes: seq<Box>, bottom: nat)
    requires InOrder(boxes) && Between(boxes, Bottom(header), bottom) && Bottom(header) <= bottom
    ensures InOrder([header] + boxes) && Between([header] + boxes, header.y, bottom)
  {
    InOrderAppend([header], boxes, header.y, Bottom(header), bottom);
  }

  /** Ids count the entries, entries keep their sizes and come one after the other down the grid. */
  lemma {:induction false} BuildInOrder(rows: seq<seq<Size>>)
    ensures var g := Build(rows);
            && g.nextId == |g.boxes| + 1 && |g.boxes| == |Entries(rows)|
            && InOrder(g.boxes) && Between(g.boxes, 0, g.y)
            && (forall i :: 0 <= i < |g.boxes| ==> g.boxes[i].id == i + 1)
            && (forall i :: 0 <= i < |g.boxes| ==> Size(g.boxes[i].w, g.boxes[i].h) == Entries(rows)[i])
    decreases |rows|
  {
    if rows != [] {
      var n := |rows| - 1;
      var before, after := Build(rows[..n]), Build(rows);
      BuildInOrder(rows[..n]);
      RowInOrder(rows[n], before.nextId, before.y);
      var added := RowBoxes(rows[n], before.nextId, before.y);
      RowAdded(before, rows[n]);
      assert Entries(rows) == Entries(rows[..n]) + ([Size(COLUMNS, 1)] + rows[n]);
      InOrderAppend(before.boxes, added, 0, before.y, after.y);
    }
  }

  /** No two entries of a dashboard overlap. */
  lemma NoOverlap(rows: seq<seq<Size>>, i: nat, j: nat)
    requires i < |Build(rows).boxes| && j < |Build(rows).boxes| && i != j
    ensures !Overlap(Build(rows).boxes[i], Build(rows).boxes[j])
  {
    var boxes := Build(rows).boxes;
    BuildInOrder(rows);
    assert Follows(boxes[if i < j then i else j], boxes[if i < j then j else i]);
  }

  lemma {:induction false} EntriesPositive(rows: seq<seq<Size>>)
    requires forall r :: 0 <= r < |rows| ==> Positive(rows[r])
    ensures Positive(Entries(rows))
    decreases |rows|
  {
    if rows != [] {
      EntriesPositive(rows[..|rows| - 1]);
      assert Positive(rows[|rows| - 1]);
    }
  }

  /** List order is reading order: strictly increasing in (y, x). */
  lemma ReadingOrder(rows: seq<seq<Size>>, i: nat, j: nat)
    requires i < j < |Build(rows).boxes| && forall r :: 0 <= r < |rows| ==> Positive(rows[r])
    ensures var a, b := Build(rows).boxes[i], Build(rows).boxes[j];
            a.y < b.y || (a.y == b.y && a.x < b.x)
  {
    BuildInOrder(rows);
    EntriesPositive(rows);
    assert Follows(Build(rows).boxes[i], Build(rows).boxes[j]);
    assert Size(Build(rows).boxes[i].w, Build(rows).boxes[i].h) == Entries(rows)[i];
  }

  lemma RowReachesBottom(items: seq<Size>, id: nat, y: nat)
    ensures Reaches(RowBoxes(items, id, y), y + 1 + StackHeight(Pack(items, [])))
  {
    var shelves, row := Pack(items, []), RowBoxes(items, id, y);
    if shelves == [] {
      assert Bottom(row[0]) == y + 1;
    } else {
      PackNonEmpty(items, []);
      ShelvesReachBottom(shelves, id + 1, y + 1);
      var added := PlaceShelves(shelves, id + 1, y + 1);
      var i :| 0 <= i < |added| && Bottom(added[i]) == y + 1 + StackHeight(shelves);
      assert row[1 + i] == added[i];
    }
  }

  /** The running y is the bottom of the lowest entry. */
  lemma RunningYIsBottom(rows: seq<seq<Size>>)
    requires rows != []
    ensures Between(Build(rows).boxes, 0, Build(rows).y)
    ensures Reaches(Build(rows).boxes, Build(rows).y)
  {
    BuildInOrder(rows);
    var n := |rows| - 1;
    var before := Build(rows[..n]);
    var row := RowBoxes(rows[n], before.nextId, before.y);
    RowReachesBottom(rows[n], before.nextId, before.y);
    RowAdded(before, rows[n]);
    var i :| 0 <= i < |row| && Bottom(row[i]) == Build(rows).y;
    assert (before.boxes + row)[|before.boxes| + i] == row[i];
  }

  lemma {:induction false} PackNonEmpty(items: seq<Size>, open: seq<Size>)
    ensures forall i :: 0 <= i < |Pack(items, open)| ==> Pack(items, open)[i] != []
    decreases |items|
  {
    if items != [] {
      if open != [] && Width(open) + items[0].w > COLUMNS {
        PackNonEmpty(items[1..], [items[0]]);
      } else {
        PackNonEmpty(items[1..], open + [items[0]]);
      }
    }
  }

  lemma {:induction false} EntriesNarrow(rows: seq<seq<Size>>)
    requires Narrow(Entries(rows))
    ensures forall r :: 0 <= r < |rows| ==> Narrow(rows[r])
    decreases |rows|
  {
    if rows != [] {
      var n := |rows| - 1;
      var early := Entries(rows[..n]);
      assert Entries(rows)[..|early|] == early;
      assert Entries(rows)[|early| + 1..] == rows[n];
      EntriesNarrow(rows[..n]);
    }
  }

  lemma {:induction false} BuildWithin(rows: seq<seq<Size>>)
    requires forall r :: 0 <= r < |rows| ==> Narrow(rows[r])
    ensures WithinColumns(Build(rows).boxes)
    decreases |rows|
  {
    if rows != [] {
      var n := |rows| - 1;
      BuildWithin(rows[..n]);
      assert Narrow(rows[n]);
      PackFits(rows[n], []);
      ShelvesWithin(Pack(rows[n], []), Build(rows[..n]).nextId + 1, Build(rows[..n]).y + 1);
    }
  }

  /** Every entry lies within the 24 columns exactly when every panel is at most that wide. */
  lemma WithinColumnsIff(rows: seq<seq<Size>>)
    ensures WithinColumns(Build(rows).boxes) <==> forall r :: 0 <= r < |rows| ==> Narrow(rows[r])
  {
    var boxes := Build(rows).boxes;
    if WithinColumns(boxes) {
      BuildInOrder(rows);
      forall i | 0 <= i < |Entries(rows)| ensures Entries(rows)[i].w <= COLUMNS {
        assert Size(boxes[i].w, boxes[i].h) == Entries(rows)[i] && Right(boxes[i]) <= COLUMNS;
      }
      EntriesNarrow(rows);
    } else if forall r :: 0 <= r < |rows| ==> Narrow(rows[r]) {
      BuildWithin(rows);
    }
  }

  // ---- The same with the numbers of the grid ----

  /** A row's header spans the 24 columns of the line below all entries, and its id counts on from theirs. */
  lemma HeaderPlaced(rows: seq<seq<Size>>, items: seq<Size>)
    ensures var boxes, k := Build(rows + [items]).boxes, |Build(rows).boxes|;
            && |boxes| == k + 1 + |items| && boxes[..k] == Build(rows).boxes
            && boxes[k] == Box(k + 1, 0, Build(rows).y, 24, 1)
  {
    BuildRow(rows, items);
    BuildInOrder(rows);
    RowInOrder(items, Build(rows).nextId, Build(rows).y);
    RowAdded(Build(rows), items);
  }

  /** Every entry ends at column 24 or before exactly if every item is at most that wide. */
  lemma WithinGridIff(rows: seq<seq<Size>>)
    ensures (forall i :: 0 <= i < |Build(rows).boxes| ==> Build(rows).boxes[i].x + Build(rows).boxes[i].w <= 24)
            <==> forall r, k :: 0 <= r < |rows| && 0 <= k < |rows[r]| ==> rows[r][k].w <= 24
  {
    WithinColumnsIff(rows);
    var boxes := Build(rows).boxes;
    assert WithinColumns(boxes) <==> forall i :: 0 <= i < |boxes| ==> Right(boxes[i]) <= 24;
    if forall r, k :: 0 <= r < |rows| && 0 <= k < |rows[r]| ==> rows[r][k].w <= 24 {
      assert forall r :: 0 <= r < |rows| ==> Narrow(rows[r]);
    }
  }

  /** Two items share a shelf exactly if they are together at most 24 columns wide. */
  lemma PackTwo(a: Size, b: Size)
    ensures |Pack([a, b], [])| == if a.w + b.w <= 24 then 1 else 2
  {
    WidthOne(a);
    assert [a, b][1..] == [b] && [b][1..] == [] && [] + [a] == [a];
    assert Pack([a, b], []) == Pack([b], [a]);
    assert Pack([], [b]) == [[b]] && Pack([], [a] + [b]) == [[a] + [b]];
  }
}
