/** For which heights the greedy rows are the lowest whatever the widths. */
module Widths {
  import opened Shelves
  import opened Heights

  predicate SameHeights(items: seq<Size>, others: seq<Size>)
  {
    |items| == |others| && forall i :: 0 <= i < |items| ==> items[i].h == others[i].h
  }

  predicate PositiveWidths(items: seq<Size>)
  {
    forall i :: 0 <= i < |items| ==> items[i].w >= 1
  }

  /** Item `i` is lower than two later ones. */
  predicate Undercuts(items: seq<Size>, i: nat, j: nat, k: nat)
  {
    i < j < k < |items| && items[i].h < items[j].h && items[i].h < items[k].h
  }

  /** No item is lower than two of the `reach` items after it. */
  ghost predicate NoneUndercut(items: seq<Size>, reach: nat)
  {
    forall i: nat, j: nat, k: nat :: Undercuts(items, i, j, k) ==> k > i + reach
  }

  /** So many items at most share a shelf with a later one. */
  predicate WithinReach(items: seq<Size>, reach: nat)
  {
    reach >= |items| || (reach >= COLUMNS && PositiveWidths(items))
  }

  // ---- The best that can be done ----

  function Min(a: nat, b: nat): nat { if a <= b then a else b }

  /** The least height still to come, if every shelf may be closed early. */
  function Best(items: seq<Size>, used: nat, tall: nat): nat
    decreases |items|
  {
    if items == [] then tall
    else
      var closed := tall + Best(items[1..], items[0].w, items[0].h);
      if used + items[0].w > COLUMNS then closed
      else Min(closed, Best(items[1..], used + items[0].w, Max(tall, items[0].h)))
  }

  /** The same from a new shelf. */
  function BestAnew(items: seq<Size>): nat
  {
    if items == [] then 0 else Best(items[1..], items[0].w, items[0].h)
  }

  /** No split is lower: `current` is what is left of the group on the current shelf. */
  lemma {:induction false} BestOfSplits(items: seq<Size>, used: nat, tall: nat, current: seq<Size>,
                                        later: seq<seq<Size>>)
    requires items == current + Flatten(later) && Feasible(later) && used + Width(current) <= COLUMNS
    ensures Best(items, used, tall) <= Max(tall, Height(current)) + StackHeight(later)
    decreases |items|, |later|, 0
  {
    if current != [] {
      WidthHead(current);
      assert items[1..] == current[1..] + Flatten(later);
      BestOfSplits(items[1..], used + items[0].w, Max(tall, items[0].h), current[1..], later);
    } else if later != [] {
      assert items == later[0] + Flatten(later[1..]);
      BestOfNextGroup(items, used, tall, later[0], later[1..]);
    }
  }

  lemma {:induction false} BestOfNextGroup(items: seq<Size>, used: nat, tall: nat, group: seq<Size>,
                                           later: seq<seq<Size>>)
    requires items == group + Flatten(later) && Feasible(later) && used <= COLUMNS && Width(group) <= COLUMNS
    ensures Best(items, used, tall) <= tall + Height(group) + StackHeight(later)
    decreases |items|, |later|, 1
  {
    if group == [] {
      BestOfSplits(items, used, tall, [], later);
    } else {
      WidthHead(group);
      assert items[1..] == group[1..] + Flatten(later);
      BestOfSplits(items[1..], items[0].w, items[0].h, group[1..], later);
    }
  }

  lemma {:induction false} BestMonotone(items: seq<Size>, less: nat, more: nat, low: nat, high: nat)
    requires less <= more && low <= high
    ensures Best(items, less, low) <= Best(items, more, high)
    decreases |items|
  {
    if items != [] && more + items[0].w <= COLUMNS {
      var w, h := items[0].w, items[0].h;
      BestMonotone(items[1..], less + w, more + w, Max(low, h), Max(high, h));
    }
  }

  lemma AnewIsBest(items: seq<Size>, used: nat, tall: nat)
    ensures BestAnew(items) <= Best(items, used, tall) <= tall + BestAnew(items)
  {
    if items != [] && used + items[0].w <= COLUMNS {
      var w, h := items[0].w, items[0].h;
      BestMonotone(items[1..], w, used + w, h, Max(tall, h));
    }
  }

  /** The first `n` items are at most so high. */
  predicate LowFirst(items: seq<Size>, n: nat, tall: nat)
  {
    forall k :: 0 <= k < n && k < |items| ==> items[k].h <= tall
  }

  /** With only low items within its reach, a higher shelf costs no less than the difference. */
  lemma {:induction false} BestOffset(items: seq<Size>, used: nat, tall: nat, high: nat, n: nat)
    requires tall <= high && LowFirst(items, n, tall)
    requires n >= |items| || (PositiveWidths(items) && used + n >= COLUMNS)
    ensures Best(items, used, tall) + high <= Best(items, used, high) + tall
    decreases |items|
  {
    if items != [] && used + items[0].w <= COLUMNS {
      assert items[0].w >= 1 || n >= |items|;
      assert forall k :: 0 <= k < |items[1..]| ==> items[1..][k] == items[k + 1];
      BestOffset(items[1..], used + items[0].w, tall, high, n - 1);
    }
  }

  // ---- NoneUndercut heights suffice ----

  /** Closing the shelf before an item that fits is no better; `line` begins with the item before it. */
  lemma ClosingIsNoBetter(line: seq<Size>, used: nat, tall: nat, reach: nat)
    requires |line| >= 2 && NoneUndercut(line, reach) && WithinReach(line, reach) && line[0].h <= tall
    ensures var item, rest := line[1], line[2..];
            Best(rest, used + item.w, Max(tall, item.h)) <= tall + Best(rest, item.w, item.h)
  {
    var item, rest := line[1], line[2..];
    AnewIsBest(rest, used + item.w, Max(tall, item.h));
    if item.h <= tall {
      AnewIsBest(rest, item.w, item.h);
    } else {
      forall k | 0 <= k < reach - 1 && k < |rest| ensures rest[k].h <= tall {
        assert rest[k] == line[k + 2];
        assert !Undercuts(line, 0, 1, k + 2);
      }
      BestOffset(rest, item.w, tall, item.h, reach - 1);
      AnewIsBest(rest, item.w, tall);
    }
  }

  lemma NoneUndercutRest(line: seq<Size>, reach: nat)
    requires line != [] && NoneUndercut(line, reach) && WithinReach(line, reach)
    ensures NoneUndercut(line[1..], reach) && WithinReach(line[1..], reach)
  {
    forall i: nat, j: nat, k: nat | Undercuts(line[1..], i, j, k) ensures k > i + reach {
      assert Undercuts(line, i + 1, j + 1, k + 1);
    }
  }

  lemma {:induction false} GreedyIsBest(line: seq<Size>, used: nat, tall: nat, reach: nat)
    requires line != [] && NoneUndercut(line, reach) && WithinReach(line, reach) && line[0].h <= tall
    ensures Rise(line[1..], used, tall) <= Best(line[1..], used, tall)
    decreases |line|
  {
    if |line| >= 2 {
      var w, h := line[1].w, line[1].h;
      NoneUndercutRest(line, reach);
      assert line[1..][1..] == line[2..];
      if used + w > COLUMNS {
        GreedyIsBest(line[1..], w, h, reach);
      } else {
        GreedyIsBest(line[1..], used + w, Max(tall, h), reach);
        ClosingIsNoBetter(line, used, tall, reach);
      }
    }
  }

  lemma NoneUndercutIsLowest(items: seq<Size>, reach: nat)
    requires NoneUndercut(items, reach) && WithinReach(items, reach)
    ensures Lowest(items)
  {
    forall groups: seq<seq<Size>> | Splits(groups, items) ensures StackHeight(Pack(items, [])) <= StackHeight(groups) {
      if items != [] {
        PackIsRise(items);
        GreedyIsBest(items, items[0].w, items[0].h, reach);
        AnewIsBest(items, 0, 0);
        BestOfSplits(items, 0, 0, [], groups);
      }
    }
  }

  // ---- and are needed ----

  /** A lower item has one that is followed by a higher one at once. */
  lemma {:induction false} NextIsHigher(items: seq<Size>, i: nat, j: nat, k: nat) returns (m: nat)
    requires Undercuts(items, i, j, k)
    ensures i <= m && Undercuts(items, m, m + 1, k)
    decreases j - i
  {
    if items[i + 1].h > items[i].h {
      m := i;
    } else {
      m := NextIsHigher(items, i + 1, j, k);
    }
  }

  /** The same heights; the items from `i` to `k` fit one shelf without either end, and the others fill one each. */
  function Refitted(items: seq<Size>, i: nat, k: nat, inner: nat): (others: seq<Size>)
    requires i < k < |items| && (k - i - 1) * inner < COLUMNS
    ensures SameHeights(items, others)
  {
    seq(|items|, m requires 0 <= m < |items| =>
      Size(if m < i || m > k then COLUMNS else if m == i || m == k then COLUMNS - (k - i - 1) * inner else inner,
           items[m].h))
  }

  predicate Full(items: seq<Size>)
  {
    forall m :: 0 <= m < |items| ==> items[m].w == COLUMNS
  }

  /** Items that fill a shelf each count in full. */
  lemma {:induction false} RiseThroughFull(full: seq<Size>, rest: seq<Size>, used: nat, tall: nat)
    requires Full(full) && used >= 1 && (rest == [] || rest[0].w >= 1)
    requires full == [] && rest != [] ==> used + rest[0].w > COLUMNS
    ensures Rise(full + rest, used, tall) == tall + TotalHeight(full) + Rise(rest, COLUMNS, 0)
    decreases |full|
  {
    if full == [] {
      assert full + rest == rest;
    } else {
      assert (full + rest)[1..] == full[1..] + rest;
      RiseThroughFull(full[1..], rest, COLUMNS, full[0].h);
    }
  }

  /** Items that fit the current shelf count as far as they are higher. */
  lemma {:induction false} RiseThroughShelf(inner: seq<Size>, rest: seq<Size>, used: nat, tall: nat)
    requires used + Width(inner) <= COLUMNS
    ensures Rise(inner + rest, used, tall) == Rise(rest, used + Width(inner), Max(tall, Height(inner)))
    decreases |inner|
  {
    if inner == [] {
      assert inner + rest == rest;
    } else {
      WidthHead(inner);
      assert (inner + rest)[1..] == inner[1..] + rest;
      RiseThroughShelf(inner[1..], rest, used + inner[0].w, Max(tall, inner[0].h));
    }
  }

  /** The greedy row puts the first two on one shelf and the third on the next. */
  lemma RiseOfMiddle(a: Size, inner: seq<Size>, b: Size, back: seq<Size>)
    requires a.w >= 1 && b.w >= 1 && a.w + Width(inner) == COLUMNS && Full(back)
    ensures Rise([a] + (inner + ([b] + back)), COLUMNS, 0) == Max(a.h, Height(inner)) + b.h + TotalHeight(back)
  {
    var rest := inner + ([b] + back);
    assert ([a] + rest)[1..] == rest && ([b] + back)[1..] == back && back + [] == back;
    RiseThroughShelf(inner, [b] + back, a.w, a.h);
    RiseThroughFull(back, [], b.w, b.h);
  }

  /** The other split puts the first by itself, and the two higher ones on one shelf. */
  lemma SplitOfMiddle(front: seq<Size>, a: Size, inner: seq<Size>, b: Size, back: seq<Size>)
    returns (groups: seq<seq<Size>>)
    requires a.w <= COLUMNS && Width(inner) + b.w <= COLUMNS && Full(front) && Full(back)
    ensures Splits(groups, front + ([a] + (inner + ([b] + back))))
    ensures StackHeight(groups) == TotalHeight(front) + a.h + Max(Height(inner), b.h) + TotalHeight(back)
  {
    var shared := inner + [b];
    WidthAppend(inner, b);
    WidthOne(a);
    var rest := GroupFirst(shared, back);
    SinglesSplit(front);
    OneGroup([a]);
    SplitsJoin([[a]], rest, [a], shared + back);
    SplitsJoin(Singles(front), [[a]] + rest, front, [a] + (shared + back));
    groups := Singles(front) + ([[a]] + rest);
    assert shared + back == inner + ([b] + back);
  }

  lemma GroupFirst(group: seq<Size>, back: seq<Size>) returns (groups: seq<seq<Size>>)
    requires Width(group) <= COLUMNS && Full(back)
    ensures Splits(groups, group + back) && StackHeight(groups) == Height(group) + TotalHeight(back)
  {
    OneGroup(group);
    SinglesSplit(back);
    SplitsJoin([group], Singles(back), group, back);
    groups := [group] + Singles(back);
  }

  lemma OneGroup(group: seq<Size>)
    requires Width(group) <= COLUMNS
    ensures Splits([group], group) && StackHeight([group]) == Height(group)
  {
    assert [group][1..] == [] && group + [] == group;
  }

  lemma {:induction false} EvenWidth(items: seq<Size>, w: nat)
    requires forall m :: 0 <= m < |items| ==> items[m].w == w
    ensures Width(items) == |items| * w
    decreases |items|
  {
    if items != [] {
      var n := |items| - 1;
      EvenWidth(items[..n], w);
      assert (n + 1) * w == n * w + w;
    }
  }

  lemma MiddleIsNotLowest(front: seq<Size>, a: Size, inner: seq<Size>, b: Size, back: seq<Size>)
    requires Full(front) && Full(back) && inner != [] && 1 <= a.w == b.w && a.w + Width(inner) == COLUMNS
    requires a.h < inner[0].h && a.h < b.h
    ensures !Lowest(front + ([a] + (inner + ([b] + back))))
  {
    var middle := [a] + (inner + ([b] + back));
    var items := front + middle;
    var groups := SplitOfMiddle(front, a, inner, b, back);
    WidthHead(inner);
    PackIsRise(items);
    assert items[0].w >= 1;
    assert Rise(items, COLUMNS, 0) == Rise(items[1..], items[0].w, items[0].h);
    RiseThroughFull(front, middle, COLUMNS, 0);
    RiseOfMiddle(a, inner, b, back);
  }

  lemma UndercutIsNotLowest(items: seq<Size>, i: nat, k: nat, inner: nat)
    requires Undercuts(items, i, i + 1, k) && (k - i - 1) * inner < COLUMNS
    ensures !Lowest(Refitted(items, i, k, inner))
  {
    var others := Refitted(items, i, k, inner);
    var within := others[i + 1..k];
    EvenWidth(within, inner);
    assert within[0].h == items[i + 1].h;
    FiveParts(others, i, k);
    MiddleIsNotLowest(others[..i], others[i], within, others[k], others[k + 1..]);
  }

  lemma FiveParts(items: seq<Size>, i: nat, k: nat)
    requires i < k < |items|
    ensures items == items[..i] + ([items[i]] + (items[i + 1..k] + ([items[k]] + items[k + 1..])))
  {
    assert items[k..] == [items[k]] + items[k + 1..];
    assert items[i + 1..] == items[i + 1..k] + items[k..];
    assert items[i..] == [items[i]] + items[i + 1..];
  }

  // ---- The exact conditions ----

  lemma NoneUndercutForOthers(items: seq<Size>, others: seq<Size>, reach: nat)
    requires SameHeights(items, others) && NoneUndercut(items, reach)
    ensures NoneUndercut(others, reach)
  {
    forall i: nat, j: nat, k: nat | Undercuts(others, i, j, k) ensures k > i + reach {
      assert Undercuts(items, i, j, k);
    }
  }

  lemma SomeUndercut(items: seq<Size>, reach: nat) returns (i: nat, k: nat)
    requires !NoneUndercut(items, reach)
    ensures Undercuts(items, i, i + 1, k) && k <= i + reach
  {
    var h: nat, j: nat, m: nat :| Undercuts(items, h, j, m) && m <= h + reach;
    k := m;
    i := NextIsHigher(items, h, j, m);
  }

  /**
    Given the heights, the greedy row is the lowest for every choice of widths exactly if no item is lower than
    two later ones.
   */
  lemma LowestForAllWidthsIff(items: seq<Size>)
    ensures (forall others :: SameHeights(items, others) ==> Lowest(others)) <==> NoneUndercut(items, |items|)
  {
    if NoneUndercut(items, |items|) {
      forall others | SameHeights(items, others) ensures Lowest(others) {
        NoneUndercutForOthers(items, others, |items|);
        NoneUndercutIsLowest(others, |items|);
      }
    } else {
      var i, k := SomeUndercut(items, |items|);
      UndercutIsNotLowest(items, i, k, 0);
      assert SameHeights(items, Refitted(items, i, k, 0));
    }
  }

  /**
    If every item takes at least one column, exactly if no item is lower than two of the 24 after it: more than
    24 never share a shelf.
   */
  lemma LowestForPositiveWidthsIff(items: seq<Size>)
    ensures (forall others :: SameHeights(items, others) && PositiveWidths(others) ==> Lowest(others))
            <==> NoneUndercut(items, COLUMNS)
  {
    if NoneUndercut(items, COLUMNS) {
      forall others | SameHeights(items, others) && PositiveWidths(others) ensures Lowest(others) {
        NoneUndercutForOthers(items, others, COLUMNS);
        NoneUndercutIsLowest(others, COLUMNS);
      }
    } else {
      var i, k := SomeUndercut(items, COLUMNS);
      UndercutIsNotLowest(items, i, k, 1);
      assert SameHeights(items, Refitted(items, i, k, 1)) && PositiveWidths(Refitted(items, i, k, 1));
    }
  }

  /** No item is higher than the one before it. */
  predicate Descending(items: seq<Size>)
  {
    |items| <= 1 || (items[0].h >= items[1].h && Descending(items[1..]))
  }

  lemma {:induction false} DescendingFrom(items: seq<Size>, j: nat)
    requires Descending(items) && j < |items|
    ensures items[j].h <= items[0].h
    decreases j
  {
    if j > 0 {
      DescendingFrom(items[1..], j - 1);
    }
  }

  lemma {:induction false} DescendingPair(items: seq<Size>, i: nat, j: nat)
    requires Descending(items) && i <= j < |items|
    ensures items[j].h <= items[i].h
    decreases i
  {
    if i == 0 {
      DescendingFrom(items, j);
    } else {
      DescendingPair(items[1..], i - 1, j - 1);
    }
  }

  /** With panels that never get higher from one to the next, the row is the lowest, whatever the widths. */
  lemma DescendingIsLowest(items: seq<Size>)
    requires Descending(items)
    ensures Lowest(items)
  {
    forall i: nat, j: nat, k: nat ensures !Undercuts(items, i, j, k) {
      if i < j < |items| {
        DescendingPair(items, i, j);
      }
    }
    NoneUndercutIsLowest(items, |items|);
  }
}
