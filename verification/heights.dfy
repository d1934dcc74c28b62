/** When the greedy rows are the lowest of all order-preserving splits. */
module Heights {
  import opened Shelves

  /** No feasible split of the items that keeps their order is lower than the greedy one. */
  ghost predicate Lowest(items: seq<Size>)
  {
    forall groups: seq<seq<Size>> :: Splits(groups, items) ==> StackHeight(Pack(items, [])) <= StackHeight(groups)
  }

  ghost predicate Splits(groups: seq<seq<Size>>, items: seq<Size>)
  {
    Flatten(groups) == items && Feasible(groups)
  }

  predicate SameWidths(items: seq<Size>, others: seq<Size>)
  {
    |items| == |others| && forall i :: 0 <= i < |items| ==> items[i].w == others[i].w
  }

  ghost predicate Tall(items: seq<Size>)
  {
    forall i :: 0 <= i < |items| ==> items[i].h >= 1
  }

  /** The two items at every break between shelves do not fit side by side. */
  ghost predicate TightBreaks(shelves: seq<seq<Size>>)
  {
    forall k :: 0 <= k && k + 1 < |shelves| ==> TightBreak(shelves[k], shelves[k + 1])
  }

  predicate TightBreak(upper: seq<Size>, lower: seq<Size>)
  {
    upper != [] && lower != [] && upper[|upper| - 1].w + lower[0].w > COLUMNS
  }

  /** The same, item by item, from a shelf with `used` columns taken whose last item is `last` wide. */
  predicate Tight(items: seq<Size>, used: nat, last: nat)
    decreases |items|
  {
    if items == [] then true
    else if used + items[0].w > COLUMNS then last + items[0].w > COLUMNS && Tight(items[1..], items[0].w, items[0].w)
    else Tight(items[1..], used + items[0].w, items[0].w)
  }

  lemma {:induction false} FirstShelfBegins(items: seq<Size>, open: seq<Size>)
    requires open != []
    ensures Pack(items, open) != [] && open <= Pack(items, open)[0]
    decreases |items|
  {
    if items != [] && Width(open) + items[0].w <= COLUMNS {
      FirstShelfBegins(items[1..], open + [items[0]]);
    }
  }

  lemma TightBreaksBelow(upper: seq<Size>, shelves: seq<seq<Size>>)
    requires shelves != []
    ensures TightBreaks([upper] + shelves) <==> TightBreak(upper, shelves[0]) && TightBreaks(shelves)
  {
    var all := [upper] + shelves;
    if TightBreaks(all) {
      assert TightBreak(all[0], all[1]);
      forall k | 0 <= k && k + 1 < |shelves| ensures TightBreak(shelves[k], shelves[k + 1]) {
        assert TightBreak(all[k + 1], all[k + 2]);
      }
    }
    if TightBreak(upper, shelves[0]) && TightBreaks(shelves) {
      forall k | 0 <= k && k + 1 < |all| ensures TightBreak(all[k], all[k + 1]) {
        if k > 0 {
          assert TightBreak(shelves[k - 1], shelves[k]);
        }
      }
    }
  }

  lemma {:induction false} TightIsTightBreaks(items: seq<Size>, open: seq<Size>)
    requires open != []
    ensures Tight(items, Width(open), open[|open| - 1].w) <==> TightBreaks(Pack(items, open))
    decreases |items|
  {
    if items != [] {
      WidthOne(items[0]);
      if Width(open) + items[0].w > COLUMNS {
        TightIsTightBreaks(items[1..], [items[0]]);
        FirstShelfBegins(items[1..], [items[0]]);
        TightBreaksBelow(open, Pack(items[1..], [items[0]]));
        assert Pack(items[1..], [items[0]])[0][0] == items[0];
      } else {
        WidthAppend(open, items[0]);
        TightIsTightBreaks(items[1..], open + [items[0]]);
      }
    }
  }

  /** Tight breaks depend on the widths alone. */
  lemma {:induction false} TightSameWidths(items: seq<Size>, others: seq<Size>, used: nat, last: nat)
    requires SameWidths(items, others)
    ensures Tight(items, used, last) <==> Tight(others, used, last)
    decreases |items|
  {
    if items != [] {
      var w := items[0].w;
      assert others[0].w == w;
      TightSameWidths(items[1..], others[1..], if used + w > COLUMNS then w else used + w, w);
    }
  }

  // ---- Tight breaks suffice ----

  /**
    With tight breaks no group reaches over a break. `below` is the height of the groups already done
    within the current shelf, `cap` the height of the current group, which has `begun` or not.
   */
  lemma {:induction false} RiseWithinGroups(items: seq<Size>, used: nat, tall: nat, last: nat, begun: bool,
                                            below: nat, cap: nat, current: seq<Size>, later: seq<seq<Size>>)
    requires items == current + Flatten(later) && Feasible(later)
    requires Tight(items, used, last)
    requires Width(current) + (if begun then last else 0) <= COLUMNS && Height(current) <= cap
    requires tall <= below + if begun then cap else 0
    ensures Rise(items, used, tall) <= below + cap + StackHeight(later)
    decreases |items|, |later|
  {
    if current != [] {
      WidthHead(current);
      var rest, w, h := current[1..], items[0].w, items[0].h;
      assert items[1..] == rest + Flatten(later) && current[0] == items[0];
      if used + w > COLUMNS {
        RiseWithinGroups(items[1..], w, h, w, true, 0, cap, rest, later);
      } else {
        RiseWithinGroups(items[1..], used + w, Max(tall, h), w, true, below, cap, rest, later);
      }
    } else if later != [] {
      assert items == later[0] + Flatten(later[1..]);
      RiseWithinGroups(items, used, tall, last, false, below + cap, Height(later[0]), later[0], later[1..]);
    }
  }

  lemma PackIsRise(items: seq<Size>)
    requires items != []
    ensures StackHeight(Pack(items, [])) == Rise(items[1..], items[0].w, items[0].h)
  {
    assert [] + [items[0]] == [items[0]];
    WidthOne(items[0]);
    PackRise(items[1..], [items[0]]);
  }

  /** If the breaks of the row are tight it is the lowest, whatever the heights. */
  lemma TightIsLowest(items: seq<Size>)
    requires TightBreaks(Pack(items, []))
    ensures Lowest(items)
  {
    forall groups: seq<seq<Size>> | Splits(groups, items) ensures StackHeight(Pack(items, [])) <= StackHeight(groups) {
      if items != [] {
        PackIsRise(items);
        assert [] + [items[0]] == [items[0]];
        TightIsTightBreaks(items[1..], [items[0]]);
        WidthOne(items[0]);
        FlattenWidth(groups);
        assert items == groups[0] + Flatten(groups[1..]);
        RiseFromStart(items, groups);
      }
    }
  }

  lemma RiseFromStart(items: seq<Size>, groups: seq<seq<Size>>)
    requires items != [] && Splits(groups, items) && Narrow(items)
    requires Tight(items[1..], items[0].w, items[0].w)
    ensures Rise(items[1..], items[0].w, items[0].h) <= StackHeight(groups)
  {
    assert Tight(items, 0, 0);
    assert Rise(items, 0, 0) == Rise(items[1..], items[0].w, items[0].h);
    RiseWithinGroups(items, 0, 0, 0, false, 0, Height(groups[0]), groups[0], groups[1..]);
  }

  // ---- and are needed ----

  /** Item `i` starts a new shelf. */
  predicate BreaksAt(items: seq<Size>, used: nat, i: nat)
    requires i < |items|
    decreases i
  {
    var w := items[0].w;
    if i == 0 then used + w > COLUMNS
    else BreaksAt(items[1..], if used + w > COLUMNS then w else used + w, i - 1)
  }

  lemma {:induction false} LooseBreak(items: seq<Size>, used: nat, last: nat) returns (i: nat)
    requires !Tight(items, used, last)
    ensures i < |items| && BreaksAt(items, used, i)
    ensures (if i == 0 then last else items[i - 1].w) + items[i].w <= COLUMNS
    decreases |items|
  {
    var w := items[0].w;
    if used + w > COLUMNS && last + w <= COLUMNS {
      i := 0;
    } else {
      var j := LooseBreak(items[1..], if used + w > COLUMNS then w else used + w, w);
      i := j + 1;
    }
  }

  lemma {:induction false} BreaksSameWidths(items: seq<Size>, others: seq<Size>, used: nat, i: nat)
    requires SameWidths(items, others) && i < |items|
    ensures BreaksAt(items, used, i) <==> BreaksAt(others, used, i)
    decreases i
  {
    var w := items[0].w;
    assert others[0].w == w;
    if i > 0 {
      BreaksSameWidths(items[1..], others[1..], if used + w > COLUMNS then w else used + w, i - 1);
    }
  }

  lemma {:induction false} RiseAtLeast(items: seq<Size>, used: nat, tall: nat)
    ensures Rise(items, used, tall) >= tall
    decreases |items|
  {
    if items != [] && used + items[0].w <= COLUMNS {
      RiseAtLeast(items[1..], used + items[0].w, Max(tall, items[0].h));
    }
  }

  /** The items on both sides of a break both count in full. */
  lemma {:induction false} RiseAcrossBreak(items: seq<Size>, used: nat, tall: nat, i: nat)
    requires i < |items| && BreaksAt(items, used, i)
    ensures Rise(items, used, tall) >= (if i == 0 then tall else items[i - 1].h) + items[i].h
    decreases i
  {
    var w, h := items[0].w, items[0].h;
    if i == 0 {
      RiseAtLeast(items[1..], w, h);
    } else if used + w > COLUMNS {
      RiseAcrossBreak(items[1..], w, h, i - 1);
    } else {
      RiseAcrossBreak(items[1..], used + w, Max(tall, h), i - 1);
    }
  }

  /** The same widths with the two items at a break high and all others flat. */
  function Raised(items: seq<Size>, i: nat): (others: seq<Size>)
    ensures SameWidths(items, others)
    ensures forall k :: 0 <= k < |others| ==> others[k].h == if k == i || k == i + 1 then |items| else 1
  {
    seq(|items|, k requires 0 <= k < |items| => Size(items[k].w, if k == i || k == i + 1 then |items| else 1))
  }

  /** Every item by itself. */
  function Singles(items: seq<Size>): (groups: seq<seq<Size>>)
    ensures |groups| == |items| && forall k :: 0 <= k < |items| ==> groups[k] == [items[k]]
  {
    seq(|items|, k requires 0 <= k < |items| => [items[k]])
  }

  function TotalHeight(items: seq<Size>): nat
  {
    if items == [] then 0 else items[0].h + TotalHeight(items[1..])
  }

  lemma {:induction false} SinglesSplit(items: seq<Size>)
    ensures Flatten(Singles(items)) == items && StackHeight(Singles(items)) == TotalHeight(items)
    ensures Narrow(items) ==> Feasible(Singles(items))
    decreases |items|
  {
    if items != [] {
      SinglesSplit(items[1..]);
      assert Singles(items)[1..] == Singles(items[1..]);
      assert items == [items[0]] + items[1..];
      WidthOne(items[0]);
    }
    SinglesFit(items);
  }

  lemma SinglesFit(items: seq<Size>)
    ensures Narrow(items) ==> Feasible(Singles(items))
  {
    forall k | 0 <= k < |items| ensures Width(Singles(items)[k]) == items[k].w {
      WidthOne(items[k]);
    }
  }

  lemma {:induction false} FlatTotal(items: seq<Size>)
    requires forall k :: 0 <= k < |items| ==> items[k].h == 1
    ensures TotalHeight(items) == |items|
    decreases |items|
  {
    if items != [] {
      FlatTotal(items[1..]);
    }
  }

  lemma {:induction false} FlattenJoin(a: seq<seq<Size>>, b: seq<seq<Size>>)
    ensures Flatten(a + b) == Flatten(a) + Flatten(b)
    ensures StackHeight(a + b) == StackHeight(a) + StackHeight(b)
    decreases |a|
  {
    if a == [] {
      assert a + b == b;
    } else {
      FlattenJoin(a[1..], b);
      assert (a + b)[1..] == a[1..] + b;
    }
  }

  /** Every item by itself, except two neighbours that share a group. */
  function Paired(items: seq<Size>, i: nat): seq<seq<Size>>
    requires i + 1 < |items|
  {
    Singles(items[..i]) + ([[items[i], items[i + 1]]] + Singles(items[i + 2..]))
  }

  lemma PairedSplits(items: seq<Size>, i: nat)
    requires i + 1 < |items| && Narrow(items) && items[i].w + items[i + 1].w <= COLUMNS
    ensures Splits(Paired(items, i), items)
    ensures StackHeight(Paired(items, i))
            == TotalHeight(items[..i]) + Max(items[i].h, items[i + 1].h) + TotalHeight(items[i + 2..])
  {
    var front, pair, back := items[..i], [items[i], items[i + 1]], items[i + 2..];
    SinglesSplit(front);
    PairFirst(items[i], items[i + 1], back);
    SplitsJoin(Singles(front), [pair] + Singles(back), front, pair + back);
    assert items == front + (pair + back);
  }

  lemma PairFirst(a: Size, b: Size, back: seq<Size>)
    requires a.w + b.w <= COLUMNS && Narrow(back)
    ensures Splits([[a, b]] + Singles(back), [a, b] + back)
    ensures StackHeight([[a, b]] + Singles(back)) == Max(a.h, b.h) + TotalHeight(back)
  {
    SinglesSplit(back);
    PairAlone(a, b);
    SplitsJoin([[a, b]], Singles(back), [a, b], back);
  }

  lemma PairAlone(a: Size, b: Size)
    requires a.w + b.w <= COLUMNS
    ensures Splits([[a, b]], [a, b]) && StackHeight([[a, b]]) == Max(a.h, b.h)
  {
    PairSize(a, b);
    assert [[a, b]][1..] == [];
    assert [a, b] + [] == [a, b];
  }

  lemma SplitsJoin(a: seq<seq<Size>>, b: seq<seq<Size>>, first: seq<Size>, second: seq<Size>)
    requires Splits(a, first) && Splits(b, second)
    ensures Splits(a + b, first + second) && StackHeight(a + b) == StackHeight(a) + StackHeight(b)
  {
    FlattenJoin(a, b);
  }

  /** A loose break and heights at which the row is not the lowest. */
  lemma LooseIsNotLowest(items: seq<Size>, i: nat)
    requires Narrow(items) && i + 1 < |items| && items[i].w + items[i + 1].w <= COLUMNS
    requires BreaksAt(items[1..], items[0].w, i)
    ensures SameWidths(items, Raised(items, i)) && Tall(Raised(items, i)) && !Lowest(Raised(items, i))
  {
    var others, n := Raised(items, i), |items|;
    PackIsRise(others);
    assert SameWidths(items[1..], others[1..]);
    BreaksSameWidths(items[1..], others[1..], items[0].w, i);
    RiseAcrossBreak(others[1..], others[0].w, others[0].h, i);
    assert StackHeight(Pack(others, [])) >= 2 * n;
    PairedSplits(others, i);
    FlatTotal(others[..i]);
    FlatTotal(others[i + 2..]);
    assert StackHeight(Paired(others, i)) == 2 * n - 2;
  }

  /**
    The greedy row is the lowest for every choice of heights exactly if its breaks are tight: the last
    panel of a shelf and the first of the next never fit side by side. With a panel wider than the grid
    no split is feasible, and there is nothing to compare with.
   */
  lemma LowestForAllHeightsIff(items: seq<Size>)
    ensures (forall others :: SameWidths(items, others) && Tall(others) ==> Lowest(others))
            <==> (Narrow(items) ==> TightBreaks(Pack(items, [])))
  {
    if !Narrow(items) {
      forall others | SameWidths(items, others) && Tall(others) ensures Lowest(others) {
        WideIsLowest(items, others);
      }
    } else if TightBreaks(Pack(items, [])) {
      forall others | SameWidths(items, others) && Tall(others) ensures Lowest(others) {
        TightForOthers(items, others);
        TightIsLowest(others);
      }
    } else {
      assert items != [];
      assert [] + [items[0]] == [items[0]];
      WidthOne(items[0]);
      TightIsTightBreaks(items[1..], [items[0]]);
      var i := LooseBreak(items[1..], items[0].w, items[0].w);
      LooseIsNotLowest(items, i);
    }
  }

  lemma WideIsLowest(items: seq<Size>, others: seq<Size>)
    requires !Narrow(items) && SameWidths(items, others)
    ensures Lowest(others)
  {
    var i :| 0 <= i < |items| && items[i].w > COLUMNS;
    assert others[i].w > COLUMNS;
    forall groups: seq<seq<Size>> ensures !Splits(groups, others) {
      if Splits(groups, others) {
        FlattenWidth(groups);
      }
    }
  }

  lemma TightForOthers(items: seq<Size>, others: seq<Size>)
    requires SameWidths(items, others) && TightBreaks(Pack(items, []))
    ensures TightBreaks(Pack(others, []))
  {
    if items != [] {
      assert [] + [items[0]] == [items[0]] && [] + [others[0]] == [others[0]];
      WidthOne(items[0]);
      WidthOne(others[0]);
      TightIsTightBreaks(items[1..], [items[0]]);
      TightIsTightBreaks(others[1..], [others[0]]);
      TightSameWidths(items[1..], others[1..], items[0].w, items[0].w);
    }
  }
}
