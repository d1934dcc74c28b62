/** The nodes of a dashboard that look like panels, at any depth, each found exactly once. */
module Panels {
  import opened Wrappers

  datatype Field = Field(key: string, value: Json)

  /** A decoded JSON document; the fields of an object are in the order of the text. */
  datatype Json =
    | Null
    | Bool(on: bool)
    | Number(zero: bool)
    | Text(text: string)
    | Array(items: seq<Json>)
    | Object(fields: seq<Field>)

  function FieldOf(fields: seq<Field>, key: string): Option<Json>
  {
    if fields == [] then None
    else if fields[0].key == key then Some(fields[0].value)
    else FieldOf(fields[1..], key)
  }

  /** The value of an object's key. */
  function Get(j: Json, key: string): Option<Json>
  {
    if j.Object? then FieldOf(j.fields, key) else None
  }

  predicate IsPanel(j: Json)
  {
    Get(j, "targets").Some? && Get(j, "title").Some?
  }

  /** The documents directly inside one, in order. */
  function Children(j: Json): (cs: seq<Json>)
    ensures forall k :: 0 <= k < |cs| ==> cs[k] < j
  {
    match j
    case Array(items) => items
    case Object(fields) => seq(|fields|, k requires 0 <= k < |fields| => fields[k].value)
    case _ => []
  }

  /** The panels in the order in which the walk yields them. */
  function IterPanels(j: Json): seq<Json>
    decreases j, |Children(j)| + 1
  {
    (if IsPanel(j) then [j] else []) + IterFrom(j, 0)
  }

  function IterFrom(j: Json, k: nat): seq<Json>
    requires k <= |Children(j)|
    decreases j, |Children(j)| - k
  {
    if k == |Children(j)| then [] else IterPanels(Children(j)[k]) + IterFrom(j, k + 1)
  }

  // ---- Positions ----

  /** A position in a document: which child to enter, again and again. */
  type Path = seq<nat>

  function At(j: Json, p: Path): Option<Json>
  {
    if p == [] then Some(j)
    else if p[0] < |Children(j)| then At(Children(j)[p[0]], p[1..])
    else None
  }

  /** Before it in reading order: above it, or in an earlier child. */
  predicate Before(p: Path, q: Path)
  {
    if p == [] then q != []
    else q != [] && (p[0] < q[0] || (p[0] == q[0] && Before(p[1..], q[1..])))
  }

  predicate Increasing(ps: seq<Path>)
  {
    forall a, b :: 0 <= a < b < |ps| ==> Before(ps[a], ps[b])
  }

  /** The positions list these nodes. */
  predicate Locates(j: Json, ps: seq<Path>, nodes: seq<Json>)
  {
    |ps| == |nodes| && forall a :: 0 <= a < |ps| ==> At(j, ps[a]) == Some(nodes[a])
  }

  function Enter(k: nat, ps: seq<Path>): (qs: seq<Path>)
    ensures |qs| == |ps| && forall a :: 0 <= a < |ps| ==> qs[a] == [k] + ps[a]
  {
    seq(|ps|, a requires 0 <= a < |ps| => [k] + ps[a])
  }

  /** The positions of the panels, found like the panels themselves. */
  function Trail(j: Json): seq<Path>
    decreases j, |Children(j)| + 1
  {
    (if IsPanel(j) then [[]] else []) + TrailFrom(j, 0)
  }

  function TrailFrom(j: Json, k: nat): seq<Path>
    requires k <= |Children(j)|
    decreases j, |Children(j)| - k
  {
    if k == |Children(j)| then [] else Enter(k, Trail(Children(j)[k])) + TrailFrom(j, k + 1)
  }

  predicate AllFrom(ps: seq<Path>, k: nat)
  {
    forall a :: 0 <= a < |ps| ==> ps[a] != [] && ps[a][0] >= k
  }

  lemma AtEntered(j: Json, k: nat, p: Path)
    requires k < |Children(j)|
    ensures At(j, [k] + p) == At(Children(j)[k], p)
  {
    assert ([k] + p)[1..] == p;
  }

  lemma {:induction false} TrailLocates(j: Json)
    ensures Locates(j, Trail(j), IterPanels(j))
    decreases j, |Children(j)| + 1
  {
    TrailFromLocates(j, 0);
  }

  lemma {:induction false} TrailFromLocates(j: Json, k: nat)
    requires k <= |Children(j)|
    ensures Locates(j, TrailFrom(j, k), IterFrom(j, k)) && AllFrom(TrailFrom(j, k), k)
    decreases j, |Children(j)| - k
  {
    if k < |Children(j)| {
      TrailLocates(Children(j)[k]);
      TrailFromLocates(j, k + 1);
      EnterLocates(j, k, Trail(Children(j)[k]), IterPanels(Children(j)[k]));
      LocatesJoin(j, k, Enter(k, Trail(Children(j)[k])), IterPanels(Children(j)[k]),
                  TrailFrom(j, k + 1), IterFrom(j, k + 1));
    }
  }

  lemma EnterLocates(j: Json, k: nat, ps: seq<Path>, found: seq<Json>)
    requires k < |Children(j)| && Locates(Children(j)[k], ps, found)
    ensures Locates(j, Enter(k, ps), found) && AllFrom(Enter(k, ps), k)
  {
    forall a | 0 <= a < |ps| ensures At(j, Enter(k, ps)[a]) == Some(found[a]) {
      AtEntered(j, k, ps[a]);
    }
  }

  lemma LocatesJoin(j: Json, k: nat, ps: seq<Path>, found: seq<Json>, qs: seq<Path>, found': seq<Json>)
    requires Locates(j, ps, found) && AllFrom(ps, k) && Locates(j, qs, found') && AllFrom(qs, k + 1)
    ensures Locates(j, ps + qs, found + found') && AllFrom(ps + qs, k)
  {
  }

  lemma BeforeEntered(k: nat, p: Path, q: Path)
    requires Before(p, q)
    ensures Before([k] + p, [k] + q)
  {
    assert ([k] + p)[1..] == p && ([k] + q)[1..] == q;
  }

  lemma EnterIncreasing(k: nat, ps: seq<Path>)
    requires Increasing(ps)
    ensures Increasing(Enter(k, ps))
  {
    var qs := Enter(k, ps);
    forall a, b | 0 <= a < b < |qs| ensures Before(qs[a], qs[b]) {
      BeforeEntered(k, ps[a], ps[b]);
    }
  }

  lemma JoinIncreasing(ps: seq<Path>, qs: seq<Path>)
    requires Increasing(ps) && Increasing(qs)
    requires forall a, b :: 0 <= a < |ps| && 0 <= b < |qs| ==> Before(ps[a], qs[b])
    ensures Increasing(ps + qs)
  {
  }

  lemma {:induction false} TrailIncreasing(j: Json)
    ensures Increasing(Trail(j))
    decreases j, |Children(j)| + 1
  {
    TrailFromIncreasing(j, 0);
    TrailFromLocates(j, 0);
  }

  lemma {:induction false} TrailFromIncreasing(j: Json, k: nat)
    requires k <= |Children(j)|
    ensures Increasing(TrailFrom(j, k))
    decreases j, |Children(j)| - k
  {
    if k < |Children(j)| {
      TrailIncreasing(Children(j)[k]);
      EnterIncreasing(k, Trail(Children(j)[k]));
      TrailFromIncreasing(j, k + 1);
      TrailFromLocates(j, k + 1);
      JoinIncreasing(Enter(k, Trail(Children(j)[k])), TrailFrom(j, k + 1));
    }
  }

  lemma {:induction false} TrailComplete(j: Json, p: Path)
    requires At(j, p).Some? && IsPanel(At(j, p).value)
    ensures p in Trail(j)
    decreases |p|
  {
    if p == [] {
      assert Trail(j)[0] == [];
    } else {
      TrailComplete(Children(j)[p[0]], p[1..]);
      InTrailFrom(j, 0, p);
    }
  }

  lemma {:induction false} InTrailFrom(j: Json, k: nat, p: Path)
    requires p != [] && k <= p[0] < |Children(j)| && p[1..] in Trail(Children(j)[p[0]])
    ensures p in TrailFrom(j, k)
    decreases |Children(j)| - k
  {
    if k == p[0] {
      var t := Trail(Children(j)[k]);
      var a :| 0 <= a < |t| && t[a] == p[1..];
      assert Enter(k, t)[a] == p;
      assert p in Enter(k, t);
    } else {
      InTrailFrom(j, k + 1, p);
    }
  }

  lemma {:induction false} IterYieldsPanels(j: Json)
    ensures forall a :: 0 <= a < |IterPanels(j)| ==> IsPanel(IterPanels(j)[a])
    decreases j, |Children(j)| + 1
  {
    IterFromYieldsPanels(j, 0);
  }

  lemma {:induction false} IterFromYieldsPanels(j: Json, k: nat)
    requires k <= |Children(j)|
    ensures forall a :: 0 <= a < |IterFrom(j, k)| ==> IsPanel(IterFrom(j, k)[a])
    decreases j, |Children(j)| - k
  {
    if k < |Children(j)| {
      IterYieldsPanels(Children(j)[k]);
      IterFromYieldsPanels(j, k + 1);
    }
  }

  /** The order of positions is strict. */
  lemma {:induction false} BeforeIsStrict(p: Path, q: Path)
    requires Before(p, q)
    ensures p != q && !Before(q, p)
    decreases |p|
  {
    if p != [] && p[0] == q[0] {
      BeforeIsStrict(p[1..], q[1..]);
    }
  }

  /**
    The walk yields exactly the panel-shaped nodes, at any depth, each once, in reading order: its results
    are the nodes at strictly increasing positions, and every position of a panel is among them.
   */
  lemma EachPanelOnce(j: Json)
    ensures Locates(j, Trail(j), IterPanels(j)) && Increasing(Trail(j))
    ensures forall a, b :: 0 <= a < b < |Trail(j)| ==> Trail(j)[a] != Trail(j)[b]
    ensures forall p :: p in Trail(j) <==> At(j, p).Some? && IsPanel(At(j, p).value)
  {
    TrailLocates(j);
    TrailIncreasing(j);
    IterYieldsPanels(j);
    forall a, b | 0 <= a < b < |Trail(j)| ensures Trail(j)[a] != Trail(j)[b] {
      BeforeIsStrict(Trail(j)[a], Trail(j)[b]);
    }
    forall p ensures p in Trail(j) <==> At(j, p).Some? && IsPanel(At(j, p).value) {
      if At(j, p).Some? && IsPanel(At(j, p).value) {
        TrailComplete(j, p);
      }
    }
  }
}
