/** The queries that a dashboard's targets ask: one for each target with an expression, wherever it is. */
module Queries {
  import opened Wrappers
  import opened Panels

  datatype Query = Query(dashboard: string, panel: Json, expression: string, allowEmpty: bool)

  /** Python's truth value of a document. */
  predicate Truthy(j: Json)
  {
    match j
    case Null => false
    case Bool(on) => on
    case Number(zero) => !zero
    case Text(text) => text != ""
    case Array(items) => items != []
    case Object(fields) => fields != []
  }

  /** What the script does with one target: passes over it, asks a query, or stops with an exception. */
  datatype Target = Skip | Ask(expression: string, allowEmpty: bool) | Crash

  function TargetOf(j: Json): Target
  {
    if !j.Object? then Crash
    else match Get(j, "expr")
      case None => Skip
      case Some(e) =>
        if !Truthy(e) then Skip
        else if e.Text? then
          Ask(e.text, match Get(j, "validationAllowEmpty") case Some(a) => Truthy(a) case None => false)
        else Crash
  }

  /** What iterating over a panel's targets yields; iterating over nothing is no error, whatever its type. */
  function TargetList(panel: Json): Option<seq<Json>>
  {
    match Get(panel, "targets")
    case Some(Array(items)) => Some(items)
    case Some(Text(text)) => if text == "" then Some([]) else None
    case Some(Object(fields)) => if fields == [] then Some([]) else None
    case _ => None
  }

  function Title(panel: Json): Json
  {
    match Get(panel, "title") case Some(t) => t case None => Null
  }

  function Append(a: Option<seq<Query>>, b: Option<seq<Query>>): Option<seq<Query>>
  {
    if a.Some? && b.Some? then Some(a.value + b.value) else None
  }

  function TargetQueries(uid: string, panel: Json, target: Json): Option<seq<Query>>
  {
    match TargetOf(target)
    case Skip => Some([])
    case Ask(expression, allowEmpty) => Some([Query(uid, Title(panel), expression, allowEmpty)])
    case Crash => None
  }

  /** The queries of the first `n` targets; None if one of them stops the script. */
  function TargetsQueries(uid: string, panel: Json, targets: seq<Json>, n: nat): Option<seq<Query>>
    requires n <= |targets|
  {
    if n == 0 then Some([])
    else Append(TargetsQueries(uid, panel, targets, n - 1), TargetQueries(uid, panel, targets[n - 1]))
  }

  function PanelQueries(uid: string, panel: Json): Option<seq<Query>>
  {
    match TargetList(panel)
    case Some(targets) => TargetsQueries(uid, panel, targets, |targets|)
    case None => None
  }

  function PanelsQueries(uid: string, panels: seq<Json>, n: nat): Option<seq<Query>>
    requires n <= |panels|
  {
    if n == 0 then Some([]) else Append(PanelsQueries(uid, panels, n - 1), PanelQueries(uid, panels[n - 1]))
  }

  function UidOf(file: Json): Option<string>
  {
    match Get(file, "uid") case Some(Text(uid)) => Some(uid) case _ => None
  }

  function FileQueries(file: Json): Option<seq<Query>>
  {
    match UidOf(file)
    case Some(uid) => PanelsQueries(uid, IterPanels(file), |IterPanels(file)|)
    case None => None
  }

  function FilesQueries(files: seq<Json>, n: nat): Option<seq<Query>>
    requires n <= |files|
  {
    if n == 0 then Some([]) else Append(FilesQueries(files, n - 1), FileQueries(files[n - 1]))
  }

  // ---- Where they are ----

  /** A target: which of a document's panels, and which of the panel's targets. */
  datatype Site = Site(panel: nat, target: nat)

  /** The query a site asks, if it asks one. */
  function QueryAt(uid: string, panels: seq<Json>, s: Site): Option<Query>
  {
    if s.panel < |panels| && TargetList(panels[s.panel]).Some? && s.target < |TargetList(panels[s.panel]).value| then
      TargetAsks(uid, panels[s.panel], TargetList(panels[s.panel]).value[s.target])
    else None
  }

  function TargetAsks(uid: string, panel: Json, target: Json): Option<Query>
  {
    match TargetOf(target)
    case Ask(expression, allowEmpty) => Some(Query(uid, Title(panel), expression, allowEmpty))
    case _ => None
  }

  function TargetSites(panel: nat, targets: seq<Json>, n: nat): seq<Site>
    requires n <= |targets|
  {
    if n == 0 then []
    else TargetSites(panel, targets, n - 1) + if TargetOf(targets[n - 1]).Ask? then [Site(panel, n - 1)] else []
  }

  function PanelSites(panels: seq<Json>, k: nat): seq<Site>
    requires k < |panels|
  {
    match TargetList(panels[k]) case Some(targets) => TargetSites(k, targets, |targets|) case None => []
  }

  /** The sites that ask a query, in the order in which they are visited. */
  function Sites(panels: seq<Json>, n: nat): seq<Site>
    requires n <= |panels|
  {
    if n == 0 then [] else Sites(panels, n - 1) + PanelSites(panels, n - 1)
  }

  predicate SiteBefore(s: Site, t: Site)
  {
    s.panel < t.panel || (s.panel == t.panel && s.target < t.target)
  }

  predicate InOrder(sites: seq<Site>)
  {
    forall a, b :: 0 <= a < b < |sites| ==> SiteBefore(sites[a], sites[b])
  }

  predicate Asked(uid: string, panels: seq<Json>, sites: seq<Site>, queries: seq<Query>)
  {
    |sites| == |queries| && forall a :: 0 <= a < |sites| ==> QueryAt(uid, panels, sites[a]) == Some(queries[a])
  }

  lemma AskedJoin(uid: string, panels: seq<Json>, s: seq<Site>, q: seq<Query>, s': seq<Site>, q': seq<Query>)
    requires Asked(uid, panels, s, q) && Asked(uid, panels, s', q')
    ensures Asked(uid, panels, s + s', q + q')
  {
  }

  lemma {:induction false} TargetSitesExact(k: nat, targets: seq<Json>, n: nat)
    requires n <= |targets|
    ensures InOrder(TargetSites(k, targets, n))
    ensures forall s :: s in TargetSites(k, targets, n) <==>
            s.panel == k && s.target < n && TargetOf(targets[s.target]).Ask?
    decreases n
  {
    if n > 0 {
      TargetSitesExact(k, targets, n - 1);
    }
  }

  lemma {:induction false} TargetSitesAsked(uid: string, panels: seq<Json>, k: nat, targets: seq<Json>, n: nat)
    requires k < |panels| && TargetList(panels[k]) == Some(targets) && n <= |targets|
    requires TargetsQueries(uid, panels[k], targets, n).Some?
    ensures Asked(uid, panels, TargetSites(k, targets, n), TargetsQueries(uid, panels[k], targets, n).value)
    decreases n
  {
    if n > 0 {
      TargetSitesAsked(uid, panels, k, targets, n - 1);
      var last := if TargetOf(targets[n - 1]).Ask? then [Site(k, n - 1)] else [];
      LastTargetAsked(uid, panels, k, targets, n - 1);
      AskedJoin(uid, panels, TargetSites(k, targets, n - 1), TargetsQueries(uid, panels[k], targets, n - 1).value,
                last, TargetQueries(uid, panels[k], targets[n - 1]).value);
    }
  }

  lemma LastTargetAsked(uid: string, panels: seq<Json>, k: nat, targets: seq<Json>, t: nat)
    requires k < |panels| && TargetList(panels[k]) == Some(targets) && t < |targets|
    requires TargetQueries(uid, panels[k], targets[t]).Some?
    ensures Asked(uid, panels, if TargetOf(targets[t]).Ask? then [Site(k, t)] else [],
                  TargetQueries(uid, panels[k], targets[t]).value)
  {
    assert QueryAt(uid, panels, Site(k, t)) == TargetAsks(uid, panels[k], targets[t]);
  }

  lemma {:induction false} SitesAsked(uid: string, panels: seq<Json>, n: nat)
    requires n <= |panels| && PanelsQueries(uid, panels, n).Some?
    ensures Asked(uid, panels, Sites(panels, n), PanelsQueries(uid, panels, n).value)
    ensures InOrder(Sites(panels, n))
    ensures forall s :: s in Sites(panels, n) <==> s.panel < n && QueryAt(uid, panels, s).Some?
    decreases n
  {
    if n > 0 {
      var targets := TargetList(panels[n - 1]).value;
      SitesAsked(uid, panels, n - 1);
      TargetSitesAsked(uid, panels, n - 1, targets, |targets|);
      TargetSitesExact(n - 1, targets, |targets|);
      AskedJoin(uid, panels, Sites(panels, n - 1), PanelsQueries(uid, panels, n - 1).value,
                PanelSites(panels, n - 1), PanelQueries(uid, panels[n - 1]).value);
    }
  }

  /** The query of target `t` of the node at a position of the document, if it is a panel and asks one. */
  function QueryAtPath(uid: string, file: Json, p: Path, t: nat): Option<Query>
  {
    if At(file, p).Some? && IsPanel(At(file, p).value) && TargetList(At(file, p).value).Some?
       && t < |TargetList(At(file, p).value).value| then
      TargetAsks(uid, At(file, p).value, TargetList(At(file, p).value).value[t])
    else None
  }

  /**
    A file's queries are exactly those of its targets with an expression, one for each target of each
    panel-shaped node at any depth, in order: query `i` is that of `sites[i]`, the sites are strictly
    increasing, and every position and target that asks a query is among them.
   */
  lemma OneQueryPerTarget(file: Json) returns (sites: seq<Site>)
    requires FileQueries(file).Some?
    ensures |sites| == |FileQueries(file).value| && InOrder(sites)
    ensures forall i :: 0 <= i < |sites| ==>
              sites[i].panel < |Trail(file)|
              && QueryAtPath(UidOf(file).value, file, Trail(file)[sites[i].panel], sites[i].target)
                 == Some(FileQueries(file).value[i])
    ensures forall p, t: nat :: QueryAtPath(UidOf(file).value, file, p, t).Some? ==>
              exists k: nat :: k < |Trail(file)| && Trail(file)[k] == p && Site(k, t) in sites
  {
    var uid, panels, trail := UidOf(file).value, IterPanels(file), Trail(file);
    sites := Sites(panels, |panels|);
    SitesAsked(uid, panels, |panels|);
    EachPanelOnce(file);
    forall i | 0 <= i < |sites|
      ensures sites[i].panel < |trail|
              && QueryAtPath(uid, file, trail[sites[i].panel], sites[i].target) == Some(FileQueries(file).value[i])
    {
      assert sites[i] in sites;
      SamePlace(uid, file, sites[i]);
    }
    forall p, t: nat | QueryAtPath(uid, file, p, t).Some?
      ensures exists k: nat :: k < |trail| && trail[k] == p && Site(k, t) in sites
    {
      assert p in trail;
      var k :| 0 <= k < |trail| && trail[k] == p;
      SamePlace(uid, file, Site(k, t));
    }
  }

  lemma SamePlace(uid: string, file: Json, s: Site)
    requires s.panel < |Trail(file)|
    ensures QueryAtPath(uid, file, Trail(file)[s.panel], s.target) == QueryAt(uid, IterPanels(file), s)
  {
    EachPanelOnce(file);
    assert Trail(file)[s.panel] in Trail(file);
  }
}
