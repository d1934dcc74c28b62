/** What the script finds in a document, in terms of its fields and items as they are written. */
module Documents {
  import opened Wrappers
  import opened Panels
  import opened Queries

  /** The object has a field with this key. */
  predicate HasKey(j: Json, key: string)
  {
    j.Object? && exists f :: f in j.fields && f.key == key
  }

  /** The object's field with this key, the first if there are several, has this value. */
  ghost predicate HasField(j: Json, key: string, value: Json)
  {
    j.Object? && exists k :: 0 <= k < |j.fields| && FirstField(j.fields, k, key, value)
  }

  predicate FirstField(fields: seq<Field>, k: nat, key: string, value: Json)
    requires k < |fields|
  {
    fields[k] == Field(key, value) && forall m :: 0 <= m < k ==> fields[m].key != key
  }

  /** The document at a position: the p[0]-th item or field value of it, and so on. */
  function Node(j: Json, p: Path): Option<Json>
  {
    if p == [] then Some(j)
    else if j.Array? && p[0] < |j.items| then Node(j.items[p[0]], p[1..])
    else if j.Object? && p[0] < |j.fields| then Node(j.fields[p[0]].value, p[1..])
    else None
  }

  predicate IsFalsy(j: Json)
  {
    j == Null || j == Bool(false) || j == Number(true) || j == Text("") || j == Array([]) || j == Object([])
  }

  // ---- Keys and positions ----

  lemma {:induction false} FieldFound(fields: seq<Field>, key: string) returns (k: nat)
    requires exists f :: f in fields && f.key == key
    ensures k < |fields| && FieldOf(fields, key) == Some(fields[k].value) && FirstField(fields, k, key, fields[k].value)
    decreases |fields|
  {
    if fields[0].key == key {
      k := 0;
    } else {
      assert exists f :: f in fields[1..] && f.key == key;
      var l := FieldFound(fields[1..], key);
      k := l + 1;
      forall m | 0 <= m < k ensures fields[m].key != key {
        if m > 0 { assert fields[1..][m - 1] == fields[m]; }
      }
    }
  }

  lemma {:induction false} FieldMissing(fields: seq<Field>, key: string)
    requires forall f :: f in fields ==> f.key != key
    ensures FieldOf(fields, key).None?
    decreases |fields|
  {
    if fields != [] {
      FieldMissing(fields[1..], key);
    }
  }

  lemma HasKeyIff(j: Json, key: string)
    ensures HasKey(j, key) <==> Get(j, key).Some?
  {
    if HasKey(j, key) {
      var k := FieldFound(j.fields, key);
    } else if j.Object? {
      FieldMissing(j.fields, key);
    }
  }

  lemma {:induction false} FieldAt(fields: seq<Field>, k: nat, key: string, value: Json)
    requires k < |fields| && FirstField(fields, k, key, value)
    ensures FieldOf(fields, key) == Some(value)
    decreases k
  {
    if k > 0 {
      assert fields[0].key != key;
      forall m | 0 <= m < k - 1 ensures fields[1..][m].key != key {
        assert fields[1..][m] == fields[m + 1];
      }
      FieldAt(fields[1..], k - 1, key, value);
    }
  }

  lemma HasFieldIff(j: Json, key: string, value: Json)
    ensures HasField(j, key, value) <==> Get(j, key) == Some(value)
  {
    if HasField(j, key, value) {
      var l :| 0 <= l < |j.fields| && FirstField(j.fields, l, key, value);
      FieldAt(j.fields, l, key, value);
    } else if Get(j, key).Some? {
      HasKeyIff(j, key);
      var k := FieldFound(j.fields, key);
    }
  }

  lemma {:induction false} NodeIsAt(j: Json, p: Path)
    ensures Node(j, p) == At(j, p)
    decreases |p|
  {
    if p != [] && p[0] < |Children(j)| {
      NodeIsAt(Children(j)[p[0]], p[1..]);
    }
  }

  lemma FalsyIff(j: Json)
    ensures IsFalsy(j) <==> !Truthy(j)
  {
  }

  // ---- Panels ----

  predicate IsPanelNode(j: Json)
  {
    HasKey(j, "targets") && HasKey(j, "title")
  }

  lemma PanelNodeIff(j: Json)
    ensures IsPanelNode(j) <==> IsPanel(j)
  {
    HasKeyIff(j, "targets");
    HasKeyIff(j, "title");
  }

  /**
    The walk yields exactly the objects that have a field `targets` and a field `title`, at any depth, each
    once, in the order of their positions.
   */
  lemma PanelsAsWritten(j: Json)
    ensures |Trail(j)| == |IterPanels(j)| && Increasing(Trail(j))
    ensures forall a :: 0 <= a < |Trail(j)| ==> Node(j, Trail(j)[a]) == Some(IterPanels(j)[a])
    ensures forall p :: p in Trail(j) <==>
              Node(j, p).Some? && HasKey(Node(j, p).value, "targets") && HasKey(Node(j, p).value, "title")
  {
    EachPanelOnce(j);
    forall a | 0 <= a < |Trail(j)| ensures Node(j, Trail(j)[a]) == Some(IterPanels(j)[a]) {
      NodeIsAt(j, Trail(j)[a]);
    }
    forall p ensures p in Trail(j) <==> Node(j, p).Some? && IsPanelNode(Node(j, p).value) {
      NodeIsAt(j, p);
      if Node(j, p).Some? {
        PanelNodeIff(Node(j, p).value);
      }
    }
  }

  // ---- Queries ----

  /** The t-th target of the panel asks the query. */
  ghost predicate TargetAsksFor(uid: string, panel: Json, t: nat, q: Query)
  {
    exists items: seq<Json> ::
      && HasField(panel, "targets", Array(items)) && t < |items|
      && q.dashboard == uid && HasField(panel, "title", q.panel)
      && HasField(items[t], "expr", Text(q.expression)) && q.expression != ""
      && (q.allowEmpty <==> MayBeEmpty(items[t]))
  }

  ghost predicate MayBeEmpty(target: Json)
  {
    exists a :: HasField(target, "validationAllowEmpty", a) && !IsFalsy(a)
  }

  lemma MayBeEmptyIff(target: Json)
    ensures MayBeEmpty(target) <==>
            match Get(target, "validationAllowEmpty") case Some(a) => Truthy(a) case None => false
  {
    match Get(target, "validationAllowEmpty")
    case Some(a) =>
      HasFieldIff(target, "validationAllowEmpty", a);
      FalsyIff(a);
      if MayBeEmpty(target) {
        var b :| HasField(target, "validationAllowEmpty", b) && !IsFalsy(b);
        HasFieldIff(target, "validationAllowEmpty", b);
      }
    case None =>
      if MayBeEmpty(target) {
        var b :| HasField(target, "validationAllowEmpty", b) && !IsFalsy(b);
        HasFieldIff(target, "validationAllowEmpty", b);
      }
  }

  lemma TargetAsWritten(target: Json, expression: string, allowEmpty: bool)
    ensures TargetOf(target) == Ask(expression, allowEmpty) <==>
            HasField(target, "expr", Text(expression)) && expression != "" && (allowEmpty <==> MayBeEmpty(target))
  {
    HasFieldIff(target, "expr", Text(expression));
    MayBeEmptyIff(target);
  }

  lemma AskedAsWritten(uid: string, panel: Json, t: nat, q: Query)
    requires IsPanel(panel)
    ensures TargetAsksFor(uid, panel, t, q) <==>
            TargetList(panel).Some? && t < |TargetList(panel).value|
            && TargetAsks(uid, panel, TargetList(panel).value[t]) == Some(q)
  {
    HasFieldIff(panel, "title", q.panel);
    if TargetAsksFor(uid, panel, t, q) {
      var items: seq<Json> :|
        && HasField(panel, "targets", Array(items)) && t < |items|
        && HasField(items[t], "expr", Text(q.expression)) && (q.allowEmpty <==> MayBeEmpty(items[t]));
      HasFieldIff(panel, "targets", Array(items));
      TargetAsWritten(items[t], q.expression, q.allowEmpty);
    }
    if TargetList(panel).Some? && t < |TargetList(panel).value| {
      var items := TargetList(panel).value;
      HasFieldIff(panel, "targets", Array(items));
      TargetAsWritten(items[t], q.expression, q.allowEmpty);
    }
  }

  /** The t-th target at the position asks the query. */
  ghost predicate AsksAt(uid: string, file: Json, p: Path, t: nat, q: Query)
  {
    && Node(file, p).Some? && HasKey(Node(file, p).value, "targets") && HasKey(Node(file, p).value, "title")
    && TargetAsksFor(uid, Node(file, p).value, t, q)
  }

  lemma AsksAtIff(uid: string, file: Json, p: Path, t: nat, q: Query)
    ensures AsksAt(uid, file, p, t, q) <==> QueryAtPath(uid, file, p, t) == Some(q)
  {
    NodeIsAt(file, p);
    if Node(file, p).Some? {
      var panel := Node(file, p).value;
      PanelNodeIff(panel);
      if IsPanel(panel) {
        AskedAsWritten(uid, panel, t, q);
      }
    }
  }

  /**
    A file's queries are those that its targets ask as they are written, one for each target of each panel, in the
    order of their positions; and no target asks any other.
   */
  lemma QueriesAsWritten(file: Json, uid: string) returns (sites: seq<Site>)
    requires FileQueries(file).Some? && HasField(file, "uid", Text(uid))
    ensures |sites| == |FileQueries(file).value| && InOrder(sites)
    ensures forall i :: 0 <= i < |sites| ==>
              sites[i].panel < |Trail(file)|
              && AsksAt(uid, file, Trail(file)[sites[i].panel], sites[i].target, FileQueries(file).value[i])
    ensures forall p, t: nat, q :: AsksAt(uid, file, p, t, q) ==>
              exists k: nat :: k < |Trail(file)| && Trail(file)[k] == p && Site(k, t) in sites
  {
    HasFieldIff(file, "uid", Text(uid));
    sites := OneQueryPerTarget(file);
    forall i | 0 <= i < |sites|
      ensures AsksAt(uid, file, Trail(file)[sites[i].panel], sites[i].target, FileQueries(file).value[i])
    {
      AsksAtIff(uid, file, Trail(file)[sites[i].panel], sites[i].target, FileQueries(file).value[i]);
    }
    forall p, t: nat, q | AsksAt(uid, file, p, t, q)
      ensures exists k: nat :: k < |Trail(file)| && Trail(file)[k] == p && Site(k, t) in sites
    {
      AsksAtIff(uid, file, p, t, q);
    }
  }

  // ---- Documents on which the script stops ----

  /** The target is an object, and what `expr` it has is a text or counts as nothing. */
  ghost predicate GoodTarget(target: Json)
  {
    target.Object? && (HasKey(target, "expr") ==> exists e :: HasField(target, "expr", e) && (IsFalsy(e) || e.Text?))
  }

  /** The panel's targets are good ones in an array, or something else that is empty. */
  ghost predicate GoodPanel(panel: Json)
  {
    HasField(panel, "targets", Text("")) || HasField(panel, "targets", Object([])) ||
    exists items: seq<Json> ::
      HasField(panel, "targets", Array(items)) && forall k :: 0 <= k < |items| ==> GoodTarget(items[k])
  }

  /** The file names its dashboard, and all its panels are good. */
  ghost predicate GoodFile(file: Json)
  {
    && (exists uid :: HasField(file, "uid", Text(uid)))
    && forall p :: Node(file, p).Some? && HasKey(Node(file, p).value, "targets") && HasKey(Node(file, p).value, "title")
         ==> GoodPanel(Node(file, p).value)
  }

  lemma GoodTargetIff(target: Json)
    ensures GoodTarget(target) <==> !TargetOf(target).Crash?
  {
    HasKeyIff(target, "expr");
    if Get(target, "expr").Some? {
      var e := Get(target, "expr").value;
      HasFieldIff(target, "expr", e);
      FalsyIff(e);
      if GoodTarget(target) {
        var d :| HasField(target, "expr", d) && (IsFalsy(d) || d.Text?);
        HasFieldIff(target, "expr", d);
      }
    }
  }

  lemma {:induction false} TargetsGoodIff(uid: string, panel: Json, targets: seq<Json>, n: nat)
    requires n <= |targets|
    ensures TargetsQueries(uid, panel, targets, n).Some? <==> forall k :: 0 <= k < n ==> GoodTarget(targets[k])
    decreases n
  {
    if n > 0 {
      TargetsGoodIff(uid, panel, targets, n - 1);
      GoodTargetIff(targets[n - 1]);
    }
  }

  lemma GoodPanelIff(uid: string, panel: Json)
    ensures GoodPanel(panel) <==> PanelQueries(uid, panel).Some?
  {
    HasFieldIff(panel, "targets", Text(""));
    HasFieldIff(panel, "targets", Object([]));
    if GoodPanel(panel) && !HasField(panel, "targets", Text("")) && !HasField(panel, "targets", Object([])) {
      var items: seq<Json> :|
        HasField(panel, "targets", Array(items)) && forall k :: 0 <= k < |items| ==> GoodTarget(items[k]);
      HasFieldIff(panel, "targets", Array(items));
    }
    if TargetList(panel).Some? {
      var items := TargetList(panel).value;
      HasFieldIff(panel, "targets", Array(items));
      TargetsGoodIff(uid, panel, items, |items|);
    }
  }

  lemma {:induction false} PanelsPassIff(uid: string, panels: seq<Json>, n: nat)
    requires n <= |panels|
    ensures PanelsQueries(uid, panels, n).Some? <==> forall k :: 0 <= k < n ==> PanelQueries(uid, panels[k]).Some?
    decreases n
  {
    if n > 0 {
      PanelsPassIff(uid, panels, n - 1);
    }
  }

  lemma PanelsGoodIff(uid: string, panels: seq<Json>)
    ensures PanelsQueries(uid, panels, |panels|).Some? <==> forall k :: 0 <= k < |panels| ==> GoodPanel(panels[k])
  {
    PanelsPassIff(uid, panels, |panels|);
    forall k | 0 <= k < |panels| ensures GoodPanel(panels[k]) <==> PanelQueries(uid, panels[k]).Some? {
      GoodPanelIff(uid, panels[k]);
    }
  }

  /** The script gets through a file exactly if it is good. */
  lemma GoodFileIff(file: Json)
    ensures GoodFile(file) <==> FileQueries(file).Some?
  {
    UidAsWritten(file);
    if UidOf(file).Some? {
      PanelsAsWritten(file);
      PanelsGoodIff(UidOf(file).value, IterPanels(file));
      if FileQueries(file).Some? {
        forall p | p in Trail(file) ensures GoodPanel(Node(file, p).value) {
          var a :| 0 <= a < |Trail(file)| && Trail(file)[a] == p;
          assert GoodPanel(IterPanels(file)[a]);
        }
      } else {
        var k :| 0 <= k < |IterPanels(file)| && !GoodPanel(IterPanels(file)[k]);
        assert Trail(file)[k] in Trail(file);
      }
    }
  }

  lemma UidAsWritten(file: Json)
    ensures UidOf(file).Some? <==> exists uid :: HasField(file, "uid", Text(uid))
    ensures forall uid :: HasField(file, "uid", Text(uid)) <==> UidOf(file) == Some(uid)
  {
    forall uid ensures HasField(file, "uid", Text(uid)) <==> UidOf(file) == Some(uid) {
      HasFieldIff(file, "uid", Text(uid));
    }
    if UidOf(file).Some? {
      assert HasField(file, "uid", Text(UidOf(file).value));
    }
  }

  lemma {:induction false} GoodFilesIff(files: seq<Json>, n: nat)
    requires n <= |files|
    ensures FilesQueries(files, n).Some? <==> forall k :: 0 <= k < n ==> GoodFile(files[k])
    decreases n
  {
    if n > 0 {
      GoodFilesIff(files, n - 1);
      GoodFileIff(files[n - 1]);
    }
  }

  /** A dashboard whose root has a title and no targets is no panel itself; the script goes on to those inside. */
  lemma TitledRootIsGood(file: Json, uid: string)
    requires HasField(file, "uid", Text(uid)) && HasKey(file, "title") && !HasKey(file, "targets")
    requires forall p ::
               p != [] && Node(file, p).Some? && IsPanelNode(Node(file, p).value) ==> GoodPanel(Node(file, p).value)
    ensures GoodFile(file) && [] !in Trail(file)
  {
    PanelsAsWritten(file);
  }
}
