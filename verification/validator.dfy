/** What the checks of a run say: the tallies add up, and the exit code tells whether every answer is healthy. */
module Validator {
  import opened Wrappers
  import opened Panels
  import opened Queries

  /** A parsed sample value: finite and zero or not, or infinite or not a number. */
  datatype Value = Finite(zero: bool) | NonFinite

  /** What Prometheus makes of a query. */
  datatype Answer = Values(values: seq<Value>) | Refused | Unreachable

  datatype Check = Check(dashboard: string, panel: Json, expression: string, valid: bool, useful: bool,
                         legitimateZero: bool, emptyAllowed: bool, finite: bool)

  /** The counts by uid after the first `n` files; a file overwrites what an earlier one with its uid left. */
  function DashboardCounts(files: seq<Json>, n: nat): map<string, nat>
    requires n <= |files| && FilesQueries(files, n).Some?
  {
    if n == 0 then map[]
    else DashboardCounts(files, n - 1)[UidOf(files[n - 1]).value := |FileQueries(files[n - 1]).value|]
  }

  // ---- What a check says ----

  predicate AllFinite(values: seq<Value>)
  {
    forall k :: 0 <= k < |values| ==> values[k].Finite?
  }

  predicate AllZero(values: seq<Value>)
  {
    forall k :: 0 <= k < |values| ==> values[k] == Finite(true)
  }

  /** The check of a rendered query. */
  function Classify(q: Query, rendered: string, answer: Answer): Check
  {
    match answer
    case Values(values) =>
      var hasData := values != [] && AllFinite(values);
      Check(q.dashboard, q.panel, rendered, true, hasData, hasData && AllZero(values), q.allowEmpty, AllFinite(values))
    case _ => Check(q.dashboard, q.panel, rendered, false, false, false, q.allowEmpty, false)
  }

  /** The checks are those of the queries with these answers, in order, whatever text the queries became. */
  ghost predicate Judged(queries: seq<Query>, answers: nat -> Answer, checks: seq<Check>)
  {
    && |checks| == |queries|
    && forall i :: 0 <= i < |checks| ==> checks[i] == Classify(queries[i], checks[i].expression, answers(i))
  }

  lemma JudgedPrefix(queries: seq<Query>, answers: nat -> Answer, checks: seq<Check>)
    requires Judged(queries, answers, checks) && checks != []
    ensures Judged(queries[..|queries| - 1], answers, checks[..|checks| - 1])
  {
  }

  // ---- The tallies ----

  /** What a tally counts. */
  datatype Kind = Total | Valid | Useful | Zero | Empty | AllowedEmpty | UnexplainedEmpty | Invalid | Infinite

  predicate Is(c: Check, kind: Kind)
  {
    match kind
    case Total => true
    case Valid => c.valid
    case Useful => c.useful
    case Zero => c.legitimateZero
    case Empty => c.valid && !c.useful
    case AllowedEmpty => c.valid && !c.useful && c.emptyAllowed
    case UnexplainedEmpty => c.valid && !c.useful && !c.emptyAllowed
    case Invalid => !c.valid
    case Infinite => !c.finite
  }

  function Tally(checks: seq<Check>, kind: Kind): nat
  {
    if checks == [] then 0
    else Tally(checks[..|checks| - 1], kind) + if Is(checks[|checks| - 1], kind) then 1 else 0
  }

  function TallyFor(checks: seq<Check>, uid: string, kind: Kind): nat
  {
    if checks == [] then 0
    else
      var c := checks[|checks| - 1];
      TallyFor(checks[..|checks| - 1], uid, kind) + if c.dashboard == uid && Is(c, kind) then 1 else 0
  }

  /** The tallies of the listed dashboards together. */
  function SumFor(checks: seq<Check>, uids: seq<string>, kind: Kind): nat
  {
    if uids == [] then 0
    else SumFor(checks, uids[..|uids| - 1], kind) + TallyFor(checks, uids[|uids| - 1], kind)
  }

  function ExitCode(checks: seq<Check>): int
  {
    if Tally(checks, Invalid) > 0 || Tally(checks, UnexplainedEmpty) > 0 || Tally(checks, Infinite) > 0 then 1 else 0
  }

  // ---- The totals of the dashboards are the totals of the run ----

  predicate Distinct(uids: seq<string>)
  {
    forall a, b :: 0 <= a < b < |uids| ==> uids[a] != uids[b]
  }

  lemma {:induction false} SumForStep(checks: seq<Check>, uids: seq<string>, kind: Kind)
    requires checks != [] && Distinct(uids)
    ensures var c := checks[|checks| - 1];
            SumFor(checks, uids, kind)
            == SumFor(checks[..|checks| - 1], uids, kind) + if c.dashboard in uids && Is(c, kind) then 1 else 0
    decreases |uids|
  {
    if uids != [] {
      var n := |uids| - 1;
      SumForStep(checks, uids[..n], kind);
      assert uids == uids[..n] + [uids[n]];
    }
  }

  lemma {:induction false} SumForNone(uids: seq<string>, kind: Kind)
    ensures SumFor([], uids, kind) == 0
    decreases |uids|
  {
    if uids != [] {
      SumForNone(uids[..|uids| - 1], kind);
    }
  }

  lemma {:induction false} SumForTotals(checks: seq<Check>, uids: seq<string>, kind: Kind)
    requires Distinct(uids) && forall i :: 0 <= i < |checks| ==> checks[i].dashboard in uids
    ensures SumFor(checks, uids, kind) == Tally(checks, kind)
    decreases |checks|
  {
    if checks == [] {
      SumForNone(uids, kind);
    } else {
      SumForStep(checks, uids, kind);
      SumForTotals(checks[..|checks| - 1], uids, kind);
    }
  }

  lemma {:induction false} TargetsOwnUid(uid: string, panel: Json, targets: seq<Json>, n: nat)
    requires n <= |targets| && TargetsQueries(uid, panel, targets, n).Some?
    ensures forall q :: q in TargetsQueries(uid, panel, targets, n).value ==> q.dashboard == uid
    decreases n
  {
    if n > 0 {
      TargetsOwnUid(uid, panel, targets, n - 1);
    }
  }

  lemma {:induction false} PanelsOwnUid(uid: string, panels: seq<Json>, n: nat)
    requires n <= |panels| && PanelsQueries(uid, panels, n).Some?
    ensures forall q :: q in PanelsQueries(uid, panels, n).value ==> q.dashboard == uid
    decreases n
  {
    if n > 0 {
      PanelsOwnUid(uid, panels, n - 1);
      var targets := TargetList(panels[n - 1]).value;
      TargetsOwnUid(uid, panels[n - 1], targets, |targets|);
    }
  }

  lemma FileOwnsUid(file: Json)
    requires FileQueries(file).Some?
    ensures UidOf(file).Some? && forall q :: q in FileQueries(file).value ==> q.dashboard == UidOf(file).value
  {
    PanelsOwnUid(UidOf(file).value, IterPanels(file), |IterPanels(file)|);
  }

  /** Every query belongs to a dashboard that has a count. */
  lemma {:induction false} DashboardsCovered(files: seq<Json>, n: nat)
    requires n <= |files| && FilesQueries(files, n).Some?
    ensures forall q :: q in FilesQueries(files, n).value ==> q.dashboard in DashboardCounts(files, n)
    decreases n
  {
    if n > 0 {
      DashboardsCovered(files, n - 1);
      FileOwnsUid(files[n - 1]);
    }
  }

  /**
    The per-dashboard totals of the summary sum to its global totals, whatever they count, also when
    files share a uid; the dashboards are the uids that have a count, in any order.
   */
  lemma DashboardTotalsSumUp(files: seq<Json>, answers: nat -> Answer, checks: seq<Check>,
                             uids: seq<string>, kind: Kind)
    requires FilesQueries(files, |files|).Some? && Judged(FilesQueries(files, |files|).value, answers, checks)
    requires Distinct(uids) && forall uid :: uid in uids <==> uid in DashboardCounts(files, |files|)
    ensures SumFor(checks, uids, kind) == Tally(checks, kind)
  {
    var queries := FilesQueries(files, |files|).value;
    DashboardsCovered(files, |files|);
    forall i | 0 <= i < |checks| ensures checks[i].dashboard in uids {
      assert queries[i] in queries;
    }
    SumForTotals(checks, uids, kind);
  }

  // ---- The counts by uid, and what they miss ----

  function QueriesOf(file: Json): nat
  {
    if FileQueries(file).Some? then |FileQueries(file).value| else 0
  }

  /** The queries of all files of one uid together. */
  function UidTotal(files: seq<Json>, n: nat, uid: string): nat
    requires n <= |files|
  {
    if n == 0 then 0
    else UidTotal(files, n - 1, uid) + if UidOf(files[n - 1]) == Some(uid) then QueriesOf(files[n - 1]) else 0
  }

  function QueryTally(queries: seq<Query>, uid: string): nat
  {
    if queries == [] then 0
    else QueryTally(queries[..|queries| - 1], uid) + if queries[|queries| - 1].dashboard == uid then 1 else 0
  }

  lemma {:induction false} TallyForTotal(queries: seq<Query>, answers: nat -> Answer, checks: seq<Check>, uid: string)
    requires Judged(queries, answers, checks)
    ensures TallyFor(checks, uid, Total) == QueryTally(queries, uid)
    decreases |queries|
  {
    if queries != [] {
      JudgedPrefix(queries, answers, checks);
      TallyForTotal(queries[..|queries| - 1], answers, checks[..|checks| - 1], uid);
    }
  }

  lemma {:induction false} QueryTallySplit(a: seq<Query>, b: seq<Query>, uid: string)
    ensures QueryTally(a + b, uid) == QueryTally(a, uid) + QueryTally(b, uid)
    decreases |b|
  {
    if b == [] {
      assert a + b == a;
    } else {
      var n := |b| - 1;
      QueryTallySplit(a, b[..n], uid);
      assert (a + b)[..|a + b| - 1] == a + b[..n];
    }
  }

  lemma {:induction false} QueryTallyUniform(queries: seq<Query>, owner: string, uid: string)
    requires forall q :: q in queries ==> q.dashboard == owner
    ensures QueryTally(queries, uid) == if owner == uid then |queries| else 0
    decreases |queries|
  {
    if queries != [] {
      assert queries[|queries| - 1] in queries;
      QueryTallyUniform(queries[..|queries| - 1], owner, uid);
    }
  }

  lemma {:induction false} QueryTallyIsUidTotal(files: seq<Json>, n: nat, uid: string)
    requires n <= |files| && FilesQueries(files, n).Some?
    ensures QueryTally(FilesQueries(files, n).value, uid) == UidTotal(files, n, uid)
    decreases n
  {
    if n > 0 {
      QueryTallyIsUidTotal(files, n - 1, uid);
      FileOwnsUid(files[n - 1]);
      var last := FileQueries(files[n - 1]).value;
      QueryTallySplit(FilesQueries(files, n - 1).value, last, uid);
      QueryTallyUniform(last, UidOf(files[n - 1]).value, uid);
    }
  }

  /** File `k` is the last of the first `n` with this uid. */
  ghost predicate LastWithUid(files: seq<Json>, n: nat, uid: string, k: nat)
    requires n <= |files|
  {
    k < n && UidOf(files[k]) == Some(uid) && forall m :: k < m < n ==> UidOf(files[m]) != Some(uid)
  }

  lemma {:induction false} CountIsLastFiles(files: seq<Json>, n: nat, uid: string, k: nat)
    requires n <= |files| && FilesQueries(files, n).Some? && LastWithUid(files, n, uid, k)
    ensures uid in DashboardCounts(files, n) && DashboardCounts(files, n)[uid] == QueriesOf(files[k])
    ensures UidTotal(files, n, uid) == UidTotal(files, k, uid) + QueriesOf(files[k])
    decreases n
  {
    if k < n - 1 {
      assert UidOf(files[n - 1]) != Some(uid);
      CountIsLastFiles(files, n - 1, uid, k);
    }
  }

  lemma {:induction false} UidTotalZero(files: seq<Json>, n: nat, uid: string)
    requires n <= |files|
    ensures UidTotal(files, n, uid) == 0
            <==> forall m :: 0 <= m < n && UidOf(files[m]) == Some(uid) ==> QueriesOf(files[m]) == 0
    decreases n
  {
    if n > 0 {
      UidTotalZero(files, n - 1, uid);
    }
  }

  lemma TotalIsUidTotal(files: seq<Json>, answers: nat -> Answer, checks: seq<Check>, uid: string)
    requires FilesQueries(files, |files|).Some? && Judged(FilesQueries(files, |files|).value, answers, checks)
    ensures TallyFor(checks, uid, Total) == UidTotal(files, |files|, uid)
  {
    TallyForTotal(FilesQueries(files, |files|).value, answers, checks, uid);
    QueryTallyIsUidTotal(files, |files|, uid);
  }

  /**
    A dashboard's count is that of the last file with its uid. So it equals the dashboard's total exactly if
    no earlier file with that uid has a query.
   */
  lemma CountMatchesTotalIff(files: seq<Json>, answers: nat -> Answer, checks: seq<Check>, uid: string, k: nat)
    requires FilesQueries(files, |files|).Some? && Judged(FilesQueries(files, |files|).value, answers, checks)
    requires LastWithUid(files, |files|, uid, k)
    ensures uid in DashboardCounts(files, |files|)
    ensures DashboardCounts(files, |files|)[uid] == TallyFor(checks, uid, Total)
            <==> forall m :: 0 <= m < k && UidOf(files[m]) == Some(uid) ==> QueriesOf(files[m]) == 0
  {
    TotalIsUidTotal(files, answers, checks, uid);
    CountIsLastFiles(files, |files|, uid, k);
    UidTotalZero(files, k, uid);
  }

  /** A dashboard that is itself a panel with one query, and one without any, both of the uid `a`. */
  const ONE_QUERY: Json := Object([
    Field("uid", Text("a")), Field("title", Text("t")),
    Field("targets", Array([TARGET]))])

  const NO_QUERY: Json := Object([Field("uid", Text("a"))])

  /** The walk of a child yields nothing. */
  predicate Bare(j: Json, k: nat)
    requires k < |Children(j)|
  {
    IterPanels(Children(j)[k]) == []
  }

  lemma NothingInside(j: Json)
    requires !IsPanel(j) && forall k :: 0 <= k < |Children(j)| ==> Bare(j, k)
    ensures IterPanels(j) == []
  {
    NothingFrom(j, 0);
  }

  lemma {:induction false} NothingFrom(j: Json, k: nat)
    requires k <= |Children(j)| && forall i :: 0 <= i < |Children(j)| ==> Bare(j, i)
    ensures IterFrom(j, k) == []
    decreases |Children(j)| - k
  {
    if k < |Children(j)| {
      assert Bare(j, k);
      NothingFrom(j, k + 1);
    }
  }

  const TARGET: Json := Object([Field("expr", Text("up"))])

  lemma TargetHoldsNoPanel()
    ensures IterPanels(Array([TARGET])) == []
  {
    NothingInside(Text("up"));
    assert Children(TARGET) == [Text("up")];
    NothingInside(TARGET);
    assert Children(Array([TARGET])) == [TARGET];
    NothingInside(Array([TARGET]));
  }

  lemma FieldNext(f: Field, rest: seq<Field>, key: string)
    ensures FieldOf([f] + rest, key) == if f.key == key then Some(f.value) else FieldOf(rest, key)
  {
    assert ([f] + rest)[1..] == rest;
  }

  lemma OneQueryFields()
    ensures Get(ONE_QUERY, "uid") == Some(Text("a")) && Get(ONE_QUERY, "title") == Some(Text("t"))
    ensures Get(ONE_QUERY, "targets") == Some(Array([TARGET]))
  {
    var f, g, h := Field("uid", Text("a")), Field("title", Text("t")), Field("targets", Array([TARGET]));
    assert ONE_QUERY.fields == [f] + ([g] + ([h] + []));
    FieldNext(f, [g] + ([h] + []), "uid");
    FieldNext(f, [g] + ([h] + []), "title");
    FieldNext(g, [h] + [], "title");
    FieldNext(f, [g] + ([h] + []), "targets");
    FieldNext(g, [h] + [], "targets");
    FieldNext(h, [], "targets");
  }

  lemma OneQueryWalked()
    ensures IterPanels(ONE_QUERY) == [ONE_QUERY]
  {
    OneQueryFields();
    TargetHoldsNoPanel();
    NothingInside(Text("a"));
    NothingInside(Text("t"));
    assert Children(ONE_QUERY) == [Text("a"), Text("t"), Array([TARGET])];
    NothingFrom(ONE_QUERY, 0);
  }

  lemma OneQueryAsked()
    ensures PanelQueries("a", ONE_QUERY) == Some([Query("a", Text("t"), "up", false)])
  {
    OneQueryFields();
    assert TargetOf(TARGET) == Ask("up", false);
    OneTargetQueries("a", ONE_QUERY, TARGET);
  }

  lemma OneTargetQueries(uid: string, panel: Json, target: Json)
    requires TargetQueries(uid, panel, target).Some?
    ensures TargetsQueries(uid, panel, [target], 1) == TargetQueries(uid, panel, target)
  {
    assert TargetsQueries(uid, panel, [target], 0) == Some([]) && [target][0] == target;
    assert [] + TargetQueries(uid, panel, target).value == TargetQueries(uid, panel, target).value;
  }

  lemma OnePanelQueries(uid: string, panel: Json)
    requires PanelQueries(uid, panel).Some?
    ensures PanelsQueries(uid, [panel], 1) == PanelQueries(uid, panel)
  {
    assert PanelsQueries(uid, [panel], 0) == Some([]) && [panel][0] == panel;
    assert [] + PanelQueries(uid, panel).value == PanelQueries(uid, panel).value;
  }

  lemma OneQueryCounted()
    ensures UidOf(ONE_QUERY) == Some("a") && QueriesOf(ONE_QUERY) == 1 && FileQueries(ONE_QUERY).Some?
  {
    OneQueryFields();
    OneQueryWalked();
    OneQueryAsked();
    OnePanelQueries("a", ONE_QUERY);
  }

  lemma NoQueryCounted()
    ensures UidOf(NO_QUERY) == Some("a") && QueriesOf(NO_QUERY) == 0 && FileQueries(NO_QUERY).Some?
  {
    NothingInside(Text("a"));
    assert Children(NO_QUERY) == [Text("a")];
    NothingInside(NO_QUERY);
  }

  /** Two files of one uid of which only the first has a query: the count is 0 and the total is 1. */
  lemma CountMissesTotal(answers: nat -> Answer, checks: seq<Check>)
    requires FilesQueries([ONE_QUERY, NO_QUERY], 2).Some?
             ==> Judged(FilesQueries([ONE_QUERY, NO_QUERY], 2).value, answers, checks)
    ensures var files := [ONE_QUERY, NO_QUERY];
            && FilesQueries(files, 2).Some?
            && "a" in DashboardCounts(files, 2) && DashboardCounts(files, 2)["a"] == 0
            && TallyFor(checks, "a", Total) == 1
  {
    var files := [ONE_QUERY, NO_QUERY];
    OneQueryCounted();
    NoQueryCounted();
    assert FilesQueries(files, 1).Some?;
    TotalIsUidTotal(files, answers, checks, "a");
    CountIsLastFiles(files, 2, "a", 1);
    assert UidTotal(files, 1, "a") == 1;
  }

  // ---- The exit code ----

  lemma {:induction false} TallyZero(checks: seq<Check>, kind: Kind)
    ensures Tally(checks, kind) == 0 <==> forall i :: 0 <= i < |checks| ==> !Is(checks[i], kind)
    decreases |checks|
  {
    if checks != [] {
      TallyZero(checks[..|checks| - 1], kind);
    }
  }

  /** The answer is a result, its values are finite, and there are some or none are needed. */
  predicate Healthy(q: Query, answer: Answer)
  {
    answer.Values? && AllFinite(answer.values) && (answer.values != [] || q.allowEmpty)
  }

  /** The script succeeds exactly if every query's answer is healthy. */
  lemma ExitZeroIff(queries: seq<Query>, answers: nat -> Answer, checks: seq<Check>)
    requires Judged(queries, answers, checks)
    ensures ExitCode(checks) == 0 <==> forall i :: 0 <= i < |queries| ==> Healthy(queries[i], answers(i))
  {
    TallyZero(checks, Invalid);
    TallyZero(checks, UnexplainedEmpty);
    TallyZero(checks, Infinite);
    forall i | 0 <= i < |queries|
      ensures Healthy(queries[i], answers(i))
              <==> !Is(checks[i], Invalid) && !Is(checks[i], UnexplainedEmpty) && !Is(checks[i], Infinite)
    {
      HealthyCheck(queries[i], checks[i].expression, answers(i));
    }
  }

  lemma HealthyCheck(q: Query, rendered: string, answer: Answer)
    ensures var c := Classify(q, rendered, answer);
            Healthy(q, answer) <==> !Is(c, Invalid) && !Is(c, UnexplainedEmpty) && !Is(c, Infinite)
  {
  }

  predicate Consistent(c: Check)
  {
    (c.useful ==> c.valid && c.finite) && (c.legitimateZero ==> c.useful) && (c.finite ==> c.valid)
  }

  lemma {:induction false} TalliesPartition(checks: seq<Check>)
    requires forall i :: 0 <= i < |checks| ==> Consistent(checks[i])
    ensures Tally(checks, Total) == |checks| == Tally(checks, Valid) + Tally(checks, Invalid)
    ensures Tally(checks, Valid) == Tally(checks, Useful) + Tally(checks, Empty)
    ensures Tally(checks, Empty) == Tally(checks, AllowedEmpty) + Tally(checks, UnexplainedEmpty)
    ensures Tally(checks, Zero) <= Tally(checks, Useful) && Tally(checks, Invalid) <= Tally(checks, Infinite)
    decreases |checks|
  {
    if checks != [] {
      var n := |checks| - 1;
      TalliesPartition(checks[..n]);
      assert Consistent(checks[n]);
    }
  }

  /** Every expression is counted once as valid or not, every valid one as useful or empty, and so on. */
  lemma SummaryAddsUp(queries: seq<Query>, answers: nat -> Answer, checks: seq<Check>)
    requires Judged(queries, answers, checks)
    ensures |queries| == Tally(checks, Valid) + Tally(checks, Invalid)
    ensures Tally(checks, Valid) == Tally(checks, Useful) + Tally(checks, Empty)
    ensures Tally(checks, Empty) == Tally(checks, AllowedEmpty) + Tally(checks, UnexplainedEmpty)
    ensures Tally(checks, Zero) <= Tally(checks, Useful) && Tally(checks, Invalid) <= Tally(checks, Infinite)
  {
    TalliesPartition(checks);
  }

  // ---- What a check and a tally mean, in terms of queries and answers ----

  predicate HasData(answer: Answer)
  {
    answer.Values? && answer.values != [] && forall v :: v in answer.values ==> v.Finite?
  }

  predicate HasZeros(answer: Answer)
  {
    answer.Values? && answer.values != [] && forall v :: v in answer.values ==> v == Finite(true)
  }

  /** The check says of the query, its text and its answer what is so. */
  predicate Tells(c: Check, q: Query, rendered: string, answer: Answer)
  {
    && c.dashboard == q.dashboard && c.panel == q.panel && c.expression == rendered
    && (c.emptyAllowed <==> q.allowEmpty)
    && (c.valid <==> answer.Values?)
    && (c.finite <==> answer.Values? && forall v :: v in answer.values ==> v.Finite?)
    && (c.useful <==> HasData(answer))
    && (c.legitimateZero <==> HasZeros(answer))
  }

  lemma ClassifyTells(q: Query, rendered: string, answer: Answer)
    ensures Tells(Classify(q, rendered, answer), q, rendered, answer)
  {
    if answer.Values? {
      AllOfThem(answer.values);
    }
  }

  lemma AllOfThem(values: seq<Value>)
    ensures AllFinite(values) <==> forall v :: v in values ==> v.Finite?
    ensures AllZero(values) <==> forall v :: v in values ==> v == Finite(true)
  {
    if AllFinite(values) {
      forall v | v in values ensures v.Finite? {
        var k :| 0 <= k < |values| && values[k] == v;
      }
    }
    if AllZero(values) {
      forall v | v in values ensures v == Finite(true) {
        var k :| 0 <= k < |values| && values[k] == v;
      }
    }
    forall k | 0 <= k < |values| ensures values[k] in values {
    }
  }

  /** What a tally is to count. */
  predicate Meant(q: Query, answer: Answer, kind: Kind)
  {
    match kind
    case Total => true
    case Valid => answer.Values?
    case Useful => HasData(answer)
    case Zero => HasZeros(answer)
    case Empty => answer.Values? && !HasData(answer)
    case AllowedEmpty => answer.Values? && !HasData(answer) && q.allowEmpty
    case UnexplainedEmpty => answer.Values? && !HasData(answer) && !q.allowEmpty
    case Invalid => !answer.Values?
    case Infinite => !answer.Values? || exists v :: v in answer.values && !v.Finite?
  }

  lemma MeantIff(q: Query, rendered: string, answer: Answer, kind: Kind)
    ensures Is(Classify(q, rendered, answer), kind) <==> Meant(q, answer, kind)
  {
    ClassifyTells(q, rendered, answer);
  }

  /** A tally is to count the query, if it is that of one dashboard or of all. */
  predicate Belongs(q: Query, answer: Answer, owner: Option<string>, kind: Kind)
  {
    (owner == None || owner == Some(q.dashboard)) && Meant(q, answer, kind)
  }

  function Those(queries: seq<Query>, answers: nat -> Answer, n: nat, owner: Option<string>, kind: Kind): set<nat>
    requires n <= |queries|
  {
    set i: nat | i < n && Belongs(queries[i], answers(i), owner, kind)
  }

  lemma ThoseOneMore(queries: seq<Query>, answers: nat -> Answer, n: nat, owner: Option<string>, kind: Kind)
    requires n < |queries|
    ensures |Those(queries, answers, n + 1, owner, kind)|
            == |Those(queries, answers, n, owner, kind)| + if Belongs(queries[n], answers(n), owner, kind) then 1 else 0
  {
    var rest, all := Those(queries, answers, n, owner, kind), Those(queries, answers, n + 1, owner, kind);
    CountOneMore(rest, all, n, Belongs(queries[n], answers(n), owner, kind));
  }

  lemma CountOneMore(rest: set<nat>, all: set<nat>, n: nat, counted: bool)
    requires n !in rest && forall i :: i in all <==> i in rest || (i == n && counted)
    ensures |all| == |rest| + if counted then 1 else 0
  {
    if counted {
      assert all == rest + {n};
    } else {
      assert all == rest;
    }
  }

  lemma {:induction false} TallyMeansTo(queries: seq<Query>, answers: nat -> Answer, checks: seq<Check>, kind: Kind,
                                        n: nat)
    requires Judged(queries, answers, checks) && n <= |queries|
    ensures Tally(checks[..n], kind) == |Those(queries, answers, n, None, kind)|
    decreases n
  {
    if n > 0 {
      var m := n - 1;
      TallyMeansTo(queries, answers, checks, kind, m);
      ThoseOneMore(queries, answers, m, None, kind);
      assert checks[..n][..m] == checks[..m] && checks[..n][m] == checks[m];
      MeantIff(queries[m], checks[m].expression, answers(m), kind);
    }
  }

  lemma {:induction false} TallyForMeansTo(queries: seq<Query>, answers: nat -> Answer, checks: seq<Check>, uid: string,
                                           kind: Kind, n: nat)
    requires Judged(queries, answers, checks) && n <= |queries|
    ensures TallyFor(checks[..n], uid, kind) == |Those(queries, answers, n, Some(uid), kind)|
    decreases n
  {
    if n > 0 {
      var m := n - 1;
      TallyForMeansTo(queries, answers, checks, uid, kind, m);
      ThoseOneMore(queries, answers, m, Some(uid), kind);
      assert checks[..n][..m] == checks[..m] && checks[..n][m] == checks[m];
      MeantIff(queries[m], checks[m].expression, answers(m), kind);
      assert checks[m].dashboard == queries[m].dashboard;
    }
  }

  /** Each tally is the number of queries whose answers are as it says, and each dashboard's the number of its. */
  lemma TalliesMean(queries: seq<Query>, answers: nat -> Answer, checks: seq<Check>, uid: string, kind: Kind)
    requires Judged(queries, answers, checks)
    ensures Tally(checks, kind) == |set i: nat | i < |queries| && Meant(queries[i], answers(i), kind)|
    ensures TallyFor(checks, uid, kind) ==
            |set i: nat | i < |queries| && queries[i].dashboard == uid && Meant(queries[i], answers(i), kind)|
  {
    var n := |queries|;
    TallyMeansTo(queries, answers, checks, kind, n);
    TallyForMeansTo(queries, answers, checks, uid, kind, n);
    assert checks[..n] == checks;
    assert Those(queries, answers, n, None, kind) == set i: nat | i < n && Meant(queries[i], answers(i), kind);
    assert Those(queries, answers, n, Some(uid), kind)
        == set i: nat | i < n && queries[i].dashboard == uid && Meant(queries[i], answers(i), kind);
  }
}
