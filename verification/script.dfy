/** The validation script: its loops perform one check per query and compute what the tallies say. */
module Script {
  import opened Wrappers
  import opened Panels
  import opened Queries
  import opened Documents
  import opened Validator
  import Expressions

  /** How a dashboard's expressions become query text. */
  type Renderer = (string, string) -> string

  /** The checks are those of the queries, each of which was rendered and answered once, in order. */
  ghost predicate Performed(queries: seq<Query>, render: Renderer, answers: nat -> Answer, checks: seq<Check>)
  {
    && |checks| == |queries|
    && forall i :: 0 <= i < |checks| ==> checks[i] == CheckOf(queries[i], render, answers(i))
  }

  function CheckOf(q: Query, render: Renderer, answer: Answer): Check
  {
    Classify(q, render(q.dashboard, q.expression), answer)
  }

  lemma FiniteStep(values: seq<Value>, k: nat)
    requires k < |values|
    ensures AllFinite(values[..k + 1]) <==> AllFinite(values[..k]) && values[k].Finite?
    ensures AllZero(values[..k + 1]) <==> AllZero(values[..k]) && values[k] == Finite(true)
  {
    assert values[..k + 1] == values[..k] + [values[k]];
  }

  method CheckQuery(q: Query, render: Renderer, answer: Answer) returns (check: Check)
    ensures check == CheckOf(q, render, answer) && Tells(check, q, render(q.dashboard, q.expression), answer)
  {
    var rendered := render(q.dashboard, q.expression);
    ClassifyTells(q, rendered, answer);
    match answer {
      case Values(values) =>
        var finite, zero := true, true;
        for k := 0 to |values|
          invariant finite == AllFinite(values[..k]) && zero == AllZero(values[..k])
        {
          FiniteStep(values, k);
          finite := finite && values[k].Finite?;
          zero := zero && values[k] == Finite(true);
        }
        assert values[..|values|] == values;
        var hasData := values != [] && finite;
        check := Check(q.dashboard, q.panel, rendered, true, hasData, hasData && zero, q.allowEmpty, finite);
      case _ =>
        check := Check(q.dashboard, q.panel, rendered, false, false, false, q.allowEmpty, false);
    }
  }

  /** The loop over one panel's targets; `ok` is false if the script stops with an exception. */
  method CheckPanel(uid: string, panel: Json, render: Renderer, answers: nat -> Answer,
                    before: seq<Check>, ghost asked: seq<Query>)
    returns (ok: bool, checks: seq<Check>)
    requires Performed(asked, render, answers, before)
    ensures ok <==> PanelQueries(uid, panel).Some?
    ensures ok ==> Performed(asked + PanelQueries(uid, panel).value, render, answers, checks)
  {
    checks := before;
    var list := TargetList(panel);
    if list.None? {
      return false, checks;
    }
    var targets := list.value;
    ghost var done: seq<Query> := [];
    assert asked + done == asked;
    for n := 0 to |targets|
      invariant TargetsQueries(uid, panel, targets, n) == Some(done)
      invariant Performed(asked + done, render, answers, checks)
    {
      var target := TargetOf(targets[n]);
      if target.Crash? {
        TargetsStop(uid, panel, targets, n, |targets|);
        return false, checks;
      }
      if target.Ask? {
        var q := Query(uid, Title(panel), target.expression, target.allowEmpty);
        var check := CheckQuery(q, render, answers(|checks|));
        assert asked + done + [q] == asked + (done + [q]);
        checks := checks + [check];
        done := done + [q];
      } else {
        assert done + [] == done;
      }
    }
    return true, checks;
  }

  lemma {:induction false} TargetsStop(uid: string, panel: Json, targets: seq<Json>, k: nat, n: nat)
    requires k < n <= |targets| && TargetOf(targets[k]).Crash?
    ensures TargetsQueries(uid, panel, targets, n).None?
    decreases n
  {
    if k < n - 1 {
      TargetsStop(uid, panel, targets, k, n - 1);
    }
  }

  lemma {:induction false} PanelsStop(uid: string, panels: seq<Json>, k: nat, n: nat)
    requires k < n <= |panels| && PanelQueries(uid, panels[k]).None?
    ensures PanelsQueries(uid, panels, n).None?
    decreases n
  {
    if k < n - 1 {
      PanelsStop(uid, panels, k, n - 1);
    }
  }

  lemma {:induction false} FilesStop(files: seq<Json>, k: nat, n: nat)
    requires k < n <= |files| && FileQueries(files[k]).None?
    ensures FilesQueries(files, n).None?
    decreases n
  {
    if k < n - 1 {
      FilesStop(files, k, n - 1);
    }
  }

  /** The loop over one file's panels. */
  method CheckFile(uid: string, file: Json, render: Renderer, answers: nat -> Answer,
                   before: seq<Check>, ghost asked: seq<Query>)
    returns (ok: bool, checks: seq<Check>)
    requires UidOf(file) == Some(uid) && Performed(asked, render, answers, before)
    ensures ok <==> FileQueries(file).Some?
    ensures ok ==> Performed(asked + FileQueries(file).value, render, answers, checks)
  {
    checks := before;
    var panels := IterPanels(file);
    ghost var done: seq<Query> := [];
    assert asked + done == asked;
    for n := 0 to |panels|
      invariant PanelsQueries(uid, panels, n) == Some(done)
      invariant Performed(asked + done, render, answers, checks)
    {
      ok, checks := CheckPanel(uid, panels[n], render, answers, checks, asked + done);
      if !ok {
        PanelsStop(uid, panels, n, |panels|);
        return false, checks;
      }
      ghost var more := PanelQueries(uid, panels[n]).value;
      assert asked + done + more == asked + (done + more);
      done := done + more;
    }
    return true, checks;
  }

  /** The loop over the files: None if the script stops with an exception, else the checks and the counts by uid. */
  method CheckFiles(files: seq<Json>, render: Renderer, answers: nat -> Answer)
    returns (report: Option<(seq<Check>, map<string, nat>)>)
    ensures report.Some? <==> FilesQueries(files, |files|).Some?
    ensures report.Some? ==>
              && Performed(FilesQueries(files, |files|).value, render, answers, report.value.0)
              && report.value.1 == DashboardCounts(files, |files|)
  {
    var checks: seq<Check>, counts: map<string, nat> := [], map[];
    ghost var done: seq<Query> := [];
    for n := 0 to |files|
      invariant FilesQueries(files, n) == Some(done)
      invariant Performed(done, render, answers, checks)
      invariant counts == DashboardCounts(files, n)
    {
      var uid := UidOf(files[n]);
      if uid.None? {
        FilesStop(files, n, |files|);
        return None;
      }
      var before := |checks|;
      var ok;
      ok, checks := CheckFile(uid.value, files[n], render, answers, checks, done);
      if !ok {
        FilesStop(files, n, |files|);
        return None;
      }
      done := done + FileQueries(files[n]).value;
      counts := counts[uid.value := |checks| - before];
    }
    return Some((checks, counts));
  }

  /**
    The whole script over the files in their order: None if it stops with an exception, else the checks, the
    counts by uid and the exit code.
   */
  method Validate(files: seq<Json>, namespace: string, answers: nat -> Answer)
    returns (report: Option<(seq<Check>, map<string, nat>, int)>)
    ensures report.Some? <==> FilesQueries(files, |files|).Some?
    ensures report.Some? <==> forall k :: 0 <= k < |files| ==> GoodFile(files[k])
    ensures report.Some? ==>
              var queries := FilesQueries(files, |files|).value;
              && Performed(queries, (uid, e) => Expressions.Render(uid, e, namespace), answers, report.value.0)
              && report.value.1 == DashboardCounts(files, |files|)
              && (forall i :: 0 <= i < |queries| ==> ToldAs(report.value.0[i], queries[i], namespace, answers(i)))
              && (report.value.2 == 0 <==> forall i :: 0 <= i < |queries| ==> Healthy(queries[i], answers(i)))
              && (report.value.2 == 0 || report.value.2 == 1)
  {
    var render: Renderer := (uid, e) => Expressions.Render(uid, e, namespace);
    GoodFilesIff(files, |files|);
    var done := CheckFiles(files, render, answers);
    if done.None? {
      return None;
    }
    PerformedIsJudged(FilesQueries(files, |files|).value, render, answers, done.value.0);
    ExitZeroIff(FilesQueries(files, |files|).value, answers, done.value.0);
    PerformedTells(FilesQueries(files, |files|).value, namespace, answers, done.value.0);
    return Some((done.value.0, done.value.1, ExitCode(done.value.0)));
  }

  /** The check says what is so of the query, rendered for its dashboard, and its answer. */
  predicate ToldAs(c: Check, q: Query, namespace: string, answer: Answer)
  {
    Tells(c, q, Expressions.Render(q.dashboard, q.expression, namespace), answer)
  }

  lemma PerformedTells(queries: seq<Query>, namespace: string, answers: nat -> Answer, checks: seq<Check>)
    requires Performed(queries, (uid, e) => Expressions.Render(uid, e, namespace), answers, checks)
    ensures forall i :: 0 <= i < |queries| ==> ToldAs(checks[i], queries[i], namespace, answers(i))
  {
    forall i | 0 <= i < |queries| ensures ToldAs(checks[i], queries[i], namespace, answers(i)) {
      ClassifyTells(queries[i], Expressions.Render(queries[i].dashboard, queries[i].expression, namespace), answers(i));
    }
  }

  lemma PerformedIsJudged(queries: seq<Query>, render: Renderer, answers: nat -> Answer, checks: seq<Check>)
    requires Performed(queries, render, answers, checks)
    ensures Judged(queries, answers, checks)
  {
  }
}
