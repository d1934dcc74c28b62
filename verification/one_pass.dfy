/** The dashboards, namespaces and texts for which rendering is one pass, exactly, and texts on which it is not. */
module OnePassExactly {
  import opened Rewriting
  import opened Expressions
  import opened Seams
  import opened SinglePass
  import opened UnsafeNamespaces
  import opened DatabaseDashboard

  // ---- A safe namespace neither makes nor breaks a beginning ----

  /** A text glued from the start of a safe token, a safe token and an end of that: no namespace end begins it. */
  lemma GluedBefore(namespace: string, token: string, start: nat, selected: string, after: string)
    requires Safe(namespace, token) && start <= |token| && Safe(namespace, selected)
    ensures Inert(namespace, token[..start] + (selected + after))
  {
    var before := token[..start];
    var x := before + (selected + after);
    forall i | 0 <= i < |namespace| ensures Clash(namespace[i..], x) {
      var y := namespace[i..];
      InertAt(namespace, token, i);
      if !Clash(y, x) && |y| > start {
        assert y == before + y[start..];
        ComparableTails(before, y[start..], selected + after);
        ComparableWithStart(y[start..], selected, after);
        assert namespace[i + start..] == y[start..];
        InertAt(namespace, selected, i + start);
      }
    }
    InertIfClashes(namespace, x);
  }

  /** Nor does an end of it begin the namespace. */
  lemma GluedAfter(namespace: string, token: string, start: nat, selected: string, after: string)
    requires Safe(namespace, token) && 1 <= start <= |token| && Safe(namespace, selected)
    requires |selected| >= 2 && EndsWith(selected, after)
    ensures Inert((token[..start] + (selected + after))[1..], namespace)
  {
    var x := token[..start] + (selected + after);
    forall i | 0 <= i < |x[1..]| ensures Clash(x[1..][i..], namespace) {
      assert x[1..][i..] == x[i + 1..];
      GluedEnd(namespace, token, start, selected, after, i + 1);
    }
    InertIfClashes(x[1..], namespace);
  }

  lemma GluedEnd(namespace: string, token: string, start: nat, selected: string, after: string, j: nat)
    requires Safe(namespace, token) && 1 <= start <= |token| && Safe(namespace, selected)
    requires |selected| >= 2 && EndsWith(selected, after) && 1 <= j < start + |selected| + |after|
    ensures Clash((token[..start] + (selected + after))[j..], namespace)
  {
    var t := (token[..start] + (selected + after))[j..];
    if j < start {
      assert t == token[j..start] + (selected + after);
      StartEnd(namespace, token, j, start, selected, after);
    } else {
      assert t == (selected + after)[j - start..];
      SelectedEnd(namespace, selected, after, j - start);
    }
  }

  lemma StartEnd(namespace: string, token: string, j: nat, start: nat, selected: string, after: string)
    requires Safe(namespace, token) && 1 <= j < start <= |token| && Safe(namespace, selected) && |selected| >= 2
    ensures Clash(token[j..start] + (selected + after), namespace)
  {
    var b, t := token[j..start], token[j..start] + (selected + after);
    InertAt(token[1..], namespace, j - 1);
    assert token[1..][j - 1..] == token[j..] == b + token[start..];
    if !Clash(t, namespace) && |namespace| > |b| {
      assert namespace == b + namespace[|b|..];
      ClashSymmetric(t, namespace);
      ComparableTails(b, namespace[|b|..], selected + after);
      ComparableWithStart(namespace[|b|..], selected, after);
      InertAt(namespace, selected, |b|);
    }
  }

  lemma SelectedEnd(namespace: string, selected: string, after: string, k: nat)
    requires Safe(namespace, selected) && |selected| >= 2 && EndsWith(selected, after) && k < |selected| + |after|
    ensures Clash((selected + after)[k..], namespace)
  {
    var t := (selected + after)[k..];
    if k < |selected| {
      assert t == selected[k..] + after;
      TokenEndClashes(namespace, selected, k);
      if !Clash(t, namespace) {
        ClashSymmetric(t, namespace);
        ComparableWithStart(namespace, selected[k..], after);
      }
    } else {
      var l := k - |after|;
      assert t == after[k - |selected|..] == selected[l..];
      TokenEndClashes(namespace, selected, l);
    }
  }

  /** The safe token that a beginning starts like. */
  function StartsLike(b: Beginning): string
  {
    if b.mention == "${database:regex}" then SELECTED else b.mention
  }

  lemma BeginningParts(b: Beginning)
    requires b in BEGINNINGS
    ensures 1 <= |b.before| <= |StartsLike(b)| && StartsLike(b)[..|b.before|] == b.before
    ensures EndsWith(SELECTED, b.after)
  {
  }

  lemma SafeMention(uid: string, namespace: string, v: string, m: nat)
    requires SafeNamespace(uid, namespace) && v in GENERIC_VARIABLES && m < 3
    ensures Safe(namespace, Mentions(v)[m])
  {
    assert Mentions(v)[m] in Mentions(v);
  }

  lemma PartMentions()
    ensures "namespace" in GENERIC_VARIABLES && "pod" in GENERIC_VARIABLES && "workload" in GENERIC_VARIABLES
    ensures Mentions("namespace")[0] == SELECTED && Mentions("pod")[2] == "$pod"
            && Mentions("workload")[2] == "$workload"
  {
    assert GENERIC_VARIABLES[4] == "namespace" && GENERIC_VARIABLES[6] == "pod" && GENERIC_VARIABLES[12] == "workload";
  }

  lemma SafeParts(namespace: string, b: Beginning)
    requires SafeNamespace(DATABASE_DASHBOARD, namespace) && b in BEGINNINGS
    ensures Safe(namespace, SELECTED) && Safe(namespace, StartsLike(b))
  {
    SafeStarts(namespace);
    StartIsMention(b);
  }

  lemma SafeStarts(namespace: string)
    requires SafeNamespace(DATABASE_DASHBOARD, namespace)
    ensures Safe(namespace, SELECTED) && Safe(namespace, "$pod") && Safe(namespace, "$workload")
  {
    PartMentions();
    SafeMention(DATABASE_DASHBOARD, namespace, "namespace", 0);
    SafeMention(DATABASE_DASHBOARD, namespace, "pod", 2);
    SafeMention(DATABASE_DASHBOARD, namespace, "workload", 2);
  }

  lemma StartIsMention(b: Beginning)
    requires b in BEGINNINGS
    ensures StartsLike(b) == SELECTED || StartsLike(b) == "$pod" || StartsLike(b) == "$workload"
  {
  }

  lemma BeginningApart(namespace: string, b: Beginning)
    requires SafeNamespace(DATABASE_DASHBOARD, namespace) && b in BEGINNINGS
    ensures Inert(namespace, Text(b)) && Inert(Text(b)[1..], namespace)
  {
    var token := StartsLike(b);
    SafeParts(namespace, b);
    BeginningParts(b);
    GluedBefore(namespace, token, |b.before|, SELECTED, b.after);
    GluedAfter(namespace, token, |b.before|, SELECTED, b.after);
  }

  /** The underscore and the digit of the placeholder and its value are in none of the beginnings. */
  predicate FreeOfPlaceholder(x: string)
  {
    '_' !in x && '5' !in x
  }

  lemma SelectedFree()
    ensures FreeOfPlaceholder(SELECTED)
  {
  }

  lemma BeginningLetters(b: Beginning)
    requires b in BEGINNINGS
    ensures var x := Text(b); |x| >= 2 && x[0] == '$' && x[|x| - 1] != '$' && FreeOfPlaceholder(x)
  {
    SelectedFree();
    assert FreeOfPlaceholder(b.before) && FreeOfPlaceholder(b.after) && |b.before| >= 2 && b.before[0] == '$';
    assert b.after == "" || b.after == ":regex}";
  }

  lemma BeginningMissesInterval(b: Beginning)
    requires b in BEGINNINGS
    ensures Inert(Text(b), RATE_INTERVAL)
  {
    BeginningLetters(b);
    NoUnderscoreInert(Text(b));
  }

  lemma {:induction false} NoUnderscoreInert(x: string)
    requires '_' !in x && (x != "" ==> x[|x| - 1] != '$')
    ensures Inert(x, RATE_INTERVAL)
    decreases |x|
  {
    if x != "" {
      ClashAt(x, RATE_INTERVAL, if x[0] == '$' then 1 else 0);
      NoUnderscoreInert(x[1..]);
    }
  }

  /** Replacing the placeholders neither makes nor breaks a beginning. */
  lemma BeginningThroughNaming(expression: string, namespace: string, b: Beginning)
    requires SafeNamespace(DATABASE_DASHBOARD, namespace) && b in BEGINNINGS
    ensures Occurs(Text(b), Named(expression, namespace)) <==> Occurs(Text(b), expression)
  {
    ThroughMark(Text(b), expression, namespace, b);
    ThroughInterval(Text(b), Replace(expression, MarkRule(namespace)), b);
  }

  lemma ThroughMark(x: string, s: string, namespace: string, b: Beginning)
    requires SafeNamespace(DATABASE_DASHBOARD, namespace) && b in BEGINNINGS && x == Text(b)
    ensures Occurs(x, Replace(s, MarkRule(namespace))) <==> Occurs(x, s)
  {
    BeginningApart(namespace, b);
    BeginningLetters(b);
    InertByHead(x, MARK);
    InertByHead(MARK[1..], x);
    ThroughReplace(x, s, MarkRule(namespace));
  }

  lemma ThroughInterval(x: string, s: string, b: Beginning)
    requires b in BEGINNINGS && x == Text(b)
    ensures Occurs(x, Replace(s, INTERVAL_RULE)) <==> Occurs(x, s)
  {
    BeginningMissesInterval(b);
    BeginningLetters(b);
    IntervalMisses(x);
    ThroughReplace(x, s, INTERVAL_RULE);
  }

  lemma IntervalMisses(x: string)
    requires |x| >= 2 && x[0] == '$' && FreeOfPlaceholder(x)
    ensures Inert(RATE_INTERVAL[1..], x) && Inert("5m", x) && Inert(x[1..], "5m")
  {
    assert '$' !in RATE_INTERVAL[1..];
    InertByHead(RATE_INTERVAL[1..], x);
    InertByHead("5m", x);
    InertByHead(x[1..], "5m");
  }

  lemma ThroughReplace(x: string, s: string, r: Rule)
    requires x != "" && Inert(x, r.pattern) && Inert(r.pattern[1..], x)
    requires Inert(r.value, x) && Inert(x[1..], r.value)
    ensures Occurs(x, Replace(s, r)) <==> Occurs(x, s)
  {
    if Occurs(x, s) {
      OccursThroughReplace(x, s, r);
    } else {
      ReplaceIsScan(s, r);
      ScanKeepsAbsent(x, s, [r]);
    }
  }

  lemma NothingBegunThroughNaming(expression: string, namespace: string)
    requires SafeNamespace(DATABASE_DASHBOARD, namespace)
    ensures NothingBegun(Named(expression, namespace)) <==> NothingBegun(expression)
  {
    forall b | b in BEGINNINGS ensures Occurs(Text(b), Named(expression, namespace)) <==> Occurs(Text(b), expression) {
      BeginningThroughNaming(expression, namespace, b);
    }
  }

  // ---- The exact conditions ----

  /**
    On the database dashboard, with a safe namespace, an expression is rendered in one pass exactly if
    none of `$po${namespace:regex}`, `$workloa${namespace:regex}` and `${${namespace:regex}:regex}` occurs in it.
   */
  lemma DatabaseIsOnePassIff(expression: string, namespace: string)
    requires SafeNamespace(DATABASE_DASHBOARD, namespace)
    ensures Render(DATABASE_DASHBOARD, expression, namespace) == OnePass(DATABASE_DASHBOARD, expression, namespace)
            <==> NothingBegun(expression)
  {
    var text := Named(expression, namespace);
    OnePassAfterNaming(DATABASE_DASHBOARD, expression, namespace);
    RenderIsChain(DATABASE_DASHBOARD, expression, namespace);
    ChainIsOnePassIff(text);
    NothingBegunThroughNaming(expression, namespace);
  }

  /**
    `$po${namespace:regex}` on the database dashboard: the inserted value completes a mention of `pod`, which
    is rendered in its turn; one pass inserts the value and is done.
   */
  lemma UnfinishedMentionRendered(namespace: string)
    ensures var s := "$po" + SELECTED;
            && Render(DATABASE_DASHBOARD, s, namespace) == ANY + "atabase"
            && OnePass(DATABASE_DASHBOARD, s, namespace) == "$po" + "database"
  {
    var s := "$po" + SELECTED;
    var b := BEGINNINGS[0];
    BeginningLetters(b);
    Appendix("$po", SELECTED);
    assert Text(b) == s;
    NamedWithoutPlaceholders(s, namespace);
    UnfinishedMentionPrepared();
    PodEndRendered();
    WithoutPlaceholders(s, namespace);
    BeginningScanned(b, "");
    Appendix("$po", "database");
  }

  lemma Appendix(x: string, y: string)
    ensures x + (y + "") == x + y == x + (y + ("" + ""))
  {
    assert y + "" == y && ("" + "") == "";
  }

  lemma UnfinishedMentionPrepared()
    ensures Chain("$po" + SELECTED, Substitutions(DATABASE_DASHBOARD)) == "$po" + "database"
  {
    var out, later := "$po" + "database", Selections(SelectionTable(DATABASE_DASHBOARD)[1..]);
    ClashAt("$po", SELECTED, 1);
    HeadsApart("$po", SELECTED);
    ReplaceSkips("$po", SELECTED, NAMESPACE_RULE);
    ReplaceWhole(NAMESPACE_RULE);
    assert SelectionTable(DATABASE_DASHBOARD)[0] == ("namespace", "database");
    SelectedIsSelection();
    assert Substitutions(DATABASE_DASHBOARD) == [NAMESPACE_RULE] + later;
    forall k | 0 <= k < |later| ensures '{' in later[k].pattern {
      assert later[k].pattern[1] == '{';
    }
    assert '{' !in "$po" && '{' !in "database";
    ChainWithout('{', out, later);
    ChainOne("$po" + SELECTED, NAMESPACE_RULE);
    ChainAppend("$po" + SELECTED, [NAMESPACE_RULE], later);
  }

  lemma HeadsApart(x: string, y: string)
    requires x != "" && Clash(x, y) && y != "" && y[0] !in x[1..]
    ensures Inert(x, y)
  {
    InertByHead(x[1..], y);
  }

  lemma SelectedIsSelection()
    ensures Selection("namespace", "database") == NAMESPACE_RULE
  {
    assert "${" + "namespace" + ":regex}" == SELECTED;
  }

  lemma {:induction false} ChainWithout(c: char, s: string, rules: seq<Rule>)
    requires c !in s && forall k :: 0 <= k < |rules| ==> c in rules[k].pattern
    ensures Chain(s, rules) == s
    decreases |rules|
  {
    if rules != [] {
      var n := |rules| - 1;
      ChainWithout(c, s, rules[..n]);
      NotWithout(c, rules[n].pattern, s);
      ReplaceIdentity(s, rules[n]);
    }
  }

  lemma PodEndRendered()
    ensures Chain("$po" + "database", GenericRules(GENERIC_VARIABLES)) == ANY + "atabase"
  {
    GenericVariablesPrefixFree();
    assert GENERIC_VARIABLES[6] == "pod";
    BareMentionPicked(GENERIC_VARIABLES, 6, "atabase");
    assert "$po" + "database" == "$" + "pod" + "atabase";
  }

  lemma UnfinishedMentionDiffers(namespace: string)
    ensures exists s :: Render(DATABASE_DASHBOARD, s, namespace) != OnePass(DATABASE_DASHBOARD, s, namespace)
  {
    var s := "$po" + SELECTED;
    UnfinishedMentionRendered(namespace);
    assert (ANY + "atabase")[0] != ("$po" + "database")[0];
    assert Render(DATABASE_DASHBOARD, s, namespace) != OnePass(DATABASE_DASHBOARD, s, namespace);
  }

  lemma NamedWithoutPlaceholders(s: string, namespace: string)
    requires '_' !in s
    ensures Named(s, namespace) == s
  {
    NotWithout('_', MARK, s);
    ReplaceIdentity(s, MarkRule(namespace));
    NotWithout('_', RATE_INTERVAL, s);
    ReplaceIdentity(s, INTERVAL_RULE);
  }

  /** A text without underscores holds no placeholder, and one pass over it needs no rule for them. */
  lemma {:induction false} WithoutPlaceholders(s: string, namespace: string)
    requires '_' !in s
    ensures Scan(s, AllRules(DATABASE_DASHBOARD, namespace)) == Scan(s, DashboardRules(DATABASE_DASHBOARD))
    decreases |s|
  {
    if s != "" {
      var rules, all := DashboardRules(DATABASE_DASHBOARD), AllRules(DATABASE_DASHBOARD, namespace);
      PickWithoutPlaceholders(s, namespace);
      ScanByPick(s, rules);
      ScanByPick(s, all);
      WithoutPlaceholders(if Pick(s, rules) == [] then s[1..] else s[|Pick(s, rules)[0].pattern|..], namespace);
    }
  }

  lemma PickWithoutPlaceholders(s: string, namespace: string)
    requires '_' !in s
    ensures Pick(s, AllRules(DATABASE_DASHBOARD, namespace)) == Pick(s, DashboardRules(DATABASE_DASHBOARD))
  {
    var rules := DashboardRules(DATABASE_DASHBOARD);
    PrependedPick(s, MarkRule(namespace), [INTERVAL_RULE] + rules);
    PrependedPick(s, INTERVAL_RULE, rules);
    assert MARK[0] == '_' && RATE_INTERVAL[1] == '_';
  }

  /**
    Rendering is one pass over every expression, with all the replacements side by side, exactly if the
    dashboard is not the database one and the namespace can touch none of the patterns.
   */
  lemma RenderIsOnePassIff(uid: string, namespace: string)
    ensures (forall expression :: Render(uid, expression, namespace) == OnePass(uid, expression, namespace))
            <==> uid != DATABASE_DASHBOARD && SafeNamespace(uid, namespace)
  {
    if uid == DATABASE_DASHBOARD {
      UnfinishedMentionDiffers(namespace);
    } else if SafeNamespace(uid, namespace) {
      forall expression ensures Render(uid, expression, namespace) == OnePass(uid, expression, namespace) {
        SafeIsOnePass(uid, expression, namespace);
      }
    } else {
      var expression := UnsafeFails(uid, namespace);
    }
  }

  /** The script's default namespace is safe for every dashboard. */
  lemma DefaultNamespaceIsSafe(uid: string)
    ensures SafeNamespace(uid, "ip-country-api")
  {
    assert IpText("ip-country-api") && SparesInterval("ip-country-api") && !QuotesAround("ip-country-api");
    IpNamespaceIsSafe(uid, "ip-country-api");
  }

  /** So is every other that starts with `ip` and holds no `$` and no `=`, if it does not touch the rate interval. */
  lemma IpNamespaceIsSafe(uid: string, namespace: string)
    requires IpText(namespace) && SparesInterval(namespace) && !QuotesAround(namespace)
    ensures SafeNamespace(uid, namespace)
  {
    RateIntervalInert(namespace);
    forall v, token | v in GENERIC_VARIABLES && token in Mentions(v) ensures Safe(namespace, token) {
      var m :| 0 <= m < 3 && Mentions(v)[m] == token;
      IpSafe(namespace, v, m);
    }
    forall k | 0 <= k < |SelectionTable(uid)| ensures SafeSelection(namespace, SelectionTable(uid)[k]) {
      IpSafeSelection(namespace, uid, k);
    }
  }

  lemma IpSafe(namespace: string, v: string, m: nat)
    requires IpText(namespace) && v in GENERIC_VARIABLES && m < 3
    ensures Safe(namespace, Mentions(v)[m])
  {
    GenericVariablesGood();
    GenericVariablesNoIp();
    MentionIsPattern(v, m);
    HarmlessValueInert(namespace, v, 4 + m);
  }

  lemma IpSafeSelection(namespace: string, uid: string, k: nat)
    requires IpText(namespace) && k < |SelectionTable(uid)|
    ensures SafeSelection(namespace, SelectionTable(uid)[k])
  {
    var entry := SelectionTable(uid)[k];
    SelectionNamesGood(uid);
    SelectionNamesNoIp(uid);
    MentionIsPattern(entry.0, 0);
    HarmlessValueInert(namespace, entry.0, 4);
  }

  lemma SelectionNamesNoIp(uid: string)
    ensures forall k :: 0 <= k < |SelectionTable(uid)| ==> NoIp(SelectionTable(uid)[k].0)
  {
  }

  /** A namespace that completes a mention: `$po__APP_NAMESPACE__` with `d` is rendered as `.*`. */
  lemma NamespaceCompletesMention()
    ensures var uid := "arvan-challenge-sre-overview";
            && Render(uid, "$po__APP_NAMESPACE__", "d") == ".*"
            && OnePass(uid, "$po__APP_NAMESPACE__", "d") == "$pod"
            && !SafeNamespace(uid, "d")
  {
    PodRendered("arvan-challenge-sre-overview");
    PodPassed("arvan-challenge-sre-overview");
    if SafeNamespace("arvan-challenge-sre-overview", "d") {
      SafeIsOnePass("arvan-challenge-sre-overview", "$po__APP_NAMESPACE__", "d");
    }
  }

  lemma PodRendered(uid: string)
    requires SelectionTable(uid) == []
    ensures Render(uid, "$po__APP_NAMESPACE__", "d") == ".*"
  {
    PodNamed();
    assert Substitutions(uid) == [];
    PodAlonePicked();
  }

  lemma PodAlonePicked()
    ensures Chain("$pod", GenericRules(GENERIC_VARIABLES)) == ".*"
  {
    GenericVariablesPrefixFree();
    assert GENERIC_VARIABLES[6] == "pod";
    BareMentionPicked(GENERIC_VARIABLES, 6, "");
    assert "$" + "pod" + "" == "$pod" && ANY + "" == ".*";
  }

  lemma PodNamed()
    ensures Named("$po__APP_NAMESPACE__", "d") == "$pod"
  {
    PodTexts();
    InertByHead("$po", MARK);
    ReplaceSkips("$po", MARK, MarkRule("d"));
    ReplaceWhole(MarkRule("d"));
    NotWithout('_', RATE_INTERVAL, "$pod");
    ReplaceIdentity("$pod", INTERVAL_RULE);
  }

  lemma PodPassed(uid: string)
    requires uid != DATABASE_DASHBOARD
    ensures OnePass(uid, "$po__APP_NAMESPACE__", "d") == "$pod"
  {
    PodIsToken(uid);
    AllRulesMissMark(uid, "d");
    AllRulesHeaded(uid, "d");
    StartCopied("$pod", 3, "", AllRules(uid, "d"));
    MarkScanned(uid, "d", "");
    PodTexts();
  }

  lemma PodIsToken(uid: string)
    requires uid != DATABASE_DASHBOARD
    ensures DollarToken("$pod") && Alone("$pod", AllRules(uid, "d"))
  {
    assert GENERIC_VARIABLES[6] == "pod";
    PodPatterns();
    MentionIsDollarToken("pod", 6);
    MentionAlone(uid, "d", "pod", 6);
  }

  lemma PodTexts()
    ensures "$pod"[..3] == "$po" && "$po" + "d" == "$pod" && "$po__APP_NAMESPACE__" == "$po" + MARK
    ensures MARK + "" == MARK && "d" + "" == "d"
  {
  }
}
