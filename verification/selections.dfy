/** What the dashboards' own selections are rendered as, in any expression, with the names and values as they are. */
module DashboardSelections {
  import opened Rewriting
  import opened Expressions
  import opened Seams
  import opened SinglePass
  import opened UnsafeNamespaces
  import opened DatabaseDashboard

  /** Rendering is one pass over the text that the namespace and the rate interval have been put into. */
  ghost predicate OnePassed(uid: string, text: string)
  {
    uid == DATABASE_DASHBOARD ==> NothingBegun(text)
  }

  lemma ChainIsPass(uid: string, text: string)
    requires OnePassed(uid, text)
    ensures Chain(text, DashboardRules(uid)) == Scan(text, DashboardRules(uid))
  {
    if uid == DATABASE_DASHBOARD {
      NothingBegunIsOnePass(text);
    } else {
      OtherDashboardsLayered(uid);
      ChainIsScan(text, DashboardRules(uid));
    }
  }

  lemma OnePassedParts(uid: string, u: string, x: string, w: string)
    requires OnePassed(uid, u + (x + w))
    ensures OnePassed(uid, u) && OnePassed(uid, w)
  {
    if uid == DATABASE_DASHBOARD {
      forall b | b in BEGINNINGS ensures !Occurs(Text(b), u) && !Occurs(Text(b), w) {
        if Occurs(Text(b), u) {
          OccursBefore(Text(b), u, x + w);
        }
        if Occurs(Text(b), w) {
          OccursAfter(Text(b), x, w);
          OccursAfter(Text(b), u, x + w);
        }
      }
    }
  }

  lemma {:induction false} OccursBefore(t: string, u: string, w: string)
    requires Occurs(t, u)
    ensures Occurs(t, u + w)
    decreases |u|
  {
    if !(t <= u) {
      OccursBefore(t, u[1..], w);
      assert (u + w)[1..] == u[1..] + w;
    }
  }

  // ---- A text that no placeholder touches ----

  /** Replacing one rule leaves such a text alone, and the texts around it do not notice. */
  lemma ReplaceAround(u: string, x: string, w: string, r: Rule)
    requires Inert(x, r.pattern) && Inert(r.pattern[1..], x)
    ensures Replace(u + (x + w), r) == Replace(u, r) + (x + Replace(w, r))
  {
    ReplaceIsScan(u + (x + w), r);
    ReplaceIsScan(u, r);
    ReplaceIsScan(x + w, r);
    ScanSplits(u, x + w, x, [r]);
    ReplaceSkips(x, w, r);
  }

  lemma SelectionSparesPlaceholders(n: string)
    requires GoodName(n)
    ensures var x := VariableRule(n, 4).pattern;
            && Inert(x, MARK) && Inert(MARK[1..], x) && Inert(x, RATE_INTERVAL) && Inert(RATE_INTERVAL[1..], x)
  {
    var x := VariableRule(n, 4).pattern;
    SelectionShape(n);
    MarkShape();
    IntervalShape();
    PatternMissesMark(n, 4);
    TextSparesMark(x, MARK);
    TextSparesInterval(x, RATE_INTERVAL);
  }

  lemma MarkShape()
    ensures MARK != "" && MARK[0] == '_' && '$' !in MARK[1..]
  {
  }

  lemma IntervalShape()
    ensures |RATE_INTERVAL| >= 2 && RATE_INTERVAL[0] == '$' && RATE_INTERVAL[1] == '_' && '$' !in RATE_INTERVAL[1..]
  {
  }

  lemma TextSparesMark(x: string, mark: string)
    requires |x| >= 2 && x[0] == '$' && mark != "" && mark[0] == '_' && '$' !in mark[1..] && Inert(x[1..], mark)
    ensures Inert(x, mark) && Inert(mark[1..], x)
  {
    ClashAt(x, mark, 0);
    InertByHead(mark[1..], x);
  }

  lemma TextSparesInterval(x: string, interval: string)
    requires |x| >= 2 && x[0] == '$' && x[1] == '{' && '$' !in x[1..]
    requires |interval| >= 2 && interval[0] == '$' && interval[1] == '_' && '$' !in interval[1..]
    ensures Inert(x, interval) && Inert(interval[1..], x)
  {
    ClashAt(x, interval, 1);
    InertByHead(x[1..], interval);
    InertByHead(interval[1..], x);
  }

  lemma SelectionShape(n: string)
    requires Name(n)
    ensures VariableRule(n, 4).pattern == Open(4) + (n + Close(4))
    ensures var x := VariableRule(n, 4).pattern; |x| >= 2 && x[0] == '$' && x[1] == '{' && '$' !in x[1..]
  {
    NamesArePlain(n, 4);
    MentionShape(Open(4), n + Close(4));
    assert VariableRule(n, 4).pattern == Open(4) + (n + Close(4));
  }

  /** Putting the namespace and the rate interval in around a selection. */
  lemma NamedAround(n: string, u: string, w: string, namespace: string)
    requires GoodName(n)
    ensures var x := VariableRule(n, 4).pattern;
            Named(u + (x + w), namespace) == Named(u, namespace) + (x + Named(w, namespace))
  {
    var x := VariableRule(n, 4).pattern;
    SelectionSparesPlaceholders(n);
    ReplaceAround(u, x, w, MarkRule(namespace));
    ReplaceAround(Replace(u, MarkRule(namespace)), x, Replace(w, MarkRule(namespace)), INTERVAL_RULE);
  }

  // ---- A selection of the dashboard ----

  lemma SelectionsClash(a: string, b: string)
    requires Name(a) && Name(b) && a != b
    ensures Clash(VariableRule(a, 4).pattern, VariableRule(b, 4).pattern)
  {
    SelectionShape(a);
    SelectionShape(b);
    if !(a <= b) {
      NamesClash(a, Close(4), b, Close(4));
    } else {
      NamesClash(b, Close(4), a, Close(4));
      ClashSymmetric(b + Close(4), a + Close(4));
    }
    ClashUnderLead(Open(4), a + Close(4), b + Close(4));
  }

  /** The first rule that matches is the one that is picked. */
  lemma FirstIsPicked(s: string, rules: seq<Rule>, k: nat)
    requires k < |rules| && rules[k].pattern <= s && forall j :: 0 <= j < k ==> !(rules[j].pattern <= s)
    ensures Pick(s, rules) == [rules[k]]
  {
  }

  predicate TableNames(uid: string)
  {
    forall j, k :: 0 <= j < k < |SelectionTable(uid)| ==> SelectionTable(uid)[j].0 != SelectionTable(uid)[k].0
  }

  lemma SelectionPicked(uid: string, k: nat, w: string)
    requires k < |SelectionTable(uid)| && TableNames(uid)
    ensures var x := VariableRule(SelectionTable(uid)[k].0, 4).pattern;
            Pick(x + w, DashboardRules(uid)) == [Rule(x, SelectionTable(uid)[k].1)]
  {
    var rules, n := DashboardRules(uid), SelectionTable(uid)[k].0;
    var x := VariableRule(n, 4).pattern;
    SelectionNamesGood(uid);
    SelectionRule(uid, k);
    forall j | 0 <= j < k ensures !(rules[j].pattern <= x + w) {
      SelectionRule(uid, j);
      SelectionsClash(SelectionTable(uid)[j].0, n);
      if rules[j].pattern <= x + w {
        CommonTextNoClash(rules[j].pattern, x, x + w);
      }
    }
    FirstIsPicked(x + w, rules, k);
  }

  lemma SelectionRule(uid: string, k: nat)
    requires k < |SelectionTable(uid)|
    ensures k < |DashboardRules(uid)|
    ensures DashboardRules(uid)[k]
            == Rule(VariableRule(SelectionTable(uid)[k].0, 4).pattern, SelectionTable(uid)[k].1)
  {
    MentionIsPattern(SelectionTable(uid)[k].0, 0);
    assert DashboardRules(uid)[k] == Substitutions(uid)[k];
  }

  /** A pass that comes to `x` puts `value` there. */
  ghost predicate Puts(uid: string, x: string, value: string)
  {
    forall w :: Scan(x + w, DashboardRules(uid)) == value + Scan(w, DashboardRules(uid))
  }

  lemma SelectionPut(uid: string, k: nat)
    requires k < |SelectionTable(uid)| && TableNames(uid)
    ensures Puts(uid, VariableRule(SelectionTable(uid)[k].0, 4).pattern, SelectionTable(uid)[k].1)
  {
    var x, value := VariableRule(SelectionTable(uid)[k].0, 4).pattern, SelectionTable(uid)[k].1;
    var rules := DashboardRules(uid);
    SelectionNamesGood(uid);
    SelectionShape(SelectionTable(uid)[k].0);
    forall w ensures Scan(x + w, rules) == value + Scan(w, rules) {
      SelectionPicked(uid, k, w);
      PutByPick(x, value, w, rules);
    }
  }

  lemma PutByPick(x: string, value: string, w: string, rules: seq<Rule>)
    requires x != "" && Pick(x + w, rules) == [Rule(x, value)]
    ensures Scan(x + w, rules) == value + Scan(w, rules)
  {
    ScanByPick(x + w, rules);
    assert (x + w)[|x|..] == w;
  }

  /** And the texts before and after it are passed over for themselves. */
  lemma ScanAround(uid: string, n: string, value: string, u: string, w: string)
    requires GoodName(n) && Puts(uid, VariableRule(n, 4).pattern, value)
    ensures var x := VariableRule(n, 4).pattern;
            Scan(u + (x + w), DashboardRules(uid))
            == Scan(u, DashboardRules(uid)) + (value + Scan(w, DashboardRules(uid)))
  {
    var rules, x := DashboardRules(uid), VariableRule(n, 4).pattern;
    forall j | 0 <= j < |rules| ensures Inert(rules[j].pattern[1..], x) {
      var v, i := DashboardRuleOwner(uid, j);
      TailMissesSelection(n, v, i);
    }
    ScanSplits(u, x + w, x, rules);
  }

  lemma SelectionRendered(uid: string, n: string, value: string, u: string, w: string, namespace: string)
    requires GoodName(n) && Puts(uid, VariableRule(n, 4).pattern, value)
    requires OnePassed(uid, Named(u + (VariableRule(n, 4).pattern + w), namespace))
    ensures Render(uid, u + (VariableRule(n, 4).pattern + w), namespace)
            == Render(uid, u, namespace) + (value + Render(uid, w, namespace))
  {
    var x, u', w' := VariableRule(n, 4).pattern, Named(u, namespace), Named(w, namespace);
    NamedAround(n, u, w, namespace);
    RenderIsChain(uid, u + (x + w), namespace);
    RenderIsChain(uid, u, namespace);
    RenderIsChain(uid, w, namespace);
    OnePassedParts(uid, u', x, w');
    ChainIsPass(uid, u' + (x + w'));
    ChainIsPass(uid, u');
    ChainIsPass(uid, w');
    ScanAround(uid, n, value, u', w');
  }

  /**
    In any expression `x` becomes `value`, and the texts before and after it are rendered for themselves; on the
    database dashboard, if the expression begins no mention that a value completes.
   */
  ghost predicate Becomes(uid: string, x: string, value: string, namespace: string)
  {
    forall u, w :: OnePassed(uid, Named(u + x + w, namespace)) ==>
      Render(uid, u + x + w, namespace) == Render(uid, u, namespace) + value + Render(uid, w, namespace)
  }

  lemma PutBecomes(uid: string, n: string, value: string, x: string, namespace: string)
    requires GoodName(n) && Puts(uid, VariableRule(n, 4).pattern, value) && x == "${" + n + ":regex}"
    ensures Becomes(uid, x, value, namespace)
  {
    WrittenIsPattern(n);
    forall u, w | OnePassed(uid, Named(u + x + w, namespace))
      ensures Render(uid, u + x + w, namespace) == Render(uid, u, namespace) + value + Render(uid, w, namespace)
    {
      Regroup(u, x, w);
      SelectionRendered(uid, n, value, u, w, namespace);
      Regroup(Render(uid, u, namespace), value, Render(uid, w, namespace));
    }
  }

  lemma WrittenIsPattern(n: string)
    ensures "${" + n + ":regex}" == VariableRule(n, 4).pattern
  {
    MentionIsPattern(n, 0);
  }

  lemma SelectionBecomes(uid: string, k: nat, n: string, value: string, x: string, namespace: string)
    requires k < |SelectionTable(uid)| && TableNames(uid) && SelectionTable(uid)[k] == (n, value)
    requires x == "${" + n + ":regex}"
    ensures Becomes(uid, x, value, namespace)
  {
    SelectionNamesGood(uid);
    SelectionPut(uid, k);
    PutBecomes(uid, n, value, x, namespace);
  }

  // ---- The selections of each dashboard, written out ----

  /** The performance dashboard selects the service's own namespace, and all of the rest. */
  lemma PerformanceSelections(namespace: string)
    ensures Becomes("ip-country-api-performance", "${namespace:regex}", "ip-country-api", namespace)
    ensures Becomes("ip-country-api-performance", "${pod:regex}", ".*", namespace)
    ensures Becomes("ip-country-api-performance", "${route:regex}", ".*", namespace)
    ensures Becomes("ip-country-api-performance", "${status_code:regex}", ".*", namespace)
  {
    var uid := "ip-country-api-performance";
    PerformanceTable();
    SelectionTexts();
    SelectionBecomes(uid, 0, "namespace", "ip-country-api", "${namespace:regex}", namespace);
    SelectionBecomes(uid, 1, "pod", ".*", "${pod:regex}", namespace);
    SelectionBecomes(uid, 2, "route", ".*", "${route:regex}", namespace);
    SelectionBecomes(uid, 3, "status_code", ".*", "${status_code:regex}", namespace);
  }

  lemma PerformanceTable()
    ensures var table := SelectionTable("ip-country-api-performance");
            && |table| == 4 && TableNames("ip-country-api-performance")
            && table[0] == ("namespace", "ip-country-api")
            && table[1] == ("pod", ".*")
            && table[2] == ("route", ".*")
            && table[3] == ("status_code", ".*")
  {
  }

  /** The database dashboard selects one database and its cluster, in its namespace. */
  lemma DatabaseSelections(namespace: string)
    ensures Becomes("cloudnativepg-sre-performance", "${namespace:regex}", "database", namespace)
    ensures Becomes("cloudnativepg-sre-performance", "${cluster:regex}", "ip-country-postgres", namespace)
    ensures Becomes("cloudnativepg-sre-performance", "${instance:regex}", ".*", namespace)
    ensures Becomes("cloudnativepg-sre-performance", "${database:regex}", "ip_country", namespace)
  {
    var uid := "cloudnativepg-sre-performance";
    DatabaseTable();
    SelectionTexts();
    SelectionBecomes(uid, 0, "namespace", "database", "${namespace:regex}", namespace);
    SelectionBecomes(uid, 1, "cluster", "ip-country-postgres", "${cluster:regex}", namespace);
    SelectionBecomes(uid, 2, "instance", ".*", "${instance:regex}", namespace);
    SelectionBecomes(uid, 3, "database", "ip_country", "${database:regex}", namespace);
  }

  lemma DatabaseTable()
    ensures var table := SelectionTable("cloudnativepg-sre-performance");
            && |table| == 4 && TableNames("cloudnativepg-sre-performance")
            && table[0] == ("namespace", "database")
            && table[1] == ("cluster", "ip-country-postgres")
            && table[2] == ("instance", ".*")
            && table[3] == ("database", "ip_country")
  {
  }

  /** The capacity dashboard selects everything. */
  lemma CapacitySelections(namespace: string)
    ensures Becomes("k3s-reliability-capacity", "${node:regex}", ".*", namespace)
    ensures Becomes("k3s-reliability-capacity", "${namespace:regex}", ".*", namespace)
    ensures Becomes("k3s-reliability-capacity", "${workload:regex}", ".*", namespace)
  {
    var uid := "k3s-reliability-capacity";
    CapacityTable();
    SelectionTexts();
    SelectionBecomes(uid, 0, "node", ".*", "${node:regex}", namespace);
    SelectionBecomes(uid, 1, "namespace", ".*", "${namespace:regex}", namespace);
    SelectionBecomes(uid, 2, "workload", ".*", "${workload:regex}", namespace);
  }

  lemma CapacityTable()
    ensures var table := SelectionTable("k3s-reliability-capacity");
            && |table| == 3 && TableNames("k3s-reliability-capacity")
            && table[0] == ("node", ".*")
            && table[1] == ("namespace", ".*")
            && table[2] == ("workload", ".*")
  {
  }

  lemma SelectionTexts()
    ensures "${" + "namespace" + ":regex}" == "${namespace:regex}"
    ensures "${" + "pod" + ":regex}" == "${pod:regex}"
    ensures "${" + "route" + ":regex}" == "${route:regex}"
    ensures "${" + "status_code" + ":regex}" == "${status_code:regex}"
    ensures "${" + "cluster" + ":regex}" == "${cluster:regex}"
    ensures "${" + "instance" + ":regex}" == "${instance:regex}"
    ensures "${" + "database" + ":regex}" == "${database:regex}"
    ensures "${" + "node" + ":regex}" == "${node:regex}"
    ensures "${" + "workload" + ":regex}" == "${workload:regex}"
  {
  }

  // ---- Dashboards without selections, and the rate interval ----

  /** Patterns that begin like mentions are that of the selection, or clash with it. */
  lemma MentionMissesSelection(v: string, i: nat, n: string)
    requires Name(v) && Name(n) && 4 <= i < 7 && (v != n || i != 4)
    ensures Clash(VariableRule(v, i).pattern, VariableRule(n, 4).pattern)
  {
    NamesArePlain(v, i);
    NamesArePlain(n, 4);
    assert VariableRule(v, i).pattern == Open(i) + (v + Close(i));
    SelectionShape(n);
    if i == 6 {
      ClashAt(VariableRule(v, i).pattern, VariableRule(n, 4).pattern, 1);
    } else {
      if v == n || i == 5 {
        EndsClash(v, Close(i), n, Close(4));
      } else if !(v <= n) {
        NamesClash(v, Close(i), n, Close(4));
      } else {
        NamesClash(n, Close(4), v, Close(i));
        ClashSymmetric(n + Close(4), v + Close(i));
      }
      ClashUnderLead(Open(4), v + Close(i), n + Close(4));
    }
  }

  lemma PatternMissesSelection(v: string, i: nat, n: string)
    requires Name(v) && Name(n) && i < 7 && (v != n || i != 4)
    ensures Clash(VariableRule(v, i).pattern, VariableRule(n, 4).pattern)
  {
    if i < 4 {
      SelectionShape(n);
      assert VariableRule(v, i).pattern[0] == Quote(i)[0] == '=';
      ClashAt(VariableRule(v, i).pattern, VariableRule(n, 4).pattern, 0);
    } else {
      MentionMissesSelection(v, i, n);
    }
  }

  lemma ListedPut(n: string)
    requires n in GENERIC_VARIABLES
    ensures Puts("arvan-challenge-sre-overview", VariableRule(n, 4).pattern, ANY)
  {
    var a :| 0 <= a < |GENERIC_VARIABLES| && GENERIC_VARIABLES[a] == n;
    OverviewRules();
    forall w ensures Scan(VariableRule(n, 4).pattern + w, GenericRules(GENERIC_VARIABLES))
                     == ANY + Scan(w, GenericRules(GENERIC_VARIABLES)) {
      ListedScanned(a, n, w);
    }
  }

  lemma ListedScanned(a: nat, n: string, w: string)
    requires a < |GENERIC_VARIABLES| && GENERIC_VARIABLES[a] == n
    ensures Scan(VariableRule(n, 4).pattern + w, GenericRules(GENERIC_VARIABLES))
            == ANY + Scan(w, GenericRules(GENERIC_VARIABLES))
  {
    var x, rules := VariableRule(n, 4).pattern, GenericRules(GENERIC_VARIABLES);
    GenericRuleAt(GENERIC_VARIABLES, a, 4);
    forall j | 0 <= j < 7 * a + 4 ensures !(rules[j].pattern <= x + w) {
      EarlierMisses(a, j, n, w);
    }
    FirstIsPicked(x + w, rules, 7 * a + 4);
    ListedShape(a, n);
    PutByPick(x, ANY, w, rules);
  }

  lemma ListedShape(a: nat, n: string)
    requires a < |GENERIC_VARIABLES| && GENERIC_VARIABLES[a] == n
    ensures VariableRule(n, 4).pattern != ""
  {
    GenericVariablesGood();
    SelectionShape(n);
  }

  lemma EarlierMisses(a: nat, j: nat, n: string, w: string)
    requires a < |GENERIC_VARIABLES| && GENERIC_VARIABLES[a] == n && j < 7 * a + 4
    ensures j < |GenericRules(GENERIC_VARIABLES)|
    ensures !(GenericRules(GENERIC_VARIABLES)[j].pattern <= VariableRule(n, 4).pattern + w)
  {
    var b, i := GenericRuleOwner(GENERIC_VARIABLES, j);
    GenericVariablesGood();
    GenericVariablesPrefixFree();
    PatternMissesSelection(GENERIC_VARIABLES[b], i, n);
    var p, x := VariableRule(GENERIC_VARIABLES[b], i).pattern, VariableRule(n, 4).pattern;
    if p <= x + w {
      CommonTextNoClash(p, x, x + w);
    }
  }

  lemma OverviewRules()
    ensures DashboardRules("arvan-challenge-sre-overview") == GenericRules(GENERIC_VARIABLES)
  {
    assert SelectionTable("arvan-challenge-sre-overview") == [];
  }

  lemma UnlistedPut(n: string)
    requires Name(n) && n !in GENERIC_VARIABLES
    ensures var x := VariableRule(n, 4).pattern; Puts("arvan-challenge-sre-overview", x, x)
  {
    var x, rules := VariableRule(n, 4).pattern, DashboardRules("arvan-challenge-sre-overview");
    OverviewRules();
    forall k | 0 <= k < |rules| ensures Inert(x, rules[k].pattern) {
      var a, i := GenericRuleOwner(GENERIC_VARIABLES, k);
      UnlistedInert(n, GENERIC_VARIABLES[a], i);
    }
    forall w ensures Scan(x + w, rules) == x + Scan(w, rules) {
      InertIsSilent(x, x + w, rules);
      ScanCopies(x, x + w, rules);
      assert (x + w)[|x|..] == w;
    }
  }

  lemma UnlistedInert(n: string, v: string, i: nat)
    requires Name(n) && v in GENERIC_VARIABLES && n != v && i < 7
    ensures Inert(VariableRule(n, 4).pattern, VariableRule(v, i).pattern)
  {
    GenericVariablesGood();
    var a :| 0 <= a < |GENERIC_VARIABLES| && GENERIC_VARIABLES[a] == v;
    PatternMissesSelection(v, i, n);
    ClashSymmetric(VariableRule(v, i).pattern, VariableRule(n, 4).pattern);
    SelectionShape(n);
    NoEquals(n);
    PatternHead(v, i);
    InertByHead(VariableRule(n, 4).pattern[1..], VariableRule(v, i).pattern);
  }

  lemma NoEquals(n: string)
    requires Name(n)
    ensures '=' !in VariableRule(n, 4).pattern[1..]
  {
    SelectionShape(n);
    NamesArePlain(n, 4);
    MentionShape(Open(4), n + Close(4));
  }

  /**
    On the overview a mention of one of the thirteen variables becomes a match of everything, and one of any other
    is left as it is.
   */
  lemma OverviewMentions(n: string, namespace: string)
    requires GoodName(n)
    ensures var x := "${" + n + ":regex}";
            Becomes("arvan-challenge-sre-overview", x,
                    if n in ["cluster", "instance", "integration", "job", "namespace", "node", "pod", "route",
                             "service", "status_code", "type", "volume", "workload"] then ".*" else x, namespace)
  {
    var x := "${" + n + ":regex}";
    WrittenIsPattern(n);
    if n in GENERIC_VARIABLES {
      ListedPut(n);
      PutBecomes("arvan-challenge-sre-overview", n, ANY, x, namespace);
    } else {
      UnlistedPut(n);
      PutBecomes("arvan-challenge-sre-overview", n, x, x, namespace);
    }
  }

  lemma IntervalNamed(u: string, w: string, namespace: string)
    ensures Named(u + (RATE_INTERVAL + w), namespace) == Named(u, namespace) + ("5m" + Named(w, namespace))
  {
    IntervalSparesMark();
    IntervalShape();
    ReplaceAround(u, RATE_INTERVAL, w, MarkRule(namespace));
    InertByHead(RATE_INTERVAL[1..], RATE_INTERVAL);
    ReplacePlaced(Replace(u, MarkRule(namespace)), Replace(w, MarkRule(namespace)), INTERVAL_RULE);
  }

  /** A pattern that cannot overlap itself is replaced where it stands. */
  lemma ReplacePlaced(u: string, w: string, r: Rule)
    requires r.pattern != "" && Inert(r.pattern[1..], r.pattern)
    ensures Replace(u + (r.pattern + w), r) == Replace(u, r) + (r.value + Replace(w, r))
  {
    var x := r.pattern;
    ReplaceIsScan(u + (x + w), r);
    ReplaceIsScan(u, r);
    ReplaceIsScan(x + w, r);
    ScanSplits(u, x + w, x, [r]);
    assert (x + w)[|x|..] == w;
  }

  lemma IntervalSparesMark()
    ensures Inert(RATE_INTERVAL, MARK) && Inert(MARK[1..], RATE_INTERVAL)
  {
    MarkShape();
    IntervalShape();
    InertByHead(MARK[1..], RATE_INTERVAL);
    IntervalLetters(RATE_INTERVAL, MARK);
    forall i | 0 <= i < |RATE_INTERVAL| ensures Clash(RATE_INTERVAL[i..], MARK) {
      ClashAt(RATE_INTERVAL[i..], MARK, if i == 1 then 2 else if i == 2 || i == 7 then 1 else 0);
    }
    InertIfClashes(RATE_INTERVAL, MARK);
  }

  lemma IntervalLetters(x: string, mark: string)
    requires x == RATE_INTERVAL && mark == MARK
    ensures |x| == 16 && x[1] == x[2] == x[7] == '_' && x[3] == 'r' && x[8] == 'i'
    ensures forall i :: 0 <= i < |x| && i != 1 && i != 2 && i != 7 ==> x[i] != '_'
    ensures |mark| >= 3 && mark[0] == mark[1] == '_' && mark[2] == 'A'
  {
  }

  lemma FiveMinutesInert(v: string, i: nat)
    requires Name(v) && i < 7
    ensures Inert(VariableRule(v, i).pattern[1..], "5m") && Inert("5m", VariableRule(v, i).pattern)
  {
    NoDigitInPattern(v, i);
    InertByHead("5m", VariableRule(v, i).pattern);
    InertByHead(VariableRule(v, i).pattern[1..], "5m");
  }

  /** The rate interval's placeholder becomes five minutes, on every dashboard and for every namespace. */
  lemma IntervalBecomes(uid: string, namespace: string)
    ensures Becomes(uid, "$__rate_interval", "5m", namespace)
  {
    var x := "$__rate_interval";
    forall u, w | OnePassed(uid, Named(u + x + w, namespace))
      ensures Render(uid, u + x + w, namespace) == Render(uid, u, namespace) + "5m" + Render(uid, w, namespace)
    {
      Regroup(u, x, w);
      IntervalRendered(uid, u, w, namespace);
      Regroup(Render(uid, u, namespace), "5m", Render(uid, w, namespace));
    }
  }

  lemma IntervalRendered(uid: string, u: string, w: string, namespace: string)
    requires OnePassed(uid, Named(u + (RATE_INTERVAL + w), namespace))
    ensures Render(uid, u + (RATE_INTERVAL + w), namespace)
            == Render(uid, u, namespace) + ("5m" + Render(uid, w, namespace))
  {
    var u', w' := Named(u, namespace), Named(w, namespace);
    IntervalNamed(u, w, namespace);
    RenderIsChain(uid, u + (RATE_INTERVAL + w), namespace);
    RenderIsChain(uid, u, namespace);
    RenderIsChain(uid, w, namespace);
    OnePassedParts(uid, u', "5m", w');
    ChainIsPass(uid, u' + ("5m" + w'));
    ChainIsPass(uid, u');
    ChainIsPass(uid, w');
    FiveMinutesAround(uid, u', w');
  }

  lemma FiveMinutesAround(uid: string, u: string, w: string)
    ensures Scan(u + ("5m" + w), DashboardRules(uid))
            == Scan(u, DashboardRules(uid)) + ("5m" + Scan(w, DashboardRules(uid)))
  {
    var rules := DashboardRules(uid);
    forall k | 0 <= k < |rules| ensures Inert(rules[k].pattern[1..], "5m") && Inert("5m", rules[k].pattern) {
      var v, i := DashboardRuleOwner(uid, k);
      FiveMinutesInert(v, i);
    }
    ScanSplits(u, "5m" + w, "5m", rules);
    InertIsSilent("5m", "5m" + w, rules);
    ScanCopies("5m", "5m" + w, rules);
    assert ("5m" + w)[2..] == w;
  }
}
