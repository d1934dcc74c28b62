/** When the whole rendering of an expression is one pass over it with all the replacements side by side. */
module SinglePass {
  import opened Rewriting
  import opened Expressions
  import opened Seams
  import opened Lean

  function MarkRule(namespace: string): Rule
  {
    Rule(MARK, namespace)
  }

  /** All the replacements for a dashboard, in order. */
  function AllRules(uid: string, namespace: string): seq<Rule>
  {
    [MarkRule(namespace)] + ([INTERVAL_RULE] + DashboardRules(uid))
  }

  /** One pass over the expression that knows all the replacements. */
  function OnePass(uid: string, expression: string, namespace: string): string
  {
    Scan(expression, AllRules(uid, namespace))
  }

  /** The rendering is the same replacements, one after the other. */
  lemma RenderIsAllRules(uid: string, expression: string, namespace: string)
    ensures Render(uid, expression, namespace) == Chain(expression, AllRules(uid, namespace))
  {
    var mark, interval: seq<Rule> := [MarkRule(namespace)], [INTERVAL_RULE];
    RenderIsChain(uid, expression, namespace);
    ChainAppend(expression, mark, interval + DashboardRules(uid));
    ChainAppend(Replace(expression, MarkRule(namespace)), interval, DashboardRules(uid));
    ChainOne(expression, MarkRule(namespace));
    ChainOne(Replace(expression, MarkRule(namespace)), INTERVAL_RULE);
  }

  lemma ChainOne(s: string, r: Rule)
    ensures Chain(s, [r]) == Replace(s, r)
  {
    assert [r][..0] == [];
  }

  // ---- Namespaces that cannot touch a pattern ----

  /** No end of the namespace begins or holds the token, and no end of the token begins or holds the namespace. */
  predicate Safe(namespace: string, token: string)
  {
    token != [] && Inert(namespace, token) && Inert(token[1..], namespace)
  }

  predicate EndsWith(s: string, tail: string)
  {
    |tail| <= |s| && s[|s| - |tail|..] == tail
  }

  /**
    The namespace is apart from every token that a replacement for the dashboard looks for, and from
    the `="` and `"` around a quoted one.
   */
  ghost predicate SafeNamespace(uid: string, namespace: string)
  {
    && Safe(namespace, RATE_INTERVAL)
    && (forall v, token :: v in GENERIC_VARIABLES && token in Mentions(v) ==> Safe(namespace, token))
    && (forall k :: 0 <= k < |SelectionTable(uid)| ==> SafeSelection(namespace, SelectionTable(uid)[k]))
    && !QuotesAround(namespace)
  }

  predicate SafeSelection(namespace: string, entry: (string, string))
  {
    Safe(namespace, Selection(entry.0, entry.1).pattern)
  }

  predicate QuotesAround(namespace: string)
  {
    "\"" <= namespace || EndsWith(namespace, "=") || EndsWith(namespace, "=\"")
  }

  /** Then it is apart from the quoted match of a token as well. */
  lemma QuotedSafe(namespace: string, token: string)
    requires Safe(namespace, token) && |token| >= 2 && token[0] == '$' && !QuotesAround(namespace)
    ensures Safe(namespace, "=\"" + (token + "\""))
  {
    QuotedSafeBefore(namespace, token);
    QuotedSafeAfter(namespace, token);
    assert ("=\"" + (token + "\""))[1..] == "\"" + (token + "\"");
  }

  lemma QuotedSafeBefore(namespace: string, token: string)
    requires Safe(namespace, token) && |token| >= 2 && token[0] == '$' && !QuotesAround(namespace)
    ensures Inert(namespace, "=\"" + (token + "\""))
  {
    forall i | 0 <= i < |namespace| ensures Clash(namespace[i..], "=\"" + (token + "\"")) {
      NamespaceEndMissesQuoted(namespace, token, i);
    }
    InertIfClashes(namespace, "=\"" + (token + "\""));
  }

  lemma QuotedSafeAfter(namespace: string, token: string)
    requires Safe(namespace, token) && |token| >= 2 && token[0] == '$' && !QuotesAround(namespace)
    ensures Inert("\"" + (token + "\""), namespace)
  {
    var q := "\"" + (token + "\"");
    forall i | 0 <= i < |q| ensures Clash(q[i..], namespace) {
      QuotedEndMissesNamespace(namespace, token, i);
    }
    InertIfClashes(q, namespace);
  }

  lemma NamespaceEndMissesQuoted(namespace: string, token: string, i: nat)
    requires Safe(namespace, token) && |token| >= 2 && token[0] == '$' && !QuotesAround(namespace)
    requires i < |namespace|
    ensures Clash(namespace[i..], "=\"" + (token + "\""))
  {
    var x, q := namespace[i..], "=\"" + (token + "\"");
    if !Clash(x, q) && |x| > 2 {
      assert x == "=\"" + x[2..];
      ComparableTails("=\"", x[2..], token + "\"");
      ComparableWithStart(x[2..], token, "\"");
      assert namespace[i + 2..] == x[2..];
      InertAt(namespace, token, i + 2);
    }
  }

  lemma ComparableTails(l: string, x: string, y: string)
    requires !Clash(l + x, l + y)
    ensures !Clash(x, y)
  {
    if Clash(x, y) {
      ClashUnderLead(l, x, y);
    }
  }

  lemma QuotedEndMissesNamespace(namespace: string, token: string, i: nat)
    requires Safe(namespace, token) && |token| >= 2 && token[0] == '$' && !QuotesAround(namespace)
    requires i < |token| + 2
    ensures Clash(("\"" + (token + "\""))[i..], namespace)
  {
    var q := "\"" + (token + "\"");
    var t := q[i..];
    SafeNotEmpty(namespace, token);
    if !Clash(t, namespace) && 0 < i <= |token| {
      assert t == token[i - 1..] + "\"";
      ClashSymmetric(t, namespace);
      ComparableWithStart(namespace, token[i - 1..], "\"");
      TokenEndClashes(namespace, token, i - 1);
    }
  }

  lemma ClashSymmetric(x: string, y: string)
    ensures Clash(x, y) <==> Clash(y, x)
  {
  }

  lemma SafeNotEmpty(namespace: string, token: string)
    requires Safe(namespace, token) && |token| >= 2
    ensures namespace != []
  {
    InertAt(token[1..], namespace, 0);
  }

  /** Every end of a safe token, the whole included, clashes with the namespace. */
  lemma TokenEndClashes(namespace: string, token: string, j: nat)
    requires Safe(namespace, token) && j < |token| && |token| >= 2
    ensures Clash(namespace, token[j..])
  {
    SafeNotEmpty(namespace, token);
    if j == 0 {
      InertAt(namespace, token, 0);
      assert namespace[0..] == namespace && token[0..] == token;
    } else {
      InertAt(token[1..], namespace, j - 1);
      assert token[1..][j - 1..] == token[j..];
    }
  }

  // ---- A safe namespace is seen by no other replacement ----

  function LeanDashboard(uid: string): seq<Rule>
  {
    Substitutions(uid) + LeanRules(GENERIC_VARIABLES)
  }

  lemma TokenMissesMark(v: string, braced: bool)
    requires GoodName(v)
    ensures QuotedToken(v, braced)[0] == '$' && Clash(RATE_INTERVAL, QuotedToken(v, braced) + "\"")
  {
    ClashAt(RATE_INTERVAL, QuotedToken(v, braced) + "\"", 1);
  }

  lemma SelectionMissesToken(n: string, value: string, v: string, braced: bool)
    requires GoodName(n) && GoodName(v)
    ensures Clash(Selection(n, value).pattern, QuotedToken(v, braced) + "\"")
  {
    var p, t := Selection(n, value).pattern, QuotedToken(v, braced) + "\"";
    if braced {
      EndsClash(n, ":regex}", v, "}\"");
      ClashUnderLead("${", n + ":regex}", v + "}\"");
      assert p == "${" + (n + ":regex}") && t == "${" + (v + "}\"");
    } else {
      ClashAt(p, t, 1);
    }
  }

  lemma SelectionsAside(uid: string)
    ensures Aside(Substitutions(uid), GENERIC_VARIABLES)
  {
    var subs := Substitutions(uid);
    SelectionNamesGood(uid);
    GenericVariablesGood();
    forall k | 0 <= k < |subs|
      ensures subs[k].pattern[0] in "$_" && MissesMentions(subs[k].pattern, GENERIC_VARIABLES)
    {
      var entry := SelectionTable(uid)[k];
      forall v, braced | v in GENERIC_VARIABLES ensures Clash(subs[k].pattern, QuotedToken(v, braced) + "\"") {
        SelectionMissesToken(entry.0, entry.1, v, braced);
      }
    }
  }

  lemma PlaceholdersAside(namespace: string)
    ensures Aside([MarkRule(namespace)] + [INTERVAL_RULE], GENERIC_VARIABLES)
  {
    GenericVariablesGood();
    forall v, braced | v in GENERIC_VARIABLES
      ensures Clash(RATE_INTERVAL, QuotedToken(v, braced) + "\"") && Clash(MARK, QuotedToken(v, braced) + "\"")
    {
      TokenMissesMark(v, braced);
      ClashAt(MARK, QuotedToken(v, braced) + "\"", 0);
    }
  }

  lemma AsideJoin(a: seq<Rule>, b: seq<Rule>, names: seq<string>)
    requires Aside(a, names) && Aside(b, names)
    ensures Aside(a + b, names)
  {
  }

  /** The pass over the expression may leave out the replacements that change nothing. */
  lemma OnePassIsLean(uid: string, expression: string, namespace: string)
    ensures OnePass(uid, expression, namespace)
            == Scan(expression, [MarkRule(namespace)] + ([INTERVAL_RULE] + LeanDashboard(uid)))
  {
    var holders, subs := [MarkRule(namespace)] + [INTERVAL_RULE], Substitutions(uid);
    PlaceholdersAside(namespace);
    SelectionsAside(uid);
    AsideJoin(holders, subs, GENERIC_VARIABLES);
    GenericVariablesPrefixFree();
    LeanScansAlike(expression, holders + subs, GENERIC_VARIABLES);
    RegroupRules([MarkRule(namespace)], [INTERVAL_RULE], subs, GenericRules(GENERIC_VARIABLES));
    RegroupRules([MarkRule(namespace)], [INTERVAL_RULE], subs, LeanRules(GENERIC_VARIABLES));
  }

  lemma RegroupRules(a: seq<Rule>, b: seq<Rule>, c: seq<Rule>, d: seq<Rule>)
    ensures a + (b + (c + d)) == ((a + b) + c) + d
  {
  }

  lemma DashboardIsLean(uid: string, text: string)
    ensures Scan(text, DashboardRules(uid)) == Scan(text, LeanDashboard(uid))
  {
    SelectionsAside(uid);
    GenericVariablesPrefixFree();
    LeanScansAlike(text, Substitutions(uid), GENERIC_VARIABLES);
  }

  /** Each lean rule may follow the replacements of the placeholders. */
  lemma LeanRuleFollows(uid: string, namespace: string, k: nat)
    requires SafeNamespace(uid, namespace) && k < |LeanDashboard(uid)|
    ensures MayFollow(MarkRule(namespace), LeanDashboard(uid)[k].pattern)
    ensures MayFollow(INTERVAL_RULE, LeanDashboard(uid)[k].pattern)
  {
    var subs := Substitutions(uid);
    if k < |subs| {
      var entry := SelectionTable(uid)[k];
      SelectionNamesGood(uid);
      assert SafeSelection(namespace, entry);
      MentionIsPattern(entry.0, 0);
      PatternFollowsPlaceholders(namespace, entry.0, 4);
    } else {
      var v, i := LeanOwner(GENERIC_VARIABLES, k - |subs|);
      GenericVariablesGood();
      VariablePatternSafe(uid, namespace, v, i);
      PatternFollowsPlaceholders(namespace, v, i);
    }
  }

  lemma PatternFollowsPlaceholders(namespace: string, v: string, i: nat)
    requires GoodName(v) && i < 7 && Safe(namespace, VariableRule(v, i).pattern)
    ensures MayFollow(MarkRule(namespace), VariableRule(v, i).pattern)
    ensures MayFollow(INTERVAL_RULE, VariableRule(v, i).pattern)
  {
    PatternMissesMark(v, i);
    PatternFollowsInterval(v, i);
  }

  lemma VariablePatternSafe(uid: string, namespace: string, v: string, i: nat)
    requires SafeNamespace(uid, namespace) && v in GENERIC_VARIABLES && i < 7 && i != 0 && i != 2
    ensures Safe(namespace, VariableRule(v, i).pattern)
  {
    if i >= 4 {
      MentionIsPattern(v, i - 4);
      assert Mentions(v)[i - 4] in Mentions(v);
    } else {
      TokenSafe(uid, namespace, v, i == 1);
      QuotedSafe(namespace, QuotedToken(v, i == 1));
      QuotedMatch(v, i == 1);
    }
  }

  lemma TokenSafe(uid: string, namespace: string, v: string, braced: bool)
    requires SafeNamespace(uid, namespace) && v in GENERIC_VARIABLES
    ensures Safe(namespace, QuotedToken(v, braced))
  {
    var m := if braced then 1 else 2;
    assert Mentions(v)[m] == QuotedToken(v, braced);
    assert Mentions(v)[m] in Mentions(v);
  }

  lemma QuotedMatch(v: string, braced: bool)
    ensures "=\"" + (QuotedToken(v, braced) + "\"") == VariableRule(v, if braced then 1 else 3).pattern
  {
    QuotedPatterns(v, braced);
    assert "=\"" + QuotedToken(v, braced) + "\"" == "=\"" + (QuotedToken(v, braced) + "\"");
  }

  lemma IntervalFollowsMark(uid: string, namespace: string)
    requires SafeNamespace(uid, namespace)
    ensures MayFollow(MarkRule(namespace), RATE_INTERVAL)
  {
    RateMissesMark();
  }

  /** With a safe namespace one pass over the expression is one pass after both placeholders were replaced. */
  lemma OnePassAfterNaming(uid: string, expression: string, namespace: string)
    requires SafeNamespace(uid, namespace)
    ensures OnePass(uid, expression, namespace) == Scan(Named(expression, namespace), DashboardRules(uid))
  {
    var mark, lean := MarkRule(namespace), LeanDashboard(uid);
    var later: seq<Rule> := [INTERVAL_RULE] + lean;
    forall k | 0 <= k < |lean| ensures MayFollow(mark, lean[k].pattern) && MayFollow(INTERVAL_RULE, lean[k].pattern) {
      LeanRuleFollows(uid, namespace, k);
    }
    IntervalFollowsMark(uid, namespace);
    FollowersScan(expression, mark, later);
    FollowersScan(Replace(expression, mark), INTERVAL_RULE, lean);
    OnePassIsLean(uid, expression, namespace);
    DashboardIsLean(uid, Named(expression, namespace));
  }

  lemma FollowersScan(s: string, r: Rule, rules: seq<Rule>)
    requires forall k :: 0 <= k < |rules| ==> MayFollow(r, rules[k].pattern)
    ensures Scan(Replace(s, r), rules) == Scan(s, [r] + rules)
  {
    QuietIfFollows(s, r, rules);
    ReplaceThenScan(s, r, rules);
  }

  /** For the dashboards other than the database one, and a safe namespace, rendering is one pass. */
  lemma SafeIsOnePass(uid: string, expression: string, namespace: string)
    requires uid != DATABASE_DASHBOARD && SafeNamespace(uid, namespace)
    ensures Render(uid, expression, namespace) == OnePass(uid, expression, namespace)
  {
    OnePassAfterNaming(uid, expression, namespace);
    RenderIsChain(uid, expression, namespace);
    OtherDashboardsLayered(uid);
    ChainIsScan(Named(expression, namespace), DashboardRules(uid));
  }
}
