/** Every namespace that can touch a pattern has an expression whose rendering is not one pass. */
module UnsafeNamespaces {
  import opened Rewriting
  import opened Expressions
  import opened Seams
  import opened Lean
  import opened SinglePass

  /** The shape of a mention and of the rate-interval placeholder. */
  predicate DollarToken(m: string)
  {
    |m| >= 2 && m[0] == '$' && '$' !in m[1..] && '=' !in m && 'A' !in m
  }

  lemma MentionIsDollarToken(v: string, i: nat)
    requires Name(v) && 4 <= i < 7
    ensures DollarToken(VariableRule(v, i).pattern)
  {
    NamesArePlain(v, i);
    MentionShape(Open(i), v + Close(i));
    assert VariableRule(v, i).pattern == Open(i) + (v + Close(i));
    assert 'A' !in v && 'A' !in Open(i) && 'A' !in Close(i);
  }

  lemma DashboardRuleOwner(uid: string, k: nat) returns (v: string, i: nat)
    requires k < |DashboardRules(uid)|
    ensures GoodName(v) && i < 7 && DashboardRules(uid)[k].pattern == VariableRule(v, i).pattern
    ensures uid != DATABASE_DASHBOARD ==> v in GENERIC_VARIABLES
    ensures v in GENERIC_VARIABLES || i == 4
  {
    var subs := Substitutions(uid);
    if k < |subs| {
      SelectionNamesGood(uid);
      SelectionNames(uid);
      v, i := SelectionTable(uid)[k].0, 4;
      MentionIsPattern(v, 0);
    } else {
      var a: nat;
      a, i := GenericRuleOwner(GENERIC_VARIABLES, k - |subs|);
      GenericVariablesGood();
      v := GENERIC_VARIABLES[a];
    }
  }

  /** All patterns but the namespace's hold a `$`, and start with one or with `=`. */
  ghost predicate Headed(rules: seq<Rule>)
  {
    forall k :: 0 <= k < |rules| ==> rules[k].pattern == MARK || HasHead(rules[k].pattern)
  }

  predicate HasHead(p: string)
  {
    p != [] && '$' in p && (p[0] == '$' || p[0] == '=')
  }

  lemma AllRulesHeaded(uid: string, namespace: string)
    ensures Headed(AllRules(uid, namespace))
  {
    var rules := AllRules(uid, namespace);
    forall k | 0 <= k < |rules| ensures rules[k].pattern == MARK || HasHead(rules[k].pattern) {
      if k >= 2 {
        var v, i := DashboardRuleOwner(uid, k - 2);
        assert rules[k] == DashboardRules(uid)[k - 2];
        PatternHead(v, i);
      }
    }
  }

  lemma PatternHead(v: string, i: nat)
    requires i < 7
    ensures HasHead(VariableRule(v, i).pattern)
  {
    var p := VariableRule(v, i).pattern;
    assert '$' in Open(i);
    assert p[0] == (Quote(i) + Open(i))[0];
  }

  // ---- Parts of a text that one pass copies ----

  lemma TailCopied(tail: string, rules: seq<Rule>)
    requires '$' !in tail && 'A' !in tail && Headed(rules)
    ensures Scan(tail, rules) == tail
  {
    forall k | 0 <= k < |rules| ensures !Occurs(rules[k].pattern, tail) {
      NotWithout(if rules[k].pattern == MARK then 'A' else '$', rules[k].pattern, tail);
    }
    ScanIdentity(tail, rules);
  }

  lemma MarkScanned(uid: string, namespace: string, w: string)
    ensures Scan(MARK + w, AllRules(uid, namespace)) == namespace + Scan(w, AllRules(uid, namespace))
  {
    var rules := AllRules(uid, namespace);
    PrependedPick(MARK + w, MarkRule(namespace), [INTERVAL_RULE] + DashboardRules(uid));
    ScanByPick(MARK + w, rules);
    assert (MARK + w)[|MARK|..] == w;
  }

  lemma MarkNotEarlier(a: string, w: string)
    requires a != [] && 'A' !in a
    ensures !(MARK <= a + (MARK + w))
  {
    var s := a + (MARK + w);
    assert s[2] != 'A';
  }

  /** Text without the heads of patterns is copied up to the namespace's placeholder. */
  lemma {:induction false} SilentBeforeMark(a: string, w: string, rules: seq<Rule>)
    requires '$' !in a && '=' !in a && 'A' !in a && Headed(rules)
    ensures Silent(|a|, a + (MARK + w), rules)
    decreases |a|
  {
    if a != [] {
      var s := a + (MARK + w);
      forall k | 0 <= k < |rules| ensures !(rules[k].pattern <= s) {
        MarkNotEarlier(a, w);
      }
      PickNothing(s, rules);
      assert s[1..] == a[1..] + (MARK + w);
      SilentBeforeMark(a[1..], w, rules);
    }
  }

  // ---- An end of the namespace begins a token ----

  lemma EndBeginsToken(uid: string, namespace: string, m: string, i: nat) returns (expression: string)
    requires DollarToken(m) && i < |namespace| && !Clash(namespace[i..], m)
    ensures Occurs(m, OnePass(uid, expression, namespace))
  {
    var x := namespace[i..];
    expression := MARK + Missing(x, m);
    TailWithoutHeads(x, m);
    MarkOnly(uid, namespace, Missing(x, m));
    assert namespace + Missing(x, m) == namespace[..i] + (x + Missing(x, m));
    OccursAfter(m, namespace[..i], x + Missing(x, m));
  }

  lemma MarkOnly(uid: string, namespace: string, tail: string)
    requires '$' !in tail && 'A' !in tail
    ensures OnePass(uid, MARK + tail, namespace) == namespace + tail
  {
    AllRulesHeaded(uid, namespace);
    TailCopied(tail, AllRules(uid, namespace));
    MarkScanned(uid, namespace, tail);
  }

  /** What has to follow `x` to make it hold `t`. */
  function Missing(x: string, t: string): string
  {
    if |x| < |t| then t[|x|..] else ""
  }

  lemma MissingCompletes(x: string, t: string)
    requires !Clash(x, t)
    ensures t <= x + Missing(x, t)
  {
  }

  lemma TailWithoutHeads(x: string, m: string)
    requires DollarToken(m) && x != [] && !Clash(x, m)
    ensures '$' !in Missing(x, m) && 'A' !in Missing(x, m)
    ensures Occurs(m, x + Missing(x, m))
  {
    MissingCompletes(x, m);
    assert |x| < |m| ==> Missing(x, m) == m[1..][|x| - 1..];
  }

  // ---- An end of a token begins the namespace ----

  /** Patterns that start with `$` are the token itself or clash with it. */
  ghost predicate Alone(m: string, rules: seq<Rule>)
  {
    forall k :: 0 <= k < |rules| && rules[k].pattern[0] == '$' ==> rules[k].pattern == m || Clash(rules[k].pattern, m)
  }

  ghost predicate MissMark(rules: seq<Rule>)
  {
    forall k :: 0 <= k < |rules| && rules[k].pattern[0] == '$' ==> Inert(rules[k].pattern[1..], MARK)
  }

  lemma NothingBegins(m: string, i: nat, w: string, rules: seq<Rule>)
    requires DollarToken(m) && 1 <= i < |m| && Headed(rules) && Alone(m, rules) && MissMark(rules)
    ensures FirstMatch(m[..i] + (MARK + w), rules) == |rules|
  {
    var s := m[..i] + (MARK + w);
    forall k | 0 <= k < |rules| ensures !(rules[k].pattern <= s) {
      var p := rules[k].pattern;
      if p <= s && p[0] == '$' {
        PatternPastStart(p, m, i, w);
      }
    }
    PickNothing(s, rules);
  }

  lemma PatternPastStart(p: string, m: string, i: nat, w: string)
    requires p != [] && 1 <= i < |m| && (p == m || Clash(p, m)) && Inert(p[1..], MARK)
    ensures !(p <= m[..i] + (MARK + w))
  {
    if |p| > i {
      assert p[1..][i - 1..] == p[i..];
      InertAt(p[1..], MARK, i - 1);
      EndMisses(p, m[..i], MARK, w);
    } else {
      StartMisses(p, m, i, MARK + w);
    }
  }

  /** A text whose end clashes with what follows is no start of it. */
  lemma EndMisses(p: string, a: string, mark: string, w: string)
    requires |p| > |a| && Clash(p[|a|..], mark)
    ensures !(p <= a + (mark + w))
  {
    var k := FirstDifference(p[|a|..], mark);
    assert p[|a| + k] == p[|a|..][k] && (a + (mark + w))[|a| + k] == mark[k];
  }

  /** Nor is one that is shorter and no start of the whole. */
  lemma StartMisses(p: string, m: string, i: nat, w: string)
    requires p != [] && |p| <= i < |m| && (p == m || Clash(p, m))
    ensures !(p <= m[..i] + w)
  {
    var k := FirstDifference(p, m);
    assert (m[..i] + w)[k] == m[k];
  }

  lemma TokenEndBegins(uid: string, namespace: string, m: string, i: nat) returns (expression: string)
    requires DollarToken(m) && 1 <= i < |m| && !Clash(m[i..], namespace)
    requires Alone(m, AllRules(uid, namespace)) && MissMark(AllRules(uid, namespace))
    ensures Occurs(m, OnePass(uid, expression, namespace))
  {
    var a, t := m[..i], m[i..];
    var tail := Missing(namespace, t);
    expression := a + (MARK + tail);
    assert '$' !in t && 'A' !in t by { assert t == m[1..][i - 1..]; }
    ClashSymmetric(t, namespace);
    MissingCompletes(namespace, t);
    AllRulesHeaded(uid, namespace);
    StartCopied(m, i, tail, AllRules(uid, namespace));
    MarkScanned(uid, namespace, tail);
    TailCopied(tail, AllRules(uid, namespace));
    CompletedFrom(m, i, namespace + tail);
  }

  lemma CompletedFrom(m: string, i: nat, w: string)
    requires i <= |m| && m[i..] <= w
    ensures Occurs(m, m[..i] + w)
  {
    assert m == m[..i] + m[i..];
    assert m <= m[..i] + w;
  }

  /** The start of a token is copied if the namespace's placeholder follows. */
  lemma StartCopied(m: string, i: nat, w: string, rules: seq<Rule>)
    requires DollarToken(m) && 1 <= i < |m| && Headed(rules) && Alone(m, rules) && MissMark(rules)
    ensures Scan(m[..i] + (MARK + w), rules) == m[..i] + Scan(MARK + w, rules)
  {
    var a := m[..i];
    NothingBegins(m, i, w, rules);
    assert a[1..] == m[1..][..i - 1];
    SilentBeforeMark(a[1..], w, rules);
    FirstAndRestCopied(a, MARK + w, rules);
  }

  lemma FirstAndRestCopied(a: string, w: string, rules: seq<Rule>)
    requires a != [] && FirstMatch(a + w, rules) == |rules| && Silent(|a| - 1, a[1..] + w, rules)
    ensures Scan(a + w, rules) == a + Scan(w, rules)
  {
    assert (a + w)[1..] == a[1..] + w;
    ScanCopies(a, a + w, rules);
    assert (a + w)[|a|..] == w;
  }

  // ---- Tokens are alone ----

  lemma AllRulesMissMark(uid: string, namespace: string)
    ensures MissMark(AllRules(uid, namespace))
  {
    var rules := AllRules(uid, namespace);
    forall k | 0 <= k < |rules| && rules[k].pattern[0] == '$' ensures Inert(rules[k].pattern[1..], MARK) {
      if k == 1 {
        RateMissesMark();
      } else {
        assert k >= 2;
        var v, i := DashboardRuleOwner(uid, k - 2);
        assert rules[k] == DashboardRules(uid)[k - 2];
        PatternMissesMark(v, i);
      }
    }
  }

  lemma MentionsAlone(u: string, j: nat, v: string, i: nat)
    requires u in GENERIC_VARIABLES && v in GENERIC_VARIABLES && j < 7 && 4 <= i < 7
    ensures var p, m := VariableRule(u, j).pattern, VariableRule(v, i).pattern; p[0] == '$' ==> p == m || Clash(p, m)
  {
    GenericVariablesPrefixFree();
    var a :| 0 <= a < |GENERIC_VARIABLES| && GENERIC_VARIABLES[a] == u;
    var b :| 0 <= b < |GENERIC_VARIABLES| && GENERIC_VARIABLES[b] == v;
    if u != v {
      PatternsClash(u, j, v, i);
    } else if j >= 4 && i != j {
      OwnMentionsClash(v, j, i);
    }
  }

  lemma MentionAlone(uid: string, namespace: string, v: string, i: nat)
    requires uid != DATABASE_DASHBOARD && v in GENERIC_VARIABLES && 4 <= i < 7
    ensures Alone(VariableRule(v, i).pattern, AllRules(uid, namespace))
  {
    var rules, m := AllRules(uid, namespace), VariableRule(v, i).pattern;
    forall k | 0 <= k < |rules| && rules[k].pattern[0] == '$'
      ensures rules[k].pattern == m || Clash(rules[k].pattern, m)
    {
      MentionAloneAt(uid, namespace, v, i, k);
    }
  }

  lemma MentionAloneAt(uid: string, namespace: string, v: string, i: nat, k: nat)
    requires uid != DATABASE_DASHBOARD && v in GENERIC_VARIABLES && 4 <= i < 7
    requires k < |AllRules(uid, namespace)| && AllRules(uid, namespace)[k].pattern[0] == '$'
    ensures var p, m := AllRules(uid, namespace)[k].pattern, VariableRule(v, i).pattern; p == m || Clash(p, m)
  {
    AllRulesAt(uid, namespace, k);
    if k == 1 {
      GenericVariablesGood();
      MentionClashesWithRate(v, i);
    } else {
      DashboardRuleAlone(uid, k - 2, v, i);
    }
  }

  /** A rule whose pattern begins with the dollar sign is not the one of the namespace. */
  lemma AllRulesAt(uid: string, namespace: string, k: nat)
    requires k < |AllRules(uid, namespace)| && AllRules(uid, namespace)[k].pattern[0] == '$'
    ensures k == 1 ==> AllRules(uid, namespace)[k].pattern == RATE_INTERVAL
    ensures k != 1 ==> 2 <= k < |DashboardRules(uid)| + 2 && AllRules(uid, namespace)[k] == DashboardRules(uid)[k - 2]
  {
    assert MARK[0] == '_';
  }

  lemma DashboardRuleAlone(uid: string, k: nat, v: string, i: nat)
    requires uid != DATABASE_DASHBOARD && v in GENERIC_VARIABLES && 4 <= i < 7
    requires k < |DashboardRules(uid)| && DashboardRules(uid)[k].pattern[0] == '$'
    ensures var p, m := DashboardRules(uid)[k].pattern, VariableRule(v, i).pattern; p == m || Clash(p, m)
  {
    GenericVariablesGood();
    var u, j := DashboardRuleOwner(uid, k);
    MentionsAlone(u, j, v, i);
  }

  lemma RateAlone(uid: string, namespace: string)
    ensures Alone(RATE_INTERVAL, AllRules(uid, namespace))
  {
    var rules := AllRules(uid, namespace);
    forall k | 0 <= k < |rules| && rules[k].pattern[0] == '$'
      ensures rules[k].pattern == RATE_INTERVAL || Clash(rules[k].pattern, RATE_INTERVAL)
    {
      if k >= 2 {
        var u, j := DashboardRuleOwner(uid, k - 2);
        assert rules[k] == DashboardRules(uid)[k - 2];
        assert j >= 4;
        MentionClashesWithRate(u, j);
      }
    }
  }

  /** A token that the namespace can touch survives in one pass over some expression. */
  lemma UnsafeTokenSurvives(uid: string, namespace: string, m: string) returns (expression: string)
    requires DollarToken(m) && Alone(m, AllRules(uid, namespace)) && !Safe(namespace, m)
    ensures Occurs(m, OnePass(uid, expression, namespace))
  {
    if !Inert(namespace, m) {
      var i := NotInertAt(namespace, m);
      expression := EndBeginsToken(uid, namespace, m, i);
    } else {
      var i := NotInertAt(m[1..], namespace);
      assert m[1..][i..] == m[i + 1..];
      AllRulesMissMark(uid, namespace);
      expression := TokenEndBegins(uid, namespace, m, i + 1);
    }
  }

  lemma UnsafeMentionFails(uid: string, namespace: string, v: string, m: nat) returns (expression: string)
    requires uid != DATABASE_DASHBOARD && v in GENERIC_VARIABLES && m < 3 && !Safe(namespace, Mentions(v)[m])
    ensures Render(uid, expression, namespace) != OnePass(uid, expression, namespace)
  {
    GenericVariablesGood();
    MentionIsPattern(v, m);
    MentionIsDollarToken(v, 4 + m);
    MentionAlone(uid, namespace, v, 4 + m);
    expression := UnsafeTokenSurvives(uid, namespace, Mentions(v)[m]);
    NoMentionLeft(uid, expression, namespace, v, Mentions(v)[m]);
  }

  lemma IntervalIsDollarToken()
    ensures DollarToken(RATE_INTERVAL)
  {
  }

  lemma UnsafeIntervalFails(uid: string, namespace: string) returns (expression: string)
    requires !Safe(namespace, RATE_INTERVAL)
    ensures Render(uid, expression, namespace) != OnePass(uid, expression, namespace)
  {
    RateAlone(uid, namespace);
    IntervalIsDollarToken();
    expression := UnsafeTokenSurvives(uid, namespace, RATE_INTERVAL);
    NoRateIntervalLeft(uid, expression, namespace);
  }

  // ---- A namespace that starts with a quote ----

  /** `="$pod`, a quoted match up to its closing quote. */
  const OPEN_MATCH := "=\"$pod"

  lemma SelectionHead(uid: string, k: nat)
    requires k < |Substitutions(uid)|
    ensures DashboardRules(uid)[k].pattern[0] == '$'
  {
  }

  /** Rules for a text that starts with `=` insert a regular-expression match. */
  lemma EqualsInsertMatcher(uid: string, text: string, k: nat)
    requires k < |DashboardRules(uid)| && text != [] && text[0] == '=' && DashboardRules(uid)[k].pattern <= text
    ensures DashboardRules(uid)[k].value == "=~\".*\""
  {
    var subs := Substitutions(uid);
    if k < |subs| {
      SelectionHead(uid, k);
    }
    var a, i := GenericRuleOwner(GENERIC_VARIABLES, k - |subs|);
    assert DashboardRules(uid)[k] == VariableRule(GENERIC_VARIABLES[a], i);
    QuotedHead(GENERIC_VARIABLES[a], i);
  }

  lemma QuotedHead(v: string, i: nat)
    requires i < 7 && VariableRule(v, i).pattern[0] == '='
    ensures VariableRule(v, i).value == "=~\".*\""
  {
    assert VariableRule(v, i).pattern[0] == (Quote(i) + Open(i))[0];
    assert "=~\"" + ANY + "\"" == "=~\".*\"";
  }

  lemma PodIsMatched(uid: string, i: nat) returns (k: nat)
    requires i < 7
    ensures k < |DashboardRules(uid)| && DashboardRules(uid)[k] == VariableRule("pod", i)
  {
    assert GENERIC_VARIABLES[6] == "pod";
    GenericRuleAt(GENERIC_VARIABLES, 6, i);
    k := |Substitutions(uid)| + (7 * 6 + i);
  }

  lemma PodPatterns()
    ensures VariableRule("pod", 3) == Rule("=\"$pod\"", "=~\".*\"") && VariableRule("pod", 6) == Rule("$pod", ".*")
  {
    assert "pod" + "" == "pod" && "$" + "pod" == "$pod" && "" + "$pod" == "$pod";
    assert "pod" + "\"" == "pod\"" && "$" + "pod\"" == "$pod\"" && "=\"" + "$pod\"" == "=\"$pod\"";
  }

  lemma OpenMatchMarked(namespace: string)
    ensures Replace(OPEN_MATCH + MARK, MarkRule(namespace)) == OPEN_MATCH + namespace
  {
    InertByHead(OPEN_MATCH, MARK);
    ReplaceSkips(OPEN_MATCH, MARK, MarkRule(namespace));
    ReplaceWhole(MarkRule(namespace));
  }

  lemma ReplaceWhole(r: Rule)
    ensures Replace(r.pattern, r) == r.value
  {
    assert r.pattern[|r.pattern|..] == "" && r.value + "" == r.value;
  }

  lemma OpenMatchNamed(namespace: string) returns (rest: string)
    requires namespace != [] && namespace[0] == '"'
    ensures Named(OPEN_MATCH + MARK, namespace) == "=\"$pod\"" + rest
  {
    OpenMatchMarked(namespace);
    OpenMatchMissesInterval();
    ReplaceSkips(OPEN_MATCH, namespace, INTERVAL_RULE);
    rest := Replace(namespace[1..], INTERVAL_RULE);
    assert Replace(namespace, INTERVAL_RULE) == ['"'] + rest;
    assert OPEN_MATCH + ['"'] == "=\"$pod\"";
    Regroup(OPEN_MATCH, ['"'], rest);
  }

  lemma OpenMatchMissesInterval()
    ensures Inert(OPEN_MATCH, RATE_INTERVAL)
  {
    ClashAt("$pod", RATE_INTERVAL, 1);
    InertByHead("pod", RATE_INTERVAL);
    assert "$pod"[1..] == "pod" && OPEN_MATCH == "=\"" + "$pod";
    InertAfter("=\"", "$pod", RATE_INTERVAL);
  }

  /** The rendering of a text that starts with a quoted match starts with `=~`. */
  lemma MatchScanned(uid: string, rest: string)
    ensures StartsMatcher(Scan("=\"$pod\"" + rest, DashboardRules(uid)))
  {
    var text, rules := "=\"$pod\"" + rest, DashboardRules(uid);
    var own := PodIsMatched(uid, 3);
    PodPatterns();
    assert rules[own].pattern <= text;
    EqualsInsertMatcher(uid, text, FirstMatch(text, rules));
  }

  /** No pattern matches the open match or its quote if the placeholder follows. */
  lemma OpenMatchCopied(uid: string, namespace: string)
    ensures var out := OnePass(uid, OPEN_MATCH + MARK, namespace); |out| >= 2 && out[0] == '=' && out[1] == '"'
  {
    var s, rules := OPEN_MATCH + MARK, AllRules(uid, namespace);
    OpenMatchUnmatched(uid, namespace);
    AllRulesHeaded(uid, namespace);
    assert s[0] == '=' && s[1..][0] == '"';
    ScanByPick(s, rules);
    QuoteCopied(s[1..], rules);
  }

  lemma QuoteCopied(s: string, rules: seq<Rule>)
    requires s != [] && s[0] == '"' && Headed(rules)
    ensures Scan(s, rules) == ['"'] + Scan(s[1..], rules)
  {
    PickNothing(s, rules);
  }

  lemma OpenMatchUnmatched(uid: string, namespace: string)
    ensures Pick(OPEN_MATCH + MARK, AllRules(uid, namespace)) == []
  {
    var s, rules := OPEN_MATCH + MARK, AllRules(uid, namespace);
    assert s[0] == '=';
    forall k | 0 <= k < |rules| ensures !(rules[k].pattern <= s) {
      if k >= 2 {
        var v, i := DashboardRuleOwner(uid, k - 2);
        assert rules[k] == DashboardRules(uid)[k - 2];
        PatternMissesOpenMatch(v, i);
      }
    }
    PickNothing(s, rules);
  }

  lemma PatternMissesOpenMatch(v: string, i: nat)
    requires Name(v) && i < 7
    ensures !(VariableRule(v, i).pattern <= OPEN_MATCH + MARK)
  {
    if i < 4 {
      QuotedPattern(v, i);
      QuoteMissesOpenMatch(VariableRule(v, i).pattern);
    } else {
      BareHead(v, i);
    }
  }

  lemma BareHead(v: string, i: nat)
    requires 4 <= i < 7
    ensures VariableRule(v, i).pattern[0] == '$'
  {
    assert "" + (Open(i) + (v + Close(i))) == Open(i) + (v + Close(i));
  }

  lemma OpenMatchText()
    ensures OPEN_MATCH + MARK == "=\"" + ("$pod" + MARK)
  {
  }

  lemma QuoteMissesOpenMatch(p: string)
    requires |p| >= 3 && p[|p| - 1] == '"'
    ensures !(p <= OPEN_MATCH + MARK)
  {
    OpenMatchText();
    NoSecondQuote(p, "$pod" + MARK);
  }

  lemma NoSecondQuote(p: string, t: string)
    requires |p| >= 3 && p[|p| - 1] == '"' && '"' !in t
    ensures !(p <= "=\"" + t)
  {
    var s := "=\"" + t;
    assert |p| <= |s| ==> s[|p| - 1] == t[|p| - 3];
  }

  lemma LeadingQuoteFails(uid: string, namespace: string)
    requires uid != DATABASE_DASHBOARD && "\"" <= namespace
    ensures Render(uid, OPEN_MATCH + MARK, namespace) != OnePass(uid, OPEN_MATCH + MARK, namespace)
  {
    var rest := OpenMatchNamed(namespace);
    OneScan(uid, OPEN_MATCH + MARK, namespace);
    MatchScanned(uid, rest);
    OpenMatchCopied(uid, namespace);
  }

  // ---- A namespace that ends with `=` or `="` ----

  ghost predicate TokensInert(namespace: string)
  {
    forall v, braced :: v in GENERIC_VARIABLES ==> Inert(namespace, QuotedToken(v, braced))
  }

  /** What follows `x` in `="$pod"`. */
  function AfterOpening(x: string): string
  {
    if x == "=" then "\"$pod\"" else "$pod\""
  }

  /** A quoted match cannot start in the namespace if its token would. */
  lemma QuotedMissesNamespace(namespace: string, tail: string, q: string, token: string)
    requires |namespace| > |q| && Inert(namespace, token)
    ensures !(q + (token + "\"") <= namespace + tail)
  {
    var s, t, y := namespace + tail, token + "\"", namespace[|q|..];
    if q + t <= s {
      assert s[|q|..] == y + tail;
      TailStarts(q, t, s);
      CommonTextNoClash(t, y, y + tail);
      ClashSymmetric(t, y);
      ComparableWithStart(y, token, "\"");
      InertAt(namespace, token, |q|);
    }
  }

  lemma TailStarts(q: string, t: string, s: string)
    requires q + t <= s
    ensures t <= s[|q|..]
  {
    assert (q + t)[|q|..] == t;
  }

  /** Shorter namespaces with such an ending are no start of a quoted match. */
  lemma EndingIsNoQuote(namespace: string, x: string, i: nat, t: string, tail: string)
    requires x in ["=", "=\""] && EndsWith(namespace, x) && |x| < |namespace| <= |Quote(i)|
    ensures !(Quote(i) + t <= namespace + tail)
  {
    var q, k := Quote(i), |namespace| - |x|;
    assert namespace[k..][0] == x[0] == '=';
    assert q[k] != '=';
    assert (q + t)[k] == q[k] && (namespace + tail)[k] == namespace[k];
  }

  /** No quoted match starts in the namespace before its ending. */
  lemma QuotedStartsLater(namespace: string, x: string, tail: string, v: string, i: nat)
    requires TokensInert(namespace) && v in GENERIC_VARIABLES && i < 4
    requires x in ["=", "=\""] && EndsWith(namespace, x) && |namespace| > |x|
    ensures !(VariableRule(v, i).pattern <= namespace + tail)
  {
    QuotedPattern(v, i);
    if |namespace| > |Quote(i)| {
      QuotedMissesNamespace(namespace, tail, Quote(i), QuotedToken(v, i < 2));
    } else {
      EndingIsNoQuote(namespace, x, i, QuotedToken(v, i < 2) + "\"", tail);
    }
  }

  /** No rule of the dashboard matches in the namespace before its ending. */
  lemma NoneBefore(uid: string, namespace: string, x: string, tail: string)
    requires uid != DATABASE_DASHBOARD && TokensInert(namespace) && SelectionsInert(namespace)
    requires x in ["=", "=\""] && EndsWith(namespace, x)
    ensures NothingBefore(namespace + tail, DashboardRules(uid), |namespace| - |x|)
  {
    forall j | 0 <= j < |namespace| - |x| ensures NothingAt(namespace + tail, DashboardRules(uid), j) {
      NoneAt(uid, namespace, x, tail, j);
    }
  }

  lemma NoneAt(uid: string, namespace: string, x: string, tail: string, j: nat)
    requires uid != DATABASE_DASHBOARD && TokensInert(namespace) && SelectionsInert(namespace)
    requires x in ["=", "=\""] && EndsWith(namespace, x) && j < |namespace| - |x|
    ensures NothingAt(namespace + tail, DashboardRules(uid), j)
  {
    DropFront(namespace, tail, j);
    InertRest(namespace, j);
    EndingRest(namespace, x, j);
    NoneBeforeEnding(uid, namespace[j..], x, tail);
  }

  lemma NoneBeforeEnding(uid: string, namespace: string, x: string, tail: string)
    requires uid != DATABASE_DASHBOARD && TokensInert(namespace) && SelectionsInert(namespace)
    requires x in ["=", "=\""] && EndsWith(namespace, x) && |namespace| > |x|
    ensures FirstMatch(namespace + tail, DashboardRules(uid)) == |DashboardRules(uid)|
  {
    var s, rules := namespace + tail, DashboardRules(uid);
    forall k | 0 <= k < |rules| ensures !(rules[k].pattern <= s) {
      DashboardMissesNamespace(uid, namespace, x, tail, k);
    }
    PickNothing(s, rules);
  }

  lemma EndingRest(namespace: string, x: string, j: nat)
    requires EndsWith(namespace, x) && j < |namespace| - |x|
    ensures EndsWith(namespace[j..], x)
  {
    assert namespace[j..][|namespace| - j - |x|..] == namespace[|namespace| - |x|..];
  }

  ghost predicate SelectionsInert(namespace: string)
  {
    forall v :: v in GENERIC_VARIABLES ==> Inert(namespace, VariableRule(v, 4).pattern)
  }

  lemma InertRest(namespace: string, j: nat)
    requires j <= |namespace| && TokensInert(namespace) && SelectionsInert(namespace)
    ensures TokensInert(namespace[j..]) && SelectionsInert(namespace[j..])
  {
    forall v, braced | v in GENERIC_VARIABLES ensures Inert(namespace[j..], QuotedToken(v, braced)) {
      InertTail(namespace, QuotedToken(v, braced), j);
    }
    forall v | v in GENERIC_VARIABLES ensures Inert(namespace[j..], VariableRule(v, 4).pattern) {
      InertTail(namespace, VariableRule(v, 4).pattern, j);
    }
  }

  lemma DashboardMissesNamespace(uid: string, namespace: string, x: string, tail: string, k: nat)
    requires uid != DATABASE_DASHBOARD && TokensInert(namespace) && SelectionsInert(namespace)
    requires x in ["=", "=\""] && EndsWith(namespace, x) && |namespace| > |x| && k < |DashboardRules(uid)|
    ensures !(DashboardRules(uid)[k].pattern <= namespace + tail)
  {
    var v, i := DashboardRuleOwner(uid, k);
    if i < 4 {
      QuotedStartsLater(namespace, x, tail, v, i);
    } else {
      assert Inert(namespace, VariableRule(v, i).pattern) by { BareInert(namespace, v, i); }
      InertMissesStart(namespace, tail, VariableRule(v, i).pattern);
    }
  }

  lemma BareInert(namespace: string, v: string, i: nat)
    requires TokensInert(namespace) && SelectionsInert(namespace) && v in GENERIC_VARIABLES && 4 <= i < 7
    ensures Inert(namespace, VariableRule(v, i).pattern)
  {
    if i > 4 {
      TokenIsPattern(v, i == 5);
    }
  }

  lemma InertMissesStart(x: string, w: string, p: string)
    requires x != [] && Inert(x, p)
    ensures !(p <= x + w)
  {
    if p <= x + w {
      CommonTextNoClash(x, p, x + w);
    }
  }

  /** The rendering of a quoted match after the namespace's start. */
  lemma CompletedMatchScanned(uid: string, namespace: string, x: string)
    requires uid != DATABASE_DASHBOARD && TokensInert(namespace) && SelectionsInert(namespace)
    requires x in ["=", "=\""] && EndsWith(namespace, x)
    ensures |Scan(namespace + AfterOpening(x), DashboardRules(uid))| >= |namespace| - |x| + 6
  {
    NoneBefore(uid, namespace, x, AfterOpening(x));
    EndingCompletes(namespace, x);
    WholeMatchScanned(uid);
    LengthAfterCopy(namespace + AfterOpening(x), DashboardRules(uid), |namespace| - |x|, "=\"$pod\"");
  }

  lemma LengthAfterCopy(s: string, rules: seq<Rule>, n: nat, rest: string)
    requires n <= |s| && NothingBefore(s, rules, n) && s[n..] == rest
    ensures |Scan(s, rules)| == n + |Scan(rest, rules)|
  {
    ScanCopiesBefore(s, rules, n);
  }

  lemma EndingCompletes(namespace: string, x: string)
    requires x in ["=", "=\""] && EndsWith(namespace, x)
    ensures var s, n := namespace + AfterOpening(x), |namespace| - |x|;
            namespace[..n] <= s && s[n..] == "=\"$pod\""
  {
    assert x + AfterOpening(x) == "=\"$pod\"";
    assert namespace == namespace[..|namespace| - |x|] + x;
  }

  lemma WholeMatchScanned(uid: string)
    requires uid != DATABASE_DASHBOARD
    ensures |Scan("=\"$pod\"", DashboardRules(uid))| >= 6
  {
    var text, rules := "=\"$pod\"", DashboardRules(uid);
    var own := PodIsMatched(uid, 3);
    PodPatterns();
    assert rules[own].pattern <= text;
    var k := FirstMatch(text, rules);
    EqualsInsertMatcher(uid, text, k);
  }

  lemma PodPicked(uid: string, namespace: string)
    requires uid != DATABASE_DASHBOARD
    ensures Pick("$pod\"", AllRules(uid, namespace)) == [Rule("$pod", ".*")]
  {
    var s, rules := "$pod\"", AllRules(uid, namespace);
    var own := PodIsMatched(uid, 6);
    PodPatterns();
    assert rules[own + 2] == DashboardRules(uid)[own];
    assert "$pod" <= s;
    PodAlone(uid, namespace, FirstMatch(s, rules));
  }

  /** One pass replaces the bare mention that follows the namespace. */
  lemma PodScanned(uid: string, namespace: string)
    requires uid != DATABASE_DASHBOARD
    ensures Scan("$pod\"", AllRules(uid, namespace)) == ".*\""
  {
    PodPicked(uid, namespace);
    AllRulesHeaded(uid, namespace);
    PodThenQuote(AllRules(uid, namespace));
  }

  lemma PodThenQuote(rules: seq<Rule>)
    requires Pick("$pod\"", rules) == [Rule("$pod", ".*")] && Headed(rules)
    ensures Scan("$pod\"", rules) == ".*\""
  {
    ScanByPick("$pod\"", rules);
    assert "$pod\""[4..] == "\"" && "\""[1..] == "";
    QuoteCopied("\"", rules);
    assert ['"'] + "" == "\"" && ".*" + "\"" == ".*\"";
  }

  lemma PodAlone(uid: string, namespace: string, k: nat)
    requires uid != DATABASE_DASHBOARD
    requires k < |AllRules(uid, namespace)| && AllRules(uid, namespace)[k].pattern <= "$pod\""
    ensures AllRules(uid, namespace)[k] == Rule("$pod", ".*")
  {
    var rules := AllRules(uid, namespace);
    assert GENERIC_VARIABLES[6] == "pod";
    PodPatterns();
    MentionAlone(uid, namespace, "pod", 6);
    assert "$pod" <= "$pod\"";
    CommonTextNoClash(rules[k].pattern, "$pod", "$pod\"");
    assert rules[k].pattern == "$pod";
    PodValue(uid, k - 2);
  }

  lemma SelectionSecond(uid: string, k: nat)
    requires k < |Substitutions(uid)|
    ensures DashboardRules(uid)[k].pattern[1] == '{'
  {
  }

  lemma PodValue(uid: string, k: nat)
    requires k < |DashboardRules(uid)| && DashboardRules(uid)[k].pattern == "$pod"
    ensures DashboardRules(uid)[k].value == ".*"
  {
    var subs := Substitutions(uid);
    if k < |subs| {
      SelectionSecond(uid, k);
    } else {
      var a, i := GenericRuleOwner(GENERIC_VARIABLES, k - |subs|);
      assert VariableRule(GENERIC_VARIABLES[a], i).pattern[0] == (Quote(i) + Open(i))[0];
    }
  }

  lemma EndingNamed(namespace: string, tail: string)
    requires Inert(namespace, RATE_INTERVAL) && 'A' !in tail && '_' !in tail
    ensures Named(MARK + tail, namespace) == namespace + tail
  {
    var mark := MarkRule(namespace);
    assert (MARK + tail)[|MARK|..] == tail;
    NotWithout('A', MARK, tail);
    ReplaceIdentity(tail, mark);
    ReplaceSkips(namespace, tail, INTERVAL_RULE);
    NotWithout('_', RATE_INTERVAL, tail);
    ReplaceIdentity(tail, INTERVAL_RULE);
  }

  lemma EndingPassed(uid: string, namespace: string, x: string)
    requires uid != DATABASE_DASHBOARD && x in ["=", "=\""]
    ensures |OnePass(uid, MARK + AfterOpening(x), namespace)| == |namespace| + 5 - |x|
  {
    var rules := AllRules(uid, namespace);
    MarkScanned(uid, namespace, AfterOpening(x));
    PodScanned(uid, namespace);
    if x == "=" {
      AllRulesHeaded(uid, namespace);
      QuoteCopied("\"$pod\"", rules);
      assert "\"$pod\""[1..] == "$pod\"";
    }
  }

  lemma EndingFails(uid: string, namespace: string, x: string)
    requires uid != DATABASE_DASHBOARD && Inert(namespace, RATE_INTERVAL)
    requires TokensInert(namespace) && SelectionsInert(namespace)
    requires x in ["=", "=\""] && EndsWith(namespace, x)
    ensures var expression := MARK + AfterOpening(x);
            Render(uid, expression, namespace) != OnePass(uid, expression, namespace)
  {
    OpeningHasNoPlaceholder(x);
    EndingNamed(namespace, AfterOpening(x));
    EndingPassed(uid, namespace, x);
    OneScan(uid, MARK + AfterOpening(x), namespace);
    CompletedMatchScanned(uid, namespace, x);
  }

  lemma OpeningHasNoPlaceholder(x: string)
    ensures 'A' !in AfterOpening(x) && '_' !in AfterOpening(x)
  {
  }

  /** For the other dashboards, rendering is one pass after the placeholders were replaced. */
  lemma OneScan(uid: string, expression: string, namespace: string)
    requires uid != DATABASE_DASHBOARD
    ensures Render(uid, expression, namespace) == Scan(Named(expression, namespace), DashboardRules(uid))
  {
    RenderIsChain(uid, expression, namespace);
    OtherDashboardsLayered(uid);
    ChainIsScan(Named(expression, namespace), DashboardRules(uid));
  }

  // ---- The condition is exact ----

  /** The mentions of a namespace that none of them can touch. */
  lemma SafeTokens(namespace: string)
    requires forall v, m: nat :: v in GENERIC_VARIABLES && m < 3 ==> Safe(namespace, Mentions(v)[m])
    ensures TokensInert(namespace) && SelectionsInert(namespace)
  {
    forall v, braced | v in GENERIC_VARIABLES ensures Inert(namespace, QuotedToken(v, braced)) {
      assert Safe(namespace, Mentions(v)[if braced then 1 else 2]);
    }
    forall v | v in GENERIC_VARIABLES ensures Inert(namespace, VariableRule(v, 4).pattern) {
      assert Safe(namespace, Mentions(v)[0]);
      MentionIsPattern(v, 0);
    }
  }

  /** If its mentions are safe the dashboard's own selections are. */
  lemma SafeSelections(uid: string, namespace: string)
    requires uid != DATABASE_DASHBOARD
    requires forall v, m: nat :: v in GENERIC_VARIABLES && m < 3 ==> Safe(namespace, Mentions(v)[m])
    ensures forall k :: 0 <= k < |SelectionTable(uid)| ==> SafeSelection(namespace, SelectionTable(uid)[k])
  {
    SelectionNames(uid);
    forall k | 0 <= k < |SelectionTable(uid)| ensures SafeSelection(namespace, SelectionTable(uid)[k]) {
      var entry := SelectionTable(uid)[k];
      assert Safe(namespace, Mentions(entry.0)[0]);
    }
  }

  /** An unsafe namespace has an expression whose rendering is not one pass. */
  lemma UnsafeFails(uid: string, namespace: string) returns (expression: string)
    requires uid != DATABASE_DASHBOARD && !SafeNamespace(uid, namespace)
    ensures Render(uid, expression, namespace) != OnePass(uid, expression, namespace)
  {
    if !Safe(namespace, RATE_INTERVAL) {
      expression := UnsafeIntervalFails(uid, namespace);
    } else if v, m: nat :| v in GENERIC_VARIABLES && m < 3 && !Safe(namespace, Mentions(v)[m]) {
      expression := UnsafeMentionFails(uid, namespace, v, m);
    } else {
      SafeTokens(namespace);
      SafeSelections(uid, namespace);
      if "\"" <= namespace {
        expression := OPEN_MATCH + MARK;
        LeadingQuoteFails(uid, namespace);
      } else {
        var x := if EndsWith(namespace, "=") then "=" else "=\"";
        expression := MARK + AfterOpening(x);
        EndingFails(uid, namespace, x);
      }
    }
  }
}
