/**
  On the database dashboard a selection inserts `database`, which can complete a mention that the text only
  began. Rendering is one pass over a text exactly if it holds none of three such beginnings.
 */
module DatabaseDashboard {
  import opened Rewriting
  import opened Expressions
  import opened Seams
  import opened SinglePass

  const SELECTED := "${namespace:regex}"

  const NAMESPACE_RULE: Rule := Rule(SELECTED, "database")

  /** What comes before and after the selection, and the mention that its value completes. */
  datatype Beginning = Beginning(before: string, after: string, mention: string)

  const BEGINNINGS: seq<Beginning> := [
    Beginning("$po", "", "$pod"),
    Beginning("$workloa", "", "$workload"),
    Beginning("${", ":regex}", "${database:regex}")
  ]

  function Text(b: Beginning): string
  {
    b.before + (SELECTED + b.after)
  }

  /** `$po${namespace:regex}`, `$workloa${namespace:regex}` and `${${namespace:regex}:regex}` do not occur. */
  ghost predicate NothingBegun(text: string)
  {
    forall b :: b in BEGINNINGS ==> !Occurs(Text(b), text)
  }

  /** The dashboard's replacements after the one of `${namespace:regex}`. */
  function LaterRules(): seq<Rule>
  {
    Selections(SelectionTable(DATABASE_DASHBOARD)[1..]) + GenericRules(GENERIC_VARIABLES)
  }

  lemma SelectedIsPattern()
    ensures SELECTED == VariableRule("namespace", 4).pattern
    ensures Selection("namespace", "database") == NAMESPACE_RULE
  {
    MentionIsPattern("namespace", 0);
    assert "${" + "namespace" + ":regex}" == SELECTED;
  }

  lemma DatabaseRules()
    ensures DashboardRules(DATABASE_DASHBOARD) == [NAMESPACE_RULE] + LaterRules()
  {
    var table := SelectionTable(DATABASE_DASHBOARD);
    SelectedIsPattern();
    assert table[0] == ("namespace", "database");
    assert Selections(table) == [NAMESPACE_RULE] + Selections(table[1..]);
  }

  lemma LaterOwner(k: nat) returns (v: string, i: nat)
    requires k < |LaterRules()|
    ensures GoodName(v) && i < 7 && LaterRules()[k].pattern == VariableRule(v, i).pattern
    ensures v in GENERIC_VARIABLES || (v == "database" && i == 4)
  {
    var table := SelectionTable(DATABASE_DASHBOARD);
    var subs := Selections(table[1..]);
    if k < |subs| {
      SelectionNamesGood(DATABASE_DASHBOARD);
      v, i := table[k + 1].0, 4;
      assert subs[k] == Selection(table[1..][k].0, table[1..][k].1);
      MentionIsPattern(v, 0);
      SelectionNames(DATABASE_DASHBOARD);
    } else {
      var a: nat;
      a, i := GenericRuleOwner(GENERIC_VARIABLES, k - |subs|);
      GenericVariablesGood();
      v := GENERIC_VARIABLES[a];
    }
  }

  lemma LaterHarmless()
    ensures var table := SelectionTable(DATABASE_DASHBOARD)[1..]; forall k :: 0 <= k < |table| ==> Harmless(table[k])
  {
    assert IpText("ip-country-postgres") && IpText("ip_country");
  }

  lemma LaterLayered()
    ensures Layered(LaterRules())
  {
    GenericVariablesPrefixFree();
    PrefixFreeIsOrdered(GENERIC_VARIABLES);
    GenericVariablesNoIp();
    LaterHarmless();
    SelectionsMayPrecede(SelectionTable(DATABASE_DASHBOARD)[1..], GENERIC_VARIABLES);
  }

  lemma LaterPassive()
    ensures Passive(NAMESPACE_RULE, LaterRules())
  {
    var rules := LaterRules();
    forall k | 0 <= k < |rules|
      ensures Inert(NAMESPACE_RULE.value, rules[k].pattern) && Inert(rules[k].pattern[1..], NAMESPACE_RULE.pattern)
    {
      var v, i := LaterOwner(k);
      PatternPassive(v, i);
    }
  }

  lemma PatternPassive(v: string, i: nat)
    requires Name(v) && i < 7
    ensures Inert("database", VariableRule(v, i).pattern) && Inert(VariableRule(v, i).pattern[1..], SELECTED)
  {
    PatternHeadIsMark(v, i);
    InertByHead("database", VariableRule(v, i).pattern);
    SelectedIsPattern();
    TailMissesSelection("namespace", v, i);
  }

  lemma PatternHeadIsMark(v: string, i: nat)
    requires i < 7
    ensures VariableRule(v, i).pattern[0] == '$' || VariableRule(v, i).pattern[0] == '='
  {
    assert VariableRule(v, i).pattern[0] == (Quote(i) + Open(i))[0];
  }

  // ---- Which patterns the inserted text can complete ----

  /** `d` is never before `a`, and last only in `pod` and `workload`. */
  predicate FewDs(v: string)
  {
    && (forall k :: 0 <= k < |v| - 1 && v[k] == 'd' ==> v[k + 1] != 'a')
    && (v != "" && v[|v| - 1] == 'd' ==> EndsInD(v))
  }

  predicate EndsInD(v: string)
  {
    v == "pod" || v == "workload"
  }

  lemma GenericVariablesFewDs()
    ensures forall k :: 0 <= k < |GENERIC_VARIABLES| ==> FewDs(GENERIC_VARIABLES[k])
  {
  }

  /** An end of a pattern that starts like `database`. */
  lemma EndLikeDatabase(v: string, i: nat, j: nat)
    requires Name(v) && i < 7 && FewDs(v)
    requires j < |VariableRule(v, i).pattern| && !Clash(VariableRule(v, i).pattern[j..], "database")
    ensures (v == "pod" || v == "workload") && i == 6 && j == |v|
  {
    var l, c := Quote(i) + Open(i), Close(i);
    assert VariableRule(v, i).pattern == l + (v + c);
    OnlyBareIsOpen(i);
    EndInName(l, v, c, j);
    assert |c| == 0 && i == 6 && |l| == 1;
  }

  lemma OnlyBareIsOpen(i: nat)
    requires i < 7
    ensures |Close(i)| == 0 <==> i == 6
    ensures i == 6 ==> |Quote(i) + Open(i)| == 1
    ensures 'd' !in Quote(i) + Open(i) && 'd' !in Close(i) && 'a' !in Close(i)
  {
  }

  lemma EndInName(l: string, v: string, c: string, j: nat)
    requires 'd' !in l && 'd' !in c && 'a' !in c && FewDs(v)
    requires j < |l + (v + c)| && !Clash((l + (v + c))[j..], "database")
    ensures (v == "pod" || v == "workload") && c == "" && j == |l| + |v| - 1
  {
    var q := l + (v + c);
    DatabaseLetters(q, j);
    assert |l| <= j < |l| + |v|;
    var k := j - |l|;
    LetterAfter(l, v, c, k);
    assert v[k] == 'd';
    assert k + 1 == |v| && EndsInD(v);
  }

  lemma DatabaseLetters(q: string, j: nat)
    requires j < |q| && !Clash(q[j..], "database")
    ensures q[j] == 'd' && (j + 1 < |q| ==> q[j + 1] == 'a')
  {
    assert q[j] == q[j..][0];
    assert j + 1 < |q| ==> q[j + 1] == q[j..][1];
  }

  lemma LetterAfter(l: string, v: string, c: string, k: nat)
    requires k < |v|
    ensures var q, j := l + (v + c), |l| + k;
            && q[j] == v[k]
            && (k + 1 < |v| ==> j + 1 < |q| && q[j + 1] == v[k + 1])
            && (k + 1 == |v| && c != "" ==> j + 1 < |q| && q[j + 1] == c[0] && c[0] in c)
  {
  }

  lemma EndOfDatabase(j: nat)
    requires 1 <= j < |VariableRule("database", 4).pattern|
    requires !Clash(VariableRule("database", 4).pattern[j..], "database")
    ensures j == 2
  {
    var q := VariableRule("database", 4).pattern;
    DatabasePattern();
    assert q[j] == q[j..][0] == 'd';
  }

  lemma DatabasePattern()
    ensures VariableRule("database", 4).pattern == "${database:regex}"
  {
    MentionIsPattern("database", 0);
    assert "${" + "database" + ":regex}" == "${database:regex}";
  }

  lemma BarePattern(v: string)
    ensures VariableRule(v, 6).pattern == "$" + v
  {
    MentionIsPattern(v, 2);
    assert "$" + v + "" == "$" + v;
  }

  // ---- A text without the beginnings is rendered in one pass ----

  /** A match that replacing `${namespace:regex}` makes comes from one of the beginnings. */
  lemma BareMatchHasBegun(s: string, v: string, i: nat) returns (b: Beginning)
    requires Name(v) && i < 7 && FewDs(v) && !(SELECTED <= s)
    requires VariableRule(v, i).pattern <= Replace(s, NAMESPACE_RULE) && !(VariableRule(v, i).pattern <= s)
    ensures b in BEGINNINGS && Text(b) <= s
  {
    var j := NewEnd(s, VariableRule(v, i).pattern);
    EndLikeDatabase(v, i, j);
    b := BareHasBegun(s, v);
  }

  lemma DatabaseMatchHasBegun(s: string) returns (b: Beginning)
    requires !(SELECTED <= s)
    requires VariableRule("database", 4).pattern <= Replace(s, NAMESPACE_RULE)
             && !(VariableRule("database", 4).pattern <= s)
    ensures b in BEGINNINGS && Text(b) <= s
  {
    var j := NewEnd(s, VariableRule("database", 4).pattern);
    b := DatabaseHasBegun(s, j);
  }

  lemma NewEnd(s: string, q: string) returns (j: nat)
    requires q <= Replace(s, NAMESPACE_RULE) && !(q <= s) && !(SELECTED <= s)
    ensures 1 <= j < |q| && j <= |s| && q[..j] <= s && SELECTED <= s[j..]
    ensures q[j..] <= "database" + Replace(s[j..][|SELECTED|..], NAMESPACE_RULE)
    ensures !Clash(q[j..], "database")
  {
    j := NewPrefix(s, NAMESPACE_RULE, q);
    NotAtStart(s, j);
    CommonTextNoClash(q[j..], "database", "database" + Replace(s[j..][|SELECTED|..], NAMESPACE_RULE));
  }

  lemma BareHasBegun(s: string, v: string) returns (b: Beginning)
    requires v == "pod" || v == "workload"
    requires |v| <= |s| && VariableRule(v, 6).pattern[..|v|] <= s && SELECTED <= s[|v|..]
    ensures b in BEGINNINGS && Text(b) <= s
  {
    b := BEGINNINGS[if v == "pod" then 0 else 1];
    BarePattern(v);
    BeforeOf(v);
    BeginningAt(s, |v|, b);
  }

  lemma NotAtStart(s: string, j: nat)
    requires j <= |s| && SELECTED <= s[j..] && !(SELECTED <= s)
    ensures j > 0
  {
    assert s[0..] == s;
  }

  lemma BeforeOf(v: string)
    requires v == "pod" || v == "workload"
    ensures var b := BEGINNINGS[if v == "pod" then 0 else 1]; b.before == ("$" + v)[..|v|] && b.after == ""
  {
  }

  lemma DatabaseHasBegun(s: string, j: nat) returns (b: Beginning)
    requires 1 <= j < |VariableRule("database", 4).pattern| && j <= |s|
    requires VariableRule("database", 4).pattern[..j] <= s && SELECTED <= s[j..]
    requires VariableRule("database", 4).pattern[j..] <= "database" + Replace(s[j..][|SELECTED|..], NAMESPACE_RULE)
    requires !Clash(VariableRule("database", 4).pattern[j..], "database")
    ensures b in BEGINNINGS && Text(b) <= s
  {
    b := BEGINNINGS[2];
    EndOfDatabase(j);
    DatabaseParts();
    var rest := s[2..][|SELECTED|..];
    TailStartsAfter("database", ":regex}", Replace(rest, NAMESPACE_RULE));
    RegexSurvives(rest);
    BeginningAt(s, 2, b);
  }

  lemma DatabaseParts()
    ensures var q := VariableRule("database", 4).pattern; q[..2] == "${" && q[2..] == "database" + ":regex}"
  {
    DatabasePattern();
  }

  lemma TailStartsAfter(x: string, y: string, w: string)
    requires x + y <= x + w
    ensures y <= w
  {
    assert (x + y)[|x|..] == y && (x + w)[|x|..] == w;
    assert (x + w)[..|x + y|] == x + y;
    assert w[..|y|] == (x + w)[|x|..|x| + |y|];
  }

  lemma RegexSurvives(s: string)
    requires ":regex}" <= Replace(s, NAMESPACE_RULE)
    ensures ":regex}" <= s
  {
    ReplaceIsScan(s, NAMESPACE_RULE);
    InertByHead(":regex}", "database");
    ScanReflectsPrefix(":regex}", s, [NAMESPACE_RULE]);
  }

  lemma BeginningAt(s: string, j: nat, b: Beginning)
    requires j == |b.before| <= |s| && b.before <= s && SELECTED <= s[j..] && b.after <= s[j..][|SELECTED|..]
    ensures Text(b) <= s
  {
    assert s == b.before + (SELECTED + s[j..][|SELECTED|..]);
  }

  lemma {:induction false} QuietUnlessBegun(s: string)
    requires NothingBegun(s)
    ensures Quiet(s, NAMESPACE_RULE, LaterRules())
    decreases |s|
  {
    if s != [] {
      NothingBegunRest(s);
      QuietUnlessBegun(s[1..]);
      if !(SELECTED <= s) {
        NoNewMatchUnlessBegun(s);
      }
    } else {
      assert Replace(s, NAMESPACE_RULE) == [];
    }
  }

  lemma NothingBegunRest(s: string)
    requires NothingBegun(s) && s != []
    ensures NothingBegun(s[1..])
  {
  }

  lemma NoNewMatchUnlessBegun(s: string)
    requires NothingBegun(s) && !(SELECTED <= s)
    ensures NoNewMatch(s, Replace(s, NAMESPACE_RULE), LaterRules())
  {
    var rules, t := LaterRules(), Replace(s, NAMESPACE_RULE);
    GenericVariablesFewDs();
    forall k | 0 <= k < |rules| && rules[k].pattern <= t ensures rules[k].pattern <= s {
      var v, i := LaterOwner(k);
      OldMatch(s, v, i);
    }
  }

  lemma OldMatch(s: string, v: string, i: nat)
    requires NothingBegun(s) && !(SELECTED <= s)
    requires Name(v) && i < 7 && ((v == "database" && i == 4) || FewDs(v))
    requires VariableRule(v, i).pattern <= Replace(s, NAMESPACE_RULE)
    ensures VariableRule(v, i).pattern <= s
  {
    if !(VariableRule(v, i).pattern <= s) {
      if v == "database" && i == 4 {
        var b := DatabaseMatchHasBegun(s);
      } else {
        var b := BareMatchHasBegun(s, v, i);
      }
    }
  }

  /** A text that begins no such mention is rendered in one pass. */
  lemma NothingBegunIsOnePass(text: string)
    requires NothingBegun(text)
    ensures Chain(text, DashboardRules(DATABASE_DASHBOARD)) == Scan(text, DashboardRules(DATABASE_DASHBOARD))
  {
    var later := LaterRules();
    DatabaseRules();
    ChainAppend(text, [NAMESPACE_RULE], later);
    ChainOne(text, NAMESPACE_RULE);
    LaterLayered();
    ChainIsScan(Replace(text, NAMESPACE_RULE), later);
    LaterPassive();
    QuietUnlessBegun(text);
    ReplaceThenScan(text, NAMESPACE_RULE, later);
  }

  // ---- A text with one of them is not ----

  lemma DatabaseOwner(k: nat) returns (v: string, i: nat)
    requires k < |DashboardRules(DATABASE_DASHBOARD)|
    ensures GoodName(v) && i < 7 && DashboardRules(DATABASE_DASHBOARD)[k].pattern == VariableRule(v, i).pattern
    ensures v in GENERIC_VARIABLES || (v == "database" && i == 4)
  {
    DatabaseRules();
    if k == 0 {
      v, i := "namespace", 4;
      SelectedIsPattern();
      assert GENERIC_VARIABLES[4] == "namespace";
    } else {
      v, i := LaterOwner(k - 1);
    }
  }

  /** The name that a beginning cuts short, if it does not open with a brace. */
  predicate CutShort(b: Beginning, n: string)
  {
    Name(n) && b.before == "$" + n
  }

  lemma BeginningKinds(b: Beginning) returns (n: string)
    requires b in BEGINNINGS
    ensures CutShort(b, n) || b == BEGINNINGS[2]
    ensures CutShort(b, n) ==> exists v :: v in GENERIC_VARIABLES && n <= v && |n| < |v| && b.mention == "$" + v
  {
    assert GENERIC_VARIABLES[6] == "pod" && GENERIC_VARIABLES[12] == "workload";
    n := if b == BEGINNINGS[0] then "po" else "workloa";
    assert b == BEGINNINGS[0] ==> n <= "pod" && b.mention == "$" + "pod";
    assert b == BEGINNINGS[1] ==> n <= "workload" && b.mention == "$" + "workload";
  }

  /** No pattern matches at the start of a beginning. */
  lemma PatternMissesBeginning(v: string, i: nat, b: Beginning, w: string)
    requires GoodName(v) && i < 7 && (i == 6 ==> v in GENERIC_VARIABLES)
    requires b in BEGINNINGS && Text(b) <= w
    ensures !(VariableRule(v, i).pattern <= w)
  {
    var p := VariableRule(v, i).pattern;
    var n := BeginningKinds(b);
    assert w[0] == '$';
    if i < 4 {
      assert p[0] == Quote(i)[0] == '=';
    } else if b == BEGINNINGS[2] {
      BraceMisses(v, i, w);
    } else {
      NameMisses(v, i, b, n, w);
    }
  }

  lemma BraceMisses(v: string, i: nat, w: string)
    requires GoodName(v) && 4 <= i < 7 && |w| >= 3 && w[1] == '{' && w[2] == '$'
    ensures !(VariableRule(v, i).pattern <= w)
  {
    var p := VariableRule(v, i).pattern;
    assert p == Open(i) + (v + Close(i));
    assert i == 6 ==> p[1] == v[0];
    assert i < 6 ==> p[2] == v[0];
  }

  lemma NameMisses(v: string, i: nat, b: Beginning, n: string, w: string)
    requires GoodName(v) && 4 <= i < 7 && (i == 6 ==> v in GENERIC_VARIABLES)
    requires b in BEGINNINGS && CutShort(b, n) && Text(b) <= w
    requires exists u :: u in GENERIC_VARIABLES && n <= u && |n| < |u| && b.mention == "$" + u
    ensures !(VariableRule(v, i).pattern <= w)
  {
    assert w[1] == b.before[1] == n[0];
    if i == 6 {
      var u :| u in GENERIC_VARIABLES && n <= u && |n| < |u| && b.mention == "$" + u;
      BarePattern(v);
      BareMisses(v, b, n, u, w);
    } else {
      OpensWithBrace(v, i);
    }
  }

  lemma OpensWithBrace(v: string, i: nat)
    requires 4 <= i < 6
    ensures |VariableRule(v, i).pattern| >= 2 && VariableRule(v, i).pattern[1] == '{'
  {
    assert VariableRule(v, i).pattern == Open(i) + (v + Close(i));
  }

  lemma BareMisses(v: string, b: Beginning, n: string, u: string, w: string)
    requires Name(v) && v in GENERIC_VARIABLES && u in GENERIC_VARIABLES && n <= u && |n| < |u|
    requires CutShort(b, n) && Text(b) <= w
    ensures !("$" + v <= w)
  {
    if "$" + v <= w {
      assert "$" + n + "$" <= Text(b);
      StartOfName(v, n, w);
      NoNameStarts(v, u);
    }
  }

  lemma StartOfName(v: string, n: string, w: string)
    requires Name(v) && "$" + v <= w && "$" + n + "$" <= w
    ensures v <= n
  {
    assert ("$" + n + "$")[|n| + 1] == '$' == w[|n| + 1];
    forall k | 0 <= k < |v| && k < |n| ensures v[k] == n[k] {
      assert w[k + 1] == ("$" + v)[k + 1] == ("$" + n + "$")[k + 1];
    }
  }

  lemma NoNameStarts(v: string, u: string)
    requires v in GENERIC_VARIABLES && u in GENERIC_VARIABLES && |v| < |u|
    ensures !(v <= u)
  {
    GenericVariablesPrefixFree();
    var a :| 0 <= a < |GENERIC_VARIABLES| && GENERIC_VARIABLES[a] == v;
    var c :| 0 <= c < |GENERIC_VARIABLES| && GENERIC_VARIABLES[c] == u;
    assert a != c && Clash(GENERIC_VARIABLES[a], GENERIC_VARIABLES[c]);
  }

  /** No pattern runs into a beginning. */
  lemma PatternEndMissesBeginning(v: string, i: nat, b: Beginning)
    requires GoodName(v) && i < 7 && b in BEGINNINGS
    ensures Inert(VariableRule(v, i).pattern[1..], Text(b))
  {
    var q, m, x := VariableRule(v, i).pattern, Open(i) + (v + Close(i)), Text(b);
    NamesArePlain(v, i);
    MentionShape(Open(i), v + Close(i));
    assert x[0] == '$';
    if i < 4 {
      QuotedTokenMissesBeginning(v, i, b);
      InertByHead(m[1..], x);
      QuotedTail(v, i);
      InertAfter(Quote(i)[1..], m, x);
    } else {
      assert q[1..] == m[1..];
      InertByHead(q[1..], x);
    }
  }

  lemma QuotedTail(v: string, i: nat)
    requires i < 4
    ensures VariableRule(v, i).pattern[1..] == Quote(i)[1..] + (Open(i) + (v + Close(i)))
    ensures '$' !in Quote(i)[1..]
  {
  }

  lemma QuotedTokenMissesBeginning(v: string, i: nat, b: Beginning)
    requires GoodName(v) && i < 4 && b in BEGINNINGS
    ensures Clash(Open(i) + (v + Close(i)), Text(b))
  {
    if b == BEGINNINGS[2] {
      TokenMissesBrace(v, i, Text(b));
    } else {
      var n := BeginningKinds(b);
      TokenMissesName(v, i, n, SELECTED + b.after);
      Regroup("$", n, SELECTED + b.after);
    }
  }

  lemma TokenMissesBrace(v: string, i: nat, x: string)
    requires GoodName(v) && i < 4 && |x| >= 3 && x[1] == '{' && x[2] == '$'
    ensures Clash(Open(i) + (v + Close(i)), x)
  {
    ClashAt(Open(i) + (v + Close(i)), x, if i < 2 then 2 else 1);
  }

  lemma TokenMissesName(v: string, i: nat, n: string, after: string)
    requires GoodName(v) && i < 4 && Name(n) && after != "" && after[0] == '$'
    ensures Clash(Open(i) + (v + Close(i)), "$" + (n + after))
  {
    if i < 2 {
      ClashAt(Open(i) + (v + Close(i)), "$" + (n + after), 1);
    } else {
      EndsClash(v, Close(i), n, after);
      ClashUnderLead("$", v + Close(i), n + after);
    }
  }

  /** One pass copies what comes before the selection. */
  lemma BeforeCopied(b: Beginning, w: string)
    requires b in BEGINNINGS && Text(b) <= w
    ensures NothingBefore(w, DashboardRules(DATABASE_DASHBOARD), |b.before|)
  {
    var rules := DashboardRules(DATABASE_DASHBOARD);
    forall j | 0 <= j < |b.before| ensures NothingAt(w, rules, j) {
      forall k | 0 <= k < |rules| ensures !(rules[k].pattern <= w[j..]) {
        var v, i := DatabaseOwner(k);
        if j == 0 {
          assert w[0..] == w;
          PatternMissesBeginning(v, i, b, w);
        } else {
          PatternHeadIsMark(v, i);
          BeforeHasNoHead(b, j);
          assert w[j..][0] == Text(b)[j] == b.before[j];
        }
      }
      PickNothing(w[j..], rules);
    }
  }

  lemma BeforeHasNoHead(b: Beginning, j: nat)
    requires b in BEGINNINGS && 0 < j < |b.before|
    ensures b.before[j] != '$' && b.before[j] != '='
  {
  }

  lemma AfterCopied(b: Beginning, rest: string)
    requires b in BEGINNINGS
    ensures Scan(b.after + rest, DashboardRules(DATABASE_DASHBOARD))
            == b.after + Scan(rest, DashboardRules(DATABASE_DASHBOARD))
  {
    var rules := DashboardRules(DATABASE_DASHBOARD);
    forall k | 0 <= k < |rules| ensures Inert(b.after, rules[k].pattern) {
      var v, i := DatabaseOwner(k);
      PatternHeadIsMark(v, i);
      InertByHead(b.after, rules[k].pattern);
    }
    ScanAfterInert(b.after, rest, rules);
  }

  lemma SelectedScanned(w: string)
    ensures Scan(SELECTED + w, DashboardRules(DATABASE_DASHBOARD))
            == "database" + Scan(w, DashboardRules(DATABASE_DASHBOARD))
  {
    DatabaseRules();
    PrependedPick(SELECTED + w, NAMESPACE_RULE, LaterRules());
    ScanByPick(SELECTED + w, DashboardRules(DATABASE_DASHBOARD));
    assert (SELECTED + w)[|SELECTED|..] == w;
  }

  /** In one pass a beginning becomes a mention that stays. */
  lemma BeginningScanned(b: Beginning, rest: string)
    requires b in BEGINNINGS
    ensures var out := Scan(b.before + (SELECTED + (b.after + rest)), DashboardRules(DATABASE_DASHBOARD));
            && out == b.before + ("database" + (b.after + Scan(rest, DashboardRules(DATABASE_DASHBOARD))))
            && Occurs(b.mention, out)
  {
    var rules, tail := DashboardRules(DATABASE_DASHBOARD), SELECTED + (b.after + rest);
    Regroup(SELECTED, b.after, rest);
    Regroup(b.before, SELECTED + b.after, rest);
    BeforeCopied(b, b.before + tail);
    ScanCopiesBefore(b.before + tail, rules, |b.before|);
    assert (b.before + tail)[..|b.before|] == b.before && (b.before + tail)[|b.before|..] == tail;
    SelectedScanned(b.after + rest);
    AfterCopied(b, rest);
    MentionMade(b, Scan(rest, rules));
  }

  lemma MentionMade(b: Beginning, w: string)
    requires b in BEGINNINGS
    ensures b.mention <= b.before + ("database" + (b.after + w))
  {
    assert b == BEGINNINGS[0] || b == BEGINNINGS[1] || b == BEGINNINGS[2];
  }

  lemma RulesMissBeginning(b: Beginning)
    requires b in BEGINNINGS
    ensures var rules := DashboardRules(DATABASE_DASHBOARD);
            forall k :: 0 <= k < |rules| ==> Inert(rules[k].pattern[1..], Text(b))
  {
    var rules := DashboardRules(DATABASE_DASHBOARD);
    forall k | 0 <= k < |rules| ensures Inert(rules[k].pattern[1..], Text(b)) {
      var v, i := DatabaseOwner(k);
      PatternEndMissesBeginning(v, i, b);
    }
  }

  lemma BegunSurvives(text: string, b: Beginning)
    requires b in BEGINNINGS && Occurs(Text(b), text)
    ensures Occurs(b.mention, Scan(text, DashboardRules(DATABASE_DASHBOARD)))
  {
    var u, w := OccursSplit(Text(b), text);
    RulesMissBeginning(b);
    ScanSplits(u, w, Text(b), DashboardRules(DATABASE_DASHBOARD));
    StartScanned(b, w);
    OccursAfter(b.mention, Scan(u, DashboardRules(DATABASE_DASHBOARD)), Scan(w, DashboardRules(DATABASE_DASHBOARD)));
  }

  lemma StartScanned(b: Beginning, w: string)
    requires b in BEGINNINGS && Text(b) <= w
    ensures Occurs(b.mention, Scan(w, DashboardRules(DATABASE_DASHBOARD)))
  {
    var rest := w[|Text(b)|..];
    assert w == Text(b) + rest;
    Regroup(SELECTED, b.after, rest);
    Regroup(b.before, SELECTED + b.after, rest);
    BeginningScanned(b, rest);
  }

  // ---- while the rendering never leaves that mention ----

  lemma GenericMentionRendered(text: string, v: string)
    requires v in GENERIC_VARIABLES
    ensures !Occurs("$" + v, Chain(text, DashboardRules(DATABASE_DASHBOARD)))
  {
    GenericVariablesPrefixFree();
    PrefixFreeIsOrdered(GENERIC_VARIABLES);
    ChainAppend(text, Substitutions(DATABASE_DASHBOARD), GenericRules(GENERIC_VARIABLES));
    MentionGone(GENERIC_VARIABLES, Chain(text, Substitutions(DATABASE_DASHBOARD)), v, 2);
    assert "$" + v + "" == "$" + v;
  }

  lemma LastSelection()
    ensures var subs := Substitutions(DATABASE_DASHBOARD);
            |subs| == 4 && subs[3] == Rule(VariableRule("database", 4).pattern, "ip_country")
  {
    MentionIsPattern("database", 0);
  }

  lemma LastUntouched(r: Rule)
    requires r == Rule(VariableRule("database", 4).pattern, "ip_country")
    ensures Untouched(r.pattern, [r])
  {
    DatabaseNameGood();
    HarmlessValueInert(r.value, "database", 4);
  }

  lemma DatabaseNameGood()
    ensures Name("database") && NoIp("database") && IpText("ip_country")
  {
  }

  lemma DatabaseReplaced(text: string)
    ensures !Occurs(VariableRule("database", 4).pattern, Chain(text, Substitutions(DATABASE_DASHBOARD)))
  {
    LastSelection();
    LastUntouched(Substitutions(DATABASE_DASHBOARD)[3]);
    LastRemoved(text, Substitutions(DATABASE_DASHBOARD));
  }

  lemma DatabaseMentionRendered(text: string)
    ensures !Occurs("${database:regex}", Chain(text, DashboardRules(DATABASE_DASHBOARD)))
  {
    GenericVariablesPrefixFree();
    PrefixFreeIsOrdered(GENERIC_VARIABLES);
    DatabaseReplaced(text);
    DatabasePattern();
    GenericValuesUntouched(GENERIC_VARIABLES, "database", 4);
    ChainKeepsAbsent("${database:regex}", Chain(text, Substitutions(DATABASE_DASHBOARD)),
                     GenericRules(GENERIC_VARIABLES));
    ChainAppend(text, Substitutions(DATABASE_DASHBOARD), GenericRules(GENERIC_VARIABLES));
  }

  lemma MentionRendered(text: string, b: Beginning)
    requires b in BEGINNINGS
    ensures !Occurs(b.mention, Chain(text, DashboardRules(DATABASE_DASHBOARD)))
  {
    assert GENERIC_VARIABLES[6] == "pod" && GENERIC_VARIABLES[12] == "workload";
    GenericMentionRendered(text, "pod");
    GenericMentionRendered(text, "workload");
    DatabaseMentionRendered(text);
    assert "$" + "pod" == "$pod" && "$" + "workload" == "$workload";
  }

  /** After the placeholders were replaced, rendering is one pass exactly for the texts that begin nothing. */
  lemma ChainIsOnePassIff(text: string)
    ensures Chain(text, DashboardRules(DATABASE_DASHBOARD)) == Scan(text, DashboardRules(DATABASE_DASHBOARD))
            <==> NothingBegun(text)
  {
    if NothingBegun(text) {
      NothingBegunIsOnePass(text);
    } else {
      var b :| b in BEGINNINGS && Occurs(Text(b), text);
      BegunSurvives(text, b);
      MentionRendered(text, b);
    }
  }
}
