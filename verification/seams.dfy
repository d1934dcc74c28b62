/** Where the patterns of a dashboard's replacements can touch each other, the inserted texts, and the placeholders. */
module Seams {
  import opened Rewriting
  import opened Expressions

  const MARK := "__APP_NAMESPACE__"

  /** The replacements after the namespace and the rate interval: the dashboard's own, then the variables'. */
  function DashboardRules(uid: string): seq<Rule>
  {
    Substitutions(uid) + GenericRules(GENERIC_VARIABLES)
  }

  lemma RenderIsChain(uid: string, expression: string, namespace: string)
    ensures Render(uid, expression, namespace) == Chain(Named(expression, namespace), DashboardRules(uid))
  {
    ChainAppend(Named(expression, namespace), Substitutions(uid), GenericRules(GENERIC_VARIABLES));
  }

  // ---- The inserted texts ----

  /** Names in which `i` is never last nor before `p`, so that they do not run into "ip-country-api". */
  predicate NoIp(v: string)
  {
    forall k :: 0 <= k < |v| && v[k] == 'i' ==> k + 1 < |v| && v[k + 1] != 'p'
  }

  predicate IpText(value: string)
  {
    |value| >= 2 && value[0] == 'i' && value[1] == 'p' && '$' !in value && '=' !in value
  }

  /** A selection whose value neither holds a `$` nor continues a mention. */
  predicate Harmless(entry: (string, string))
  {
    Name(entry.0) && NoIp(entry.0) && (entry.1 == ANY || IpText(entry.1))
  }

  /** Names that end in different marks clash, even when one starts the other. */
  lemma EndsClash(u: string, x: string, v: string, y: string)
    requires Name(u) && Name(v)
    requires x != [] && y != [] && !NameChar(x[0]) && !NameChar(y[0]) && x[0] != y[0]
    ensures Clash(u + x, v + y)
  {
    if u == v {
      ClashAt(u + x, v + y, |u|);
    } else if u <= v {
      var k := FirstDifference(v, u);
      assert NameChar(v[k]);
      ClashAt(u + x, v + y, k);
    } else {
      var k := FirstDifference(u, v);
      assert NameChar(u[k]);
      ClashAt(u + x, v + y, k);
    }
  }

  lemma NoIpAppend(x: string, y: string)
    requires NoIp(x) && NoIp(y)
    ensures NoIp(x + y)
  {
  }

  lemma NoIpInPattern(v: string, j: nat, value: string)
    requires Name(v) && NoIp(v) && j < 7 && IpText(value)
    ensures Inert(VariableRule(v, j).pattern[1..], value)
  {
    var x, q := Open(j) + (v + Close(j)), VariableRule(v, j).pattern;
    NoIpAppend(v, Close(j));
    NoIpAppend(Open(j), v + Close(j));
    NoIpAppend(Quote(j), x);
    InertByTwo(q[1..], value);
  }

  /** No later pattern runs into a selection. */
  lemma TailMissesSelection(n: string, v: string, j: nat)
    requires Name(n) && Name(v) && j < 7
    ensures Inert(VariableRule(v, j).pattern[1..], VariableRule(n, 4).pattern)
  {
    var x, y := n + Close(4), v + Close(j);
    NamesArePlain(n, 4);
    NamesArePlain(v, j);
    MentionShape(Open(4), x);
    MentionShape(Open(j), y);
    if Quote(j) != "" {
      if Open(j) == Open(4) {
        EndsClash(v, Close(j), n, Close(4));
      }
      MentionsClash(Open(j), y, Open(4), x);
    }
    PatternTailInert(Quote(j), Open(j) + y, "", Open(4) + x);
  }

  lemma HarmlessValueInert(value: string, v: string, j: nat)
    requires value == ANY || IpText(value)
    requires Name(v) && NoIp(v) && j < 7
    ensures Inert(value, VariableRule(v, j).pattern) && Inert(VariableRule(v, j).pattern[1..], value)
  {
    if value == ANY {
      ValuesAreInert(4, v, j);
    } else {
      NoIpInPattern(v, j, value);
      InertByHead(value, VariableRule(v, j).pattern);
    }
  }

  lemma SelectionMayFollow(entry: (string, string), v: string, j: nat)
    requires Harmless(entry) && Name(v) && NoIp(v) && j < 7
    ensures MayFollow(Selection(entry.0, entry.1), VariableRule(v, j).pattern)
  {
    TailMissesSelection(entry.0, v, j);
    HarmlessValueInert(entry.1, v, j);
    MentionIsPattern(entry.0, 0);
  }

  lemma SelectionsLayered(table: seq<(string, string)>)
    requires forall k :: 0 <= k < |table| ==> Harmless(table[k])
    ensures Layered(Selections(table))
  {
    var subs := Selections(table);
    forall h, k | 0 <= h < k < |subs| ensures MayFollow(subs[h], subs[k].pattern) {
      SelectionMayFollow(table[h], table[k].0, 4);
      MentionIsPattern(table[k].0, 0);
    }
  }

  lemma RuleFollowsSelection(entry: (string, string), names: seq<string>, k: nat)
    requires Harmless(entry) && k < 7 * |names|
    requires forall i :: 0 <= i < |names| ==> Name(names[i]) && NoIp(names[i])
    ensures MayFollow(Selection(entry.0, entry.1), GenericRules(names)[k].pattern)
  {
    var a, i := GenericRuleOwner(names, k);
    SelectionMayFollow(entry, names[a], i);
  }

  lemma SelectionsMayPrecede(table: seq<(string, string)>, names: seq<string>)
    requires Ordered(names) && forall k :: 0 <= k < |names| ==> NoIp(names[k])
    requires forall k :: 0 <= k < |table| ==> Harmless(table[k])
    ensures Layered(Selections(table) + GenericRules(names))
  {
    var subs, rules := Selections(table), GenericRules(names);
    SelectionsLayered(table);
    GenericRulesLayered(names);
    forall h, k | 0 <= h < |subs| && 0 <= k < |rules| ensures MayFollow(subs[h], rules[k].pattern) {
      RuleFollowsSelection(table[h], names, k);
    }
    LayeredAppend(subs, rules);
  }

  lemma LayeredAppend(first: seq<Rule>, second: seq<Rule>)
    requires Layered(first) && Layered(second)
    requires forall h, k :: 0 <= h < |first| && 0 <= k < |second| ==> MayFollow(first[h], second[k].pattern)
    ensures Layered(first + second)
  {
  }

  lemma GenericVariablesNoIp()
    ensures forall k :: 0 <= k < |GENERIC_VARIABLES| ==> NoIp(GENERIC_VARIABLES[k])
  {
  }

  lemma OtherTablesHarmless(uid: string)
    requires uid != DATABASE_DASHBOARD
    ensures forall k :: 0 <= k < |SelectionTable(uid)| ==> Harmless(SelectionTable(uid)[k])
  {
  }

  lemma OtherDashboardsLayered(uid: string)
    requires uid != DATABASE_DASHBOARD
    ensures Layered(DashboardRules(uid))
  {
    GenericVariablesPrefixFree();
    PrefixFreeIsOrdered(GENERIC_VARIABLES);
    GenericVariablesNoIp();
    OtherTablesHarmless(uid);
    SelectionsMayPrecede(SelectionTable(uid), GENERIC_VARIABLES);
  }

  // ---- The placeholders ----

  /** Names that no underscore of a placeholder can be mistaken for. */
  predicate UnderscoresApart(v: string)
  {
    forall k :: 0 <= k < |v| && v[k] == '_' ==> k + 1 < |v| && v[k + 1] != '_'
  }

  predicate GoodName(v: string)
  {
    Name(v) && v[0] != '_' && UnderscoresApart(v)
  }

  lemma GenericVariablesGood()
    ensures forall k :: 0 <= k < |GENERIC_VARIABLES| ==> GoodName(GENERIC_VARIABLES[k])
  {
  }

  predicate Selectable(uid: string, name: string)
  {
    name in GENERIC_VARIABLES || (uid == DATABASE_DASHBOARD && name == "database")
  }

  /** The dashboards' selections are of variables, except one of the database dashboard. */
  lemma SelectionNames(uid: string)
    ensures forall k :: 0 <= k < |SelectionTable(uid)| ==> Selectable(uid, SelectionTable(uid)[k].0)
  {
    assert GENERIC_VARIABLES[4] == "namespace" && GENERIC_VARIABLES[5] == "node" && GENERIC_VARIABLES[6] == "pod";
    assert GENERIC_VARIABLES[7] == "route" && GENERIC_VARIABLES[9] == "status_code"
           && GENERIC_VARIABLES[12] == "workload";
    assert GENERIC_VARIABLES[0] == "cluster" && GENERIC_VARIABLES[1] == "instance";
  }

  lemma DatabaseIsGood()
    ensures GoodName("database")
  {
  }

  lemma SelectionNamesGood(uid: string)
    ensures forall k :: 0 <= k < |SelectionTable(uid)| ==> GoodName(SelectionTable(uid)[k].0)
  {
    SelectionNames(uid);
    GenericVariablesGood();
    DatabaseIsGood();
  }

  lemma UnderscoresApartAppend(x: string, y: string)
    requires UnderscoresApart(x) && UnderscoresApart(y)
    ensures UnderscoresApart(x + y)
  {
  }

  lemma PatternMissesMark(v: string, i: nat)
    requires GoodName(v) && i < 7
    ensures Inert(VariableRule(v, i).pattern[1..], MARK)
  {
    var q := VariableRule(v, i).pattern;
    UnderscoresApartAppend(v, Close(i));
    UnderscoresApartAppend(Open(i), v + Close(i));
    UnderscoresApartAppend(Quote(i), Open(i) + (v + Close(i)));
    InertByTwo(q[1..], MARK);
  }

  lemma RateMissesMark()
    ensures Inert(RATE_INTERVAL[1..], MARK)
  {
    var x := RATE_INTERVAL[1..];
    ClashAt(x, MARK, 2);
    assert x[0] == '_';
    InertByTwo(x[1..], MARK);
  }

  /** What a variable's mention begins with cannot begin the rate-interval placeholder. */
  lemma MentionClashesWithRate(v: string, i: nat)
    requires GoodName(v) && 4 <= i < 7
    ensures Clash(VariableRule(v, i).pattern, RATE_INTERVAL)
  {
    var q := VariableRule(v, i).pattern;
    assert q == Open(i) + (v + Close(i));
    ClashAt(q, RATE_INTERVAL, 1);
  }

  lemma PatternMissesRate(v: string, i: nat)
    requires GoodName(v) && i < 7
    ensures Inert(VariableRule(v, i).pattern[1..], RATE_INTERVAL)
  {
    var q, m := VariableRule(v, i).pattern, Open(i) + (v + Close(i));
    NamesArePlain(v, i);
    MentionShape(Open(i), v + Close(i));
    if Quote(i) == "" {
      assert q[1..] == m[1..];
      InertByHead(q[1..], RATE_INTERVAL);
    } else {
      assert q[1..] == Quote(i)[1..] + m;
      ClashAt(m, RATE_INTERVAL, 1);
      InertByHead(m[1..], RATE_INTERVAL);
      InertAfter(Quote(i)[1..], m, RATE_INTERVAL);
    }
  }

  const INTERVAL_RULE: Rule := Rule(RATE_INTERVAL, "5m")

  lemma PatternFollowsInterval(v: string, i: nat)
    requires GoodName(v) && i < 7
    ensures MayFollow(INTERVAL_RULE, VariableRule(v, i).pattern)
  {
    PatternMissesRate(v, i);
    NoDigitInPattern(v, i);
    InertByHead("5m", VariableRule(v, i).pattern);
    InertByHead(VariableRule(v, i).pattern[1..], "5m");
  }

  lemma NoDigitInPattern(v: string, i: nat)
    requires Name(v) && i < 7
    ensures var q := VariableRule(v, i).pattern; '5' !in q && q[0] != '5' && q[0] != 'm'
  {
    assert '5' !in v && '5' !in Open(i) && '5' !in Close(i) && '5' !in Quote(i);
    assert (Quote(i) + (Open(i) + (v + Close(i))))[0] == (Quote(i) + Open(i))[0];
  }
}
