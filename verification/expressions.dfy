/**
  Rendering of dashboard PromQL expressions: the chain of textual replacements applied before
  an expression is sent to Prometheus.
 */
module Expressions {
  import opened Rewriting

  const ANY := ".*"

  const GENERIC_VARIABLES: seq<string> := [
    "cluster", "instance", "integration", "job", "namespace", "node", "pod",
    "route", "service", "status_code", "type", "volume", "workload"
  ]

  const RATE_INTERVAL := "$__rate_interval"

  /** The replacement of one `${name:regex}` selection. */
  function Selection(name: string, value: string): Rule
  {
    Rule("${" + name + ":regex}", value)
  }

  const DATABASE_DASHBOARD := "cloudnativepg-sre-performance"

  /** The dashboard's own table of selections, in order. */
  function SelectionTable(uid: string): seq<(string, string)>
  {
    if uid == "ip-country-api-performance" then
      [("namespace", "ip-country-api"), ("pod", ANY), ("route", ANY), ("status_code", ANY)]
    else if uid == DATABASE_DASHBOARD then
      [("namespace", "database"), ("cluster", "ip-country-postgres"), ("instance", ANY), ("database", "ip_country")]
    else if uid == "k3s-reliability-capacity" then
      [("node", ANY), ("namespace", ANY), ("workload", ANY)]
    else []
  }

  function Selections(table: seq<(string, string)>): (rules: seq<Rule>)
    ensures |rules| == |table|
    ensures forall k :: 0 <= k < |rules| ==> rules[k] == Selection(table[k].0, table[k].1)
  {
    seq(|table|, k requires 0 <= k < |table| => Selection(table[k].0, table[k].1))
  }

  function Substitutions(uid: string): seq<Rule>
  {
    Selections(SelectionTable(uid))
  }

  /** What opens the i-th pattern of a variable: the operator and quote of a quoted match, or nothing. */
  function Quote(i: nat): string
  {
    if i == 0 || i == 2 then "=~\"" else if i == 1 || i == 3 then "=\"" else ""
  }

  function Open(i: nat): string
  {
    if i == 2 || i == 3 || i == 6 then "$" else "${"
  }

  /** What follows the variable name in the i-th pattern. */
  function Close(i: nat): string
  {
    if i == 0 || i == 1 then "}\"" else if i == 2 || i == 3 then "\""
    else if i == 4 then ":regex}" else if i == 5 then "}" else ""
  }

  function Value(i: nat): string
  {
    if i < 4 then "=~\"" + ANY + "\"" else ANY
  }

  function VariableRule(v: string, i: nat): Rule
    requires i < 7
  {
    Rule(Quote(i) + (Open(i) + (v + Close(i))), Value(i))
  }

  /** The seven replacements made for one generic variable, in order. */
  function VariableRules(v: string): (rules: seq<Rule>)
    ensures |rules| == 7 && forall i :: 0 <= i < 7 ==> rules[i] == VariableRule(v, i)
  {
    [VariableRule(v, 0), VariableRule(v, 1), VariableRule(v, 2), VariableRule(v, 3),
     VariableRule(v, 4), VariableRule(v, 5), VariableRule(v, 6)]
  }

  function GenericRules(names: seq<string>): (rules: seq<Rule>)
    ensures |rules| == 7 * |names|
  {
    if names == [] then []
    else GenericRules(names[..|names| - 1]) + VariableRules(names[|names| - 1])
  }

  /** Rule 7 * a + i is the i-th rule of the a-th variable. */
  lemma {:induction false} GenericRuleAt(names: seq<string>, a: nat, i: nat)
    requires a < |names| && i < 7
    ensures 7 * a + i < 7 * |names| && GenericRules(names)[7 * a + i] == VariableRule(names[a], i)
  {
    var n := |names| - 1;
    if a < n {
      GenericRuleAt(names[..n], a, i);
    } else {
      assert VariableRules(names[n])[i] == VariableRule(names[n], i);
    }
  }

  /** Every rule is some variable's. */
  lemma GenericRuleOwner(names: seq<string>, k: nat) returns (a: nat, i: nat)
    requires k < 7 * |names|
    ensures a < |names| && i < 7 && k == 7 * a + i
    ensures GenericRules(names)[k] == VariableRule(names[a], i)
  {
    a, i := k / 7, k % 7;
    GenericRuleAt(names, a, i);
  }

  /** The expression after the namespace and rate-interval replacements. */
  function Named(expression: string, namespace: string): string
  {
    Replace(Replace(expression, Rule("__APP_NAMESPACE__", namespace)), Rule(RATE_INTERVAL, "5m"))
  }

  /** The expression after the per-dashboard replacements as well. */
  function Prepare(uid: string, expression: string, namespace: string): string
  {
    Chain(Named(expression, namespace), Substitutions(uid))
  }

  function Render(uid: string, expression: string, namespace: string): string
  {
    Chain(Prepare(uid, expression, namespace), GenericRules(GENERIC_VARIABLES))
  }

  /** The three ways in which a dashboard can mention a variable. */
  function Mentions(v: string): seq<string>
  {
    ["${" + v + ":regex}", "${" + v + "}", "$" + v + ""]
  }

  // ---- Well-formed variable names ----

  predicate NameChar(c: char)
  {
    'a' <= c <= 'z' || c == '_'
  }

  predicate Name(v: string)
  {
    v != [] && forall i :: 0 <= i < |v| ==> NameChar(v[i])
  }

  /** Variable names of which none starts another. */
  ghost predicate PrefixFree(names: seq<string>)
  {
    && (forall i :: 0 <= i < |names| ==> Name(names[i]))
    && (forall i, j :: 0 <= i < |names| && 0 <= j < |names| && i != j ==> Clash(names[i], names[j]))
  }

  // ---- Patterns: where they can touch each other and the inserted text ----

  lemma HeadsClash(x: string, y: string)
    requires x != [] && y != [] && x[0] != y[0]
    ensures Clash(x, y)
  {
    ClashAt(x, y, 0);
  }

  lemma {:induction false} InertByHead(x: string, y: string)
    requires y != [] && y[0] !in x
    ensures Inert(x, y)
    decreases |x|
  {
    if x != [] {
      HeadsClash(x, y);
      InertByHead(x[1..], y);
    }
  }

  /** A part without the head of `y` may be put in front. */
  lemma {:induction false} InertAfter(x: string, w: string, y: string)
    requires y != [] && y[0] !in x && Inert(w, y)
    ensures Inert(x + w, y)
    decreases |x|
  {
    if x == [] {
      assert x + w == w;
    } else {
      HeadsClash(x + w, y);
      assert (x + w)[1..] == x[1..] + w;
      InertAfter(x[1..], w, y);
    }
  }

  lemma ClashUnderLead(l: string, x: string, y: string)
    requires Clash(x, y)
    ensures Clash(l + x, l + y)
  {
    if |x| <= |y| {
      var k := FirstDifference(x, y);
      ClashAt(l + x, l + y, |l| + k);
    } else {
      var k := FirstDifference(y, x);
      ClashAt(l + y, l + x, |l| + k);
    }
  }

  /** The first position of `u` at which `v` ends or differs. */
  function FirstDifference(u: string, v: string): (k: nat)
    requires !(u <= v)
    ensures k < |u| && k <= |v|
    ensures k < |v| ==> u[k] != v[k]
    ensures k == |v| ==> v <= u
  {
    if v == [] || u[0] != v[0] then 0
    else
      assert u == [u[0]] + u[1..] && v == [v[0]] + v[1..];
      1 + FirstDifference(u[1..], v[1..])
  }

  /** Names of which the first does not start the second clash, whatever else follows them. */
  lemma NamesClash(u: string, x: string, v: string, y: string)
    requires Name(u) && Name(v) && !(u <= v)
    requires Clash(u, v) || (y != [] && !NameChar(y[0]))
    ensures Clash(u + x, v + y)
  {
    var k := FirstDifference(u, v);
    assert NameChar(u[k]);
    ClashAt(u + x, v + y, k);
  }

  /** What follows the opening of a pattern starts like a name and holds no `$`, `=` or `.`. */
  predicate Plain(x: string)
  {
    x != [] && NameChar(x[0]) && '$' !in x && '=' !in x && '.' !in x
  }

  lemma NamesArePlain(v: string, i: nat)
    requires Name(v)
    ensures Plain(v + Close(i))
  {
    assert '$' !in v && '=' !in v && '.' !in v;
    assert NameChar(v[0]);
  }

  /** A pattern, apart from what it opens with, is a `$` and text without one. */
  lemma MentionShape(o: string, x: string)
    requires o in ["$", "${"] && Plain(x)
    ensures var m := o + x;
            m[0] == '$' && '$' !in m[1..] && '=' !in m && '.' !in m
  {
    assert (o + x)[1..] == o[1..] + x;
  }

  /** Nothing that a replacement inserts can be the start or the continuation of a pattern. */
  lemma ValuesAreInert(i: nat, v: string, j: nat)
    requires i < 7 && j < 7 && Name(v)
    ensures var a, q := Value(i), VariableRule(v, j).pattern;
            Inert(a, q) && Inert(q[1..], a)
  {
    var m := Open(j) + (v + Close(j));
    NamesArePlain(v, j);
    MentionShape(Open(j), v + Close(j));
    BareValueInert(m, Quote(j));
    QuotedValueInert(m, Quote(j));
  }

  lemma BareValueInert(m: string, b: string)
    requires m != [] && m[0] == '$' && '.' !in m
    requires b in ["", "=\"", "=~\""]
    ensures Inert(ANY, b + m) && Inert((b + m)[1..], ANY)
  {
    InertByHead(ANY, b + m);
    assert '.' !in b + m;
    InertByHead((b + m)[1..], ANY);
  }

  lemma QuotedValueInert(m: string, b: string)
    requires m != [] && m[0] == '$' && '=' !in m
    requires b in ["", "=\"", "=~\""]
    ensures Inert("=~\"" + ANY + "\"", b + m) && Inert((b + m)[1..], "=~\"" + ANY + "\"")
  {
    QuotedInert("=~\"" + ANY + "\"", m, b);
  }

  lemma QuotedInert(a: string, m: string, b: string)
    requires |a| >= 4 && a[0] == '=' && a[1] == '~' && a[3] != '$' && '=' !in a[1..] && '$' !in a
    requires m != [] && m[0] == '$' && '=' !in m
    requires b == "" || (|b| == 2 && b[0] == '=' && b[1] == '"')
             || (|b| == 3 && b[0] == '=' && b[1] == '~' && b[2] == '"')
    ensures Inert(a, b + m) && Inert((b + m)[1..], a)
  {
    if b == "" {
      assert b + m == m;
      InertByHead(a, m);
      InertByHead(m[1..], a);
    } else {
      QuotedInertBefore(a, m, b);
      QuotedInertAfter(a, m, b);
    }
  }

  lemma QuotedInertBefore(a: string, m: string, b: string)
    requires |a| >= 4 && a[0] == '=' && a[1] == '~' && a[3] != '$' && '=' !in a[1..] && '$' !in a
    requires m != [] && m[0] == '$'
    requires (|b| == 2 && b[0] == '=' && b[1] == '"') || (|b| == 3 && b[0] == '=' && b[1] == '~' && b[2] == '"')
    ensures Inert(a, b + m)
  {
    var q := b + m;
    ClashAt(a, q, if |b| == 2 then 1 else 3);
    InertByHead(a[1..], q);
  }

  lemma QuotedInertAfter(a: string, m: string, b: string)
    requires |a| >= 4 && a[0] == '='
    requires '=' !in m && b != "" && '=' !in b[1..]
    ensures Inert((b + m)[1..], a)
  {
    assert (b + m)[1..] == b[1..] + m;
    InertByHead((b + m)[1..], a);
  }

  /** Texts of names after `$` or `${`. */
  lemma MentionsClash(o: string, x: string, o': string, y: string)
    requires o in ["$", "${"] && o' in ["$", "${"]
    requires Plain(x) && Plain(y)
    requires o == o' ==> Clash(x, y)
    ensures Clash(o + x, o' + y)
  {
    if o == o' {
      ClashUnderLead(o, x, y);
    } else {
      ClashAt(o + x, o' + y, 1);
    }
  }

  /** A pattern cannot run into an earlier one unless they open alike. */
  lemma PatternTailInert(b: string, m: string, b': string, m': string)
    requires b in ["", "=\"", "=~\""] && b' in ["", "=\"", "=~\""]
    requires m != [] && m[0] == '$' && '$' !in m[1..] && '=' !in m
    requires m' != [] && m'[0] == '$'
    requires b' == "" && b != "" ==> Clash(m, m')
    ensures Inert((b + m)[1..], b' + m')
  {
    if b == "" {
      assert (b + m)[1..] == m[1..];
      InertByHead(m[1..], b' + m');
    } else {
      assert (b + m)[1..] == b[1..] + m;
      if b' == "" {
        assert b' + m' == m';
        InertByHead(m[1..], m');
        InertAfter(b[1..], m, m');
      } else {
        InertByHead(b[1..] + m, b' + m');
      }
    }
  }

  /** The replacements of a variable may follow those of variables whose names do not start its own. */
  lemma RulesMayFollow(u: string, i: nat, v: string, j: nat)
    requires Name(u) && Name(v) && i < 7 && j < 7
    requires if u == v then i < j else !(u <= v)
    ensures MayFollow(VariableRule(u, i), VariableRule(v, j).pattern)
  {
    var x, y := u + Close(i), v + Close(j);
    ValuesAreInert(i, v, j);
    NamesArePlain(u, i);
    NamesArePlain(v, j);
    MentionShape(Open(i), x);
    MentionShape(Open(j), y);
    if Quote(i) == "" && Quote(j) != "" {
      NamesClash(u, Close(i), v, Close(j));
      MentionsClash(Open(i), x, Open(j), y);
    }
    PatternTailInert(Quote(j), Open(j) + y, Quote(i), Open(i) + x);
  }

  /** Names of which no earlier one starts a later one. */
  ghost predicate Ordered(names: seq<string>)
  {
    && (forall i :: 0 <= i < |names| ==> Name(names[i]))
    && (forall i, j :: 0 <= i < j < |names| ==> !(names[i] <= names[j]))
  }

  lemma GenericRulesLayered(names: seq<string>)
    requires Ordered(names)
    ensures Layered(GenericRules(names))
  {
    var rules := GenericRules(names);
    forall h, k | 0 <= h < k < |rules| ensures MayFollow(rules[h], rules[k].pattern) {
      LaterMayFollow(names, h, k);
    }
  }

  lemma LaterMayFollow(names: seq<string>, h: nat, k: nat)
    requires Ordered(names) && h < k < |GenericRules(names)|
    ensures MayFollow(GenericRules(names)[h], GenericRules(names)[k].pattern)
  {
    var a, i := GenericRuleOwner(names, h);
    var b, j := GenericRuleOwner(names, k);
    RulesMayFollow(names[a], i, names[b], j);
  }

  /** The whole chain for the variables is one pass over the text. */
  lemma GenericIsOnePass(names: seq<string>, s: string)
    requires Ordered(names)
    ensures Chain(s, GenericRules(names)) == Scan(s, GenericRules(names))
  {
    GenericRulesLayered(names);
    ChainIsScan(s, GenericRules(names));
  }

  // ---- No mention survives, and rendering again changes nothing ----

  lemma GenericValuesUntouched(names: seq<string>, v: string, j: nat)
    requires Ordered(names) && j < 7 && Name(v)
    ensures Untouched(VariableRule(v, j).pattern, GenericRules(names))
  {
    var rules, t := GenericRules(names), VariableRule(v, j).pattern;
    forall k | 0 <= k < |rules| ensures Inert(rules[k].value, t) && Inert(t[1..], rules[k].value) {
      GenericValueInert(names, k, v, j);
    }
  }

  lemma OnePassRemoves(s: string, rules: seq<Rule>, h: nat, t: string)
    requires Layered(rules) && h < |rules| && rules[h].pattern == t && Untouched(t, rules)
    ensures !Occurs(t, Chain(s, rules))
  {
    ChainIsScan(s, rules);
    ScanRemoves(s, rules, h);
  }

  /** None of the seven patterns of any of the variables is left. */
  lemma PatternsGone(names: seq<string>, s: string, a: nat, j: nat)
    requires Ordered(names) && a < |names| && j < 7
    ensures !Occurs(VariableRule(names[a], j).pattern, Chain(s, GenericRules(names)))
  {
    GenericRulesLayered(names);
    GenericValuesUntouched(names, names[a], j);
    GenericRuleAt(names, a, j);
    OnePassRemoves(s, GenericRules(names), 7 * a + j, VariableRule(names[a], j).pattern);
  }

  lemma GenericValueInert(names: seq<string>, k: nat, v: string, j: nat)
    requires k < 7 * |names| && j < 7 && Name(v)
    ensures var t := VariableRule(v, j).pattern;
            Inert(GenericRules(names)[k].value, t) && Inert(t[1..], GenericRules(names)[k].value)
  {
    var b, i := GenericRuleOwner(names, k);
    ValuesAreInert(i, v, j);
  }

  lemma RenderingIsIdempotent(names: seq<string>, s: string)
    requires Ordered(names)
    ensures var once := Chain(s, GenericRules(names));
            Chain(once, GenericRules(names)) == once
  {
    var rules, once := GenericRules(names), Chain(s, GenericRules(names));
    GenericIsOnePass(names, once);
    forall k | 0 <= k < |rules| ensures !Occurs(rules[k].pattern, once) {
      var a, i := GenericRuleOwner(names, k);
      PatternsGone(names, s, a, i);
    }
    ScanIdentity(once, rules);
  }

  /** A text without a dollar sign mentions no variable and is left alone. */
  lemma PlainTextUnchanged(names: seq<string>, s: string)
    requires Ordered(names) && '$' !in s
    ensures Chain(s, GenericRules(names)) == s
  {
    var rules := GenericRules(names);
    GenericIsOnePass(names, s);
    forall k | 0 <= k < |rules| ensures !Occurs(rules[k].pattern, s) {
      var a, i := GenericRuleOwner(names, k);
      assert '$' in Open(i);
      NotWithout('$', rules[k].pattern, s);
    }
    ScanIdentity(s, rules);
  }

  lemma {:induction false} NotWithout(c: char, t: string, s: string)
    requires c in t && c !in s
    ensures !Occurs(t, s)
    decreases |s|
  {
    if s != [] {
      NotWithout(c, t, s[1..]);
    }
  }

  // ---- The order of the variables ----

  lemma PrefixFreeIsOrdered(names: seq<string>)
    requires PrefixFree(names)
    ensures Ordered(names)
  {
    assert forall i, j :: 0 <= i < j < |names| ==> Clash(names[i], names[j]);
  }

  /** Patterns of variables whose names clash never start the same text. */
  lemma PatternsClash(u: string, i: nat, v: string, j: nat)
    requires Name(u) && Name(v) && Clash(u, v) && i < 7 && j < 7
    ensures Clash(VariableRule(u, i).pattern, VariableRule(v, j).pattern)
  {
    var x, y := u + Close(i), v + Close(j);
    NamesArePlain(u, i);
    NamesArePlain(v, j);
    NamesClash(u, Close(i), v, Close(j));
    MentionsClash(Open(i), x, Open(j), y);
    MentionShape(Open(i), x);
    MentionShape(Open(j), y);
    QuotedClash(Quote(i), Open(i) + x, Quote(j), Open(j) + y);
  }

  lemma QuotedClash(b: string, m: string, b': string, m': string)
    requires b in ["", "=\"", "=~\""] && b' in ["", "=\"", "=~\""]
    requires m != [] && m[0] == '$' && m' != [] && m'[0] == '$' && Clash(m, m')
    ensures Clash(b + m, b' + m')
  {
    if b == b' {
      ClashUnderLead(b, m, m');
    } else {
      ClashAt(b + m, b' + m', if b == "" || b' == "" then 0 else 1);
    }
  }

  /** If the i-th pattern of a variable starts `t`, the rule picked is an early one of that variable. */
  lemma PickOfVariable(names: seq<string>, b: nat, i: nat, t: string) returns (j: nat)
    requires PrefixFree(names) && b < |names| && i < 7
    requires VariableRule(names[b], i).pattern <= t
    ensures j <= i && FirstMatch(t, GenericRules(names)) == 7 * b + j
    ensures VariableRule(names[b], j).pattern <= t
  {
    var rules := GenericRules(names);
    var k := FirstMatch(t, rules);
    GenericRuleAt(names, b, i);
    assert rules[7 * b + i].pattern <= t;
    var a: nat;
    a, j := GenericRuleOwner(names, k);
    if a != b {
      assert Clash(names[a], names[b]);
      PatternsClash(names[a], j, names[b], i);
      CommonTextNoClash(rules[k].pattern, VariableRule(names[b], i).pattern, t);
    }
  }

  /** A variable in both lists that is picked in one is picked, with the same pattern, in the other. */
  lemma PickInBoth(names: seq<string>, a: nat, i: nat, names': seq<string>, b: nat, t: string)
    requires PrefixFree(names) && PrefixFree(names')
    requires a < |names| && b < |names'| && names[a] == names'[b] && i < 7
    requires FirstMatch(t, GenericRules(names)) == 7 * a + i
    requires VariableRule(names[a], i).pattern <= t
    ensures FirstMatch(t, GenericRules(names')) == 7 * b + i
  {
    var j := PickOfVariable(names', b, i, t);
    var j' := PickOfVariable(names, a, j, t);
  }

  lemma SamePick(names: seq<string>, a: nat, i: nat, names': seq<string>, b: nat, t: string)
    requires a < |names| && b < |names'| && names[a] == names'[b] && i < 7
    requires FirstMatch(t, GenericRules(names)) == 7 * a + i
    requires FirstMatch(t, GenericRules(names')) == 7 * b + i
    ensures Pick(t, GenericRules(names)) == Pick(t, GenericRules(names'))
  {
    PickedRule(names, a, i, t);
    PickedRule(names', b, i, t);
  }

  lemma PickedRule(names: seq<string>, a: nat, i: nat, t: string)
    requires a < |names| && i < 7 && FirstMatch(t, GenericRules(names)) == 7 * a + i
    ensures Pick(t, GenericRules(names)) == [VariableRule(names[a], i)]
  {
    GenericRuleAt(names, a, i);
  }

  lemma PickFollowsVariable(names: seq<string>, names': seq<string>, t: string)
    requires PrefixFree(names) && PrefixFree(names')
    requires forall v :: v in names ==> v in names'
    requires FirstMatch(t, GenericRules(names)) < 7 * |names|
    ensures Pick(t, GenericRules(names)) == Pick(t, GenericRules(names'))
  {
    var a, i := GenericRuleOwner(names, FirstMatch(t, GenericRules(names)));
    assert names[a] in names';
    var b :| 0 <= b < |names'| && names'[b] == names[a];
    PickInBoth(names, a, i, names', b, t);
    SamePick(names, a, i, names', b, t);
  }

  /** The iteration order of the variable table is irrelevant. */
  lemma OrderIrrelevant(names: seq<string>, names': seq<string>, s: string)
    requires PrefixFree(names) && PrefixFree(names')
    requires forall v :: v in names <==> v in names'
    ensures Chain(s, GenericRules(names)) == Chain(s, GenericRules(names'))
  {
    var rules, rules' := GenericRules(names), GenericRules(names');
    PrefixFreeIsOrdered(names);
    PrefixFreeIsOrdered(names');
    GenericIsOnePass(names, s);
    GenericIsOnePass(names', s);
    forall t ensures Pick(t, rules) == Pick(t, rules') {
      if FirstMatch(t, rules) < |rules| {
        PickFollowsVariable(names, names', t);
      } else if FirstMatch(t, rules') < |rules'| {
        PickFollowsVariable(names', names, t);
      }
    }
    ScanDependsOnPick(s, rules, rules');
  }

  lemma GenericRulesPair(u: string, v: string, s: string)
    ensures Chain(s, GenericRules([u, v])) == Chain(Chain(s, GenericRules([u])), GenericRules([v]))
  {
    assert [u, v][..1] == [u] && [u][..0] == [] && [v][..0] == [];
    assert GenericRules([u]) == VariableRules(u) && GenericRules([v]) == VariableRules(v);
    ChainAppend(s, GenericRules([u]), GenericRules([v]));
  }

  lemma OtherPatternsMiss(v: string, k: nat, s: string)
    requires Name(v) && k < 6 && |s| >= 2 && s[0] == '$' && s[1] == v[0]
    ensures !(VariableRule(v, k).pattern <= s)
  {
    var o, x := Open(k), v + Close(k);
    var p := Quote(k) + (o + x);
    assert NameChar(v[0]);
    if Quote(k) == "" {
      assert p == o + x;
      assert p[1] == o[1] == '{';
      ClashAt(p, s, 1);
    } else {
      ClashAt(p, s, 0);
    }
  }

  /** A bare mention followed by plain text is picked at its start, by its own rule. */
  lemma BareMentionFirst(names: seq<string>, b: nat, t: string)
    requires PrefixFree(names) && b < |names| && "$" + names[b] <= t
    ensures FirstMatch(t, GenericRules(names)) == 7 * b + 6
  {
    var v := names[b];
    MentionIsPattern(v, 2);
    assert "$" + v + "" == "$" + v;
    var j := PickOfVariable(names, b, 6, t);
    assert Name(v) && NameChar(v[0]);
    assert t[0] == '$' && t[1] == v[0] by {
      assert ("$" + v)[0] == '$' && ("$" + v)[1] == v[0];
    }
    if j < 6 {
      OtherPatternsMiss(v, j, t);
    }
  }

  lemma BareMentionPicked(names: seq<string>, b: nat, rest: string)
    requires PrefixFree(names) && b < |names| && '$' !in rest
    ensures Chain("$" + names[b] + rest, GenericRules(names)) == ANY + rest
  {
    var m, rules := "$" + names[b], GenericRules(names);
    PrefixFreeIsOrdered(names);
    GenericIsOnePass(names, m + rest);
    GenericIsOnePass(names, rest);
    PlainTextUnchanged(names, rest);
    assert (m + rest)[..|m|] == m && (m + rest)[|m|..] == rest;
    BareMentionFirst(names, b, m + rest);
    BareRule(names, b);
  }

  lemma BareRule(names: seq<string>, b: nat)
    requires b < |names|
    ensures GenericRules(names)[7 * b + 6] == Rule("$" + names[b], ANY)
  {
    GenericRuleAt(names, b, 6);
    MentionIsPattern(names[b], 2);
    assert "$" + names[b] + "" == "$" + names[b];
  }

  /** A text on which two prefix-related variables are rendered differently in the two orders. */
  lemma PrefixOrderMatters(u: string, v: string)
    requires Name(u) && Name(v) && u <= v && u != v
    ensures Chain("$" + v, GenericRules([u, v])) != Chain("$" + v, GenericRules([v, u]))
  {
    var rest := v[|u|..];
    assert v == u + rest;
    forall i | 0 <= i < |rest| ensures rest[i] != '$' && rest[i] != '=' {
      assert rest[i] == v[|u| + i] && NameChar(v[|u| + i]);
    }
    assert "$" + v == "$" + u + rest && "$" + v == "$" + v + [];
    BareMentionPicked([u], 0, rest);
    BareMentionPicked([v], 0, []);
    PlainTextUnchanged([v], ANY + rest);
    assert ANY + [] == ANY;
    PlainTextUnchanged([u], ANY);
    GenericRulesPair(u, v, "$" + v);
    GenericRulesPair(v, u, "$" + v);
  }

  /** Two variables may be processed in either order exactly when neither name starts the other. */
  lemma OrderIrrelevantIff(u: string, v: string)
    requires Name(u) && Name(v) && u != v
    ensures (forall s :: Chain(s, GenericRules([u, v])) == Chain(s, GenericRules([v, u]))) <==> Clash(u, v)
  {
    if Clash(u, v) {
      forall s ensures Chain(s, GenericRules([u, v])) == Chain(s, GenericRules([v, u])) {
        OrderIrrelevant([u, v], [v, u], s);
      }
    } else if u <= v {
      PrefixOrderMatters(u, v);
    } else {
      PrefixOrderMatters(v, u);
    }
  }

  // ---- The variables of the dashboards ----

  /** The first three letters of a name as a number. */
  function Code(v: string): int
    requires |v| >= 3
  {
    v[0] as int * 0x10000 + v[1] as int * 0x100 + v[2] as int
  }

  lemma {:induction false} IncreasingCodes(names: seq<string>, i: nat, j: nat)
    requires i < j < |names|
    requires forall k :: 0 <= k < |names| ==> |names[k]| >= 3
    requires forall k :: 0 <= k < |names| - 1 ==> Code(names[k]) < Code(names[k + 1])
    ensures Code(names[i]) < Code(names[j])
  {
    if i + 1 < j {
      IncreasingCodes(names, i, j - 1);
    }
  }

  /** Names whose first three letters increase do not start one another. */
  lemma IncreasingCodesPrefixFree(names: seq<string>)
    requires forall k :: 0 <= k < |names| ==> Name(names[k]) && |names[k]| >= 3
    requires forall k :: 0 <= k < |names| - 1 ==> Code(names[k]) < Code(names[k + 1])
    ensures PrefixFree(names)
  {
    forall i, j | 0 <= i < |names| && 0 <= j < |names| && i != j ensures Clash(names[i], names[j]) {
      IncreasingCodes(names, if i < j then i else j, if i < j then j else i);
      var u, v := names[i], names[j];
      ClashAt(u, v, if u[0] != v[0] then 0 else if u[1] != v[1] then 1 else 2);
    }
  }

  lemma GenericVariableNames()
    ensures forall k :: 0 <= k < |GENERIC_VARIABLES| ==> Name(GENERIC_VARIABLES[k])
  {
  }

  lemma GenericVariableCodes()
    ensures forall k :: 0 <= k < |GENERIC_VARIABLES| ==> |GENERIC_VARIABLES[k]| >= 3
    ensures forall k :: 0 <= k < |GENERIC_VARIABLES| - 1 ==> Code(GENERIC_VARIABLES[k]) < Code(GENERIC_VARIABLES[k + 1])
  {
  }

  /** No generic variable's name starts another's. */
  lemma GenericVariablesPrefixFree()
    ensures PrefixFree(GENERIC_VARIABLES)
  {
    GenericVariableNames();
    GenericVariableCodes();
    IncreasingCodesPrefixFree(GENERIC_VARIABLES);
  }

  /** The variables' mentions are gone, whatever they were run over. */
  lemma MentionGone(names: seq<string>, s: string, v: string, m: nat)
    requires Ordered(names) && v in names && m < 3
    ensures !Occurs(Mentions(v)[m], Chain(s, GenericRules(names)))
  {
    var a :| 0 <= a < |names| && names[a] == v;
    PatternsGone(names, s, a, 4 + m);
    MentionIsPattern(v, m);
  }

  /** The rendered expression mentions no generic variable in any of the three forms. */
  lemma NoMentionLeft(uid: string, expression: string, namespace: string, v: string, token: string)
    requires v in GENERIC_VARIABLES && token in Mentions(v)
    ensures !Occurs(token, Render(uid, expression, namespace))
  {
    GenericVariablesPrefixFree();
    PrefixFreeIsOrdered(GENERIC_VARIABLES);
    var m :| 0 <= m < 3 && Mentions(v)[m] == token;
    MentionGone(GENERIC_VARIABLES, Prepare(uid, expression, namespace), v, m);
  }

  /** The whole rendering after the preparation is one pass, and its variable order is irrelevant. */
  lemma RenderIsOnePass(uid: string, expression: string, namespace: string, order: seq<string>)
    requires PrefixFree(order) && forall v :: v in order <==> v in GENERIC_VARIABLES
    ensures Render(uid, expression, namespace)
         == Scan(Prepare(uid, expression, namespace), GenericRules(order))
         == Chain(Prepare(uid, expression, namespace), GenericRules(order))
  {
    GenericVariablesPrefixFree();
    PrefixFreeIsOrdered(order);
    OrderIrrelevant(GENERIC_VARIABLES, order, Prepare(uid, expression, namespace));
    GenericIsOnePass(order, Prepare(uid, expression, namespace));
  }

  /** Two letters are enough to tell the texts apart. */
  lemma {:induction false} InertByTwo(x: string, y: string)
    requires |y| >= 2
    requires forall i :: 0 <= i < |x| && x[i] == y[0] ==> i + 1 < |x| && x[i + 1] != y[1]
    ensures Inert(x, y)
    decreases |x|
  {
    if x != [] {
      if x[0] != y[0] { ClashAt(x, y, 0); } else { ClashAt(x, y, 1); }
      InertByTwo(x[1..], y);
    }
  }

  /** Texts that cannot be confused with a part of the rate-interval placeholder. */
  predicate SparesInterval(a: string)
  {
    |a| >= 2 && '$' !in a && a[0] !in "_ratenvl" && (a[0] == 'i' ==> a[1] == 'p')
  }

  lemma RateIntervalInert(a: string)
    requires SparesInterval(a)
    ensures Inert(a, RATE_INTERVAL) && Inert(RATE_INTERVAL[1..], a)
  {
    InertByHead(a, RATE_INTERVAL);
    InertByTwo(RATE_INTERVAL[1..], a);
  }

  ghost predicate AllSpareInterval(rules: seq<Rule>)
  {
    forall k :: 0 <= k < |rules| ==> SparesInterval(rules[k].value)
  }

  lemma ChainSparesInterval(s: string, rules: seq<Rule>)
    requires AllSpareInterval(rules) && !Occurs(RATE_INTERVAL, s)
    ensures !Occurs(RATE_INTERVAL, Chain(s, rules))
  {
    forall k | 0 <= k < |rules|
      ensures Inert(rules[k].value, RATE_INTERVAL) && Inert(RATE_INTERVAL[1..], rules[k].value)
    {
      RateIntervalInert(rules[k].value);
    }
    ChainKeepsAbsent(RATE_INTERVAL, s, rules);
  }

  lemma SubstitutionsSpareInterval(uid: string)
    ensures AllSpareInterval(Substitutions(uid))
  {
    assert SparesInterval(ANY) && SparesInterval("database") && SparesInterval("ip_country");
    assert SparesInterval("ip-country-api") && SparesInterval("ip-country-postgres");
  }

  lemma GenericRulesSpareInterval(names: seq<string>)
    ensures AllSpareInterval(GenericRules(names))
  {
    var rules := GenericRules(names);
    assert SparesInterval(ANY) && SparesInterval("=~\"" + ANY + "\"");
    forall k | 0 <= k < |rules| ensures SparesInterval(rules[k].value) {
      var a, i := GenericRuleOwner(names, k);
      assert rules[k].value == Value(i);
    }
  }

  lemma IntervalReplaced(s: string)
    ensures !Occurs(RATE_INTERVAL, Replace(s, Rule(RATE_INTERVAL, "5m")))
  {
    RateIntervalInert("5m");
    ReplaceRemoves(s, Rule(RATE_INTERVAL, "5m"));
  }

  /** The rate-interval placeholder is gone as well: no later replacement brings it back. */
  lemma NoRateIntervalLeft(uid: string, expression: string, namespace: string)
    ensures !Occurs(RATE_INTERVAL, Render(uid, expression, namespace))
  {
    var named := Replace(expression, Rule("__APP_NAMESPACE__", namespace));
    IntervalReplaced(named);
    SubstitutionsSpareInterval(uid);
    ChainSparesInterval(Replace(named, Rule(RATE_INTERVAL, "5m")), Substitutions(uid));
    GenericRulesSpareInterval(GENERIC_VARIABLES);
    ChainSparesInterval(Prepare(uid, expression, namespace), GenericRules(GENERIC_VARIABLES));
  }

  // ---- The loops ----

  /** Renders one expression for one dashboard. */
  method RenderExpression(uid: string, expression: string, namespace: string) returns (rendered: string)
    ensures rendered == Render(uid, expression, namespace)
    ensures forall v, token :: v in GENERIC_VARIABLES && token in Mentions(v) ==> !Occurs(token, rendered)
    ensures !Occurs(RATE_INTERVAL, rendered)
  {
    rendered := Named(expression, namespace);
    rendered := Substitute(Substitutions(uid), rendered);
    rendered := RenderVariables(GENERIC_VARIABLES, rendered);
    forall v, token | v in GENERIC_VARIABLES && token in Mentions(v) ensures !Occurs(token, rendered) {
      NoMentionLeft(uid, expression, namespace, v, token);
    }
    NoRateIntervalLeft(uid, expression, namespace);
  }

  /** The loop over the dashboard's own replacements. */
  method Substitute(rules: seq<Rule>, text: string) returns (rendered: string)
    ensures rendered == Chain(text, rules)
  {
    rendered := text;
    for i := 0 to |rules|
      invariant rendered == Chain(text, rules[..i])
    {
      rendered := Replace(rendered, rules[i]);
      ChainStep(text, rules, i);
    }
    assert rules[..|rules|] == rules;
  }

  /** The loop over the variables. */
  method RenderVariables(names: seq<string>, text: string) returns (rendered: string)
    ensures rendered == Chain(text, GenericRules(names))
  {
    rendered := text;
    for i := 0 to |names|
      invariant rendered == Chain(text, GenericRules(names[..i]))
    {
      rendered := RenderVariable(names[i], rendered);
      ChainAppend(text, GenericRules(names[..i]), VariableRules(names[i]));
      assert names[..i + 1][..i] == names[..i];
    }
    assert names[..|names|] == names;
  }

  lemma RegroupPattern(q: string, o: string, v: string, c: string, e: string)
    ensures q + (o + v + c) + e == q + (o + (v + (c + e)))
  {
  }

  lemma MentionIsPattern(v: string, m: nat)
    requires m < 3
    ensures Mentions(v)[m] == VariableRule(v, 4 + m).pattern
  {
    RegroupPattern("", Open(4 + m), v, Close(4 + m), "");
  }

  /** The tokens of the quoted matches, without and with braces. */
  function QuotedToken(v: string, braced: bool): string
  {
    if braced then "${" + v + "}" else "$" + v + ""
  }

  lemma QuotedPatterns(v: string, braced: bool)
    ensures var token, i := QuotedToken(v, braced), if braced then 0 else 2;
            && "=~\"" + token + "\"" == VariableRule(v, i).pattern
            && "=\"" + token + "\"" == VariableRule(v, i + 1).pattern
  {
    RegroupPattern("=~\"", if braced then "${" else "$", v, if braced then "}" else "", "\"");
    RegroupPattern("=\"", if braced then "${" else "$", v, if braced then "}" else "", "\"");
  }

  /** The body of the loop over the variables: quoted matches first, then bare mentions. */
  method RenderVariable(name: string, text: string) returns (rendered: string)
    ensures rendered == Chain(text, VariableRules(name))
  {
    rendered := text;
    ghost var rules := VariableRules(name);
    for t := 0 to 2
      invariant rendered == Chain(text, rules[..2 * t])
    {
      var token := QuotedToken(name, t == 0);
      QuotedPatterns(name, t == 0);
      rendered := Replace(rendered, Rule("=~\"" + token + "\"", "=~\"" + ANY + "\""));
      ChainStep(text, rules, 2 * t);
      rendered := Replace(rendered, Rule("=\"" + token + "\"", "=~\"" + ANY + "\""));
      ChainStep(text, rules, 2 * t + 1);
    }
    for t := 0 to 3
      invariant rendered == Chain(text, rules[..4 + t])
    {
      MentionIsPattern(name, t);
      rendered := Replace(rendered, Rule(Mentions(name)[t], ANY));
      ChainStep(text, rules, 4 + t);
    }
    assert rules[..7] == rules;
  }
}
