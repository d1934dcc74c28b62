/** Which of the variables' replacements can be left out of a pass over the text because they change nothing. */
module Lean {
  import opened Rewriting
  import opened Expressions

  /** The rules of one variable without `=~"${v}"` and `=~"$v"`, which do no more than those of the bare mentions. */
  function LeanOf(v: string): seq<Rule>
  {
    [VariableRule(v, 1), VariableRule(v, 3), VariableRule(v, 4), VariableRule(v, 5), VariableRule(v, 6)]
  }

  function LeanRules(names: seq<string>): seq<Rule>
  {
    if names == [] then [] else LeanRules(names[..|names| - 1]) + LeanOf(names[|names| - 1])
  }

  lemma {:induction false} LeanOwner(names: seq<string>, k: nat) returns (v: string, i: nat)
    requires k < |LeanRules(names)|
    ensures v in names && i < 7 && i != 0 && i != 2 && LeanRules(names)[k] == VariableRule(v, i)
    decreases |names|
  {
    var n := |names| - 1;
    var front := LeanRules(names[..n]);
    if k < |front| {
      v, i := LeanOwner(names[..n], k);
      assert names[..n][..] <= names;
    } else {
      v := names[n];
      var j := k - |front|;
      i := if j == 0 then 1 else if j == 1 then 3 else j + 2;
      assert LeanOf(v)[j] == VariableRule(v, i);
    }
  }

  lemma {:induction false} LeanHas(names: seq<string>, v: string, i: nat) returns (k: nat)
    requires v in names && i < 7 && i != 0 && i != 2
    ensures k < |LeanRules(names)| && LeanRules(names)[k] == VariableRule(v, i)
    decreases |names|
  {
    var n := |names| - 1;
    var front := LeanRules(names[..n]);
    if v == names[n] {
      var j := if i == 1 then 0 else if i == 3 then 1 else i - 2;
      k := |front| + j;
      assert LeanOf(v)[j] == VariableRule(v, i);
    } else {
      assert names == names[..n] + [names[n]];
      k := LeanHas(names[..n], v, i);
    }
  }

  lemma PickSkips(s: string, r: Rule, rules: seq<Rule>)
    requires !(r.pattern <= s)
    ensures Pick(s, [r] + rules) == Pick(s, rules)
  {
    PickAppend(s, [r], rules);
    PickNothing(s, [r]);
  }

  lemma PickKeeps(s: string, r: Rule, rules: seq<Rule>, rules': seq<Rule>)
    requires Pick(s, rules) == Pick(s, rules')
    ensures Pick(s, [r] + rules) == Pick(s, [r] + rules')
  {
    PickAppend(s, [r], rules);
    PickAppend(s, [r], rules');
  }

  predicate StartsMatcher(s: string)
  {
    |s| >= 2 && s[0] == '=' && s[1] == '~'
  }

  /** Where no regular-expression matcher starts, a variable's lean rules pick what all its rules pick. */
  lemma LeanPicksAlike(v: string, s: string)
    requires !StartsMatcher(s)
    ensures Pick(s, VariableRules(v)) == Pick(s, LeanOf(v))
  {
    var r0, r1, r2 := VariableRule(v, 0), VariableRule(v, 1), VariableRule(v, 2);
    var tail: seq<Rule> := [VariableRule(v, 3), VariableRule(v, 4), VariableRule(v, 5), VariableRule(v, 6)];
    assert r0.pattern[0] == '=' && r0.pattern[1] == '~' && r2.pattern[0] == '=' && r2.pattern[1] == '~';
    assert VariableRules(v) == [r0] + ([r1] + ([r2] + tail));
    assert LeanOf(v) == [r1] + tail;
    PickSkips(s, r2, tail);
    PickKeeps(s, r1, [r2] + tail, tail);
    PickSkips(s, r0, [r1] + ([r2] + tail));
  }

  lemma {:induction false} LeanPicks(names: seq<string>, s: string)
    requires !StartsMatcher(s)
    ensures Pick(s, GenericRules(names)) == Pick(s, LeanRules(names))
    decreases |names|
  {
    if names != [] {
      var n := |names| - 1;
      LeanPicks(names[..n], s);
      LeanPicksAlike(names[n], s);
      PickAppend(s, GenericRules(names[..n]), VariableRules(names[n]));
      PickAppend(s, LeanRules(names[..n]), LeanOf(names[n]));
    }
  }

  // ---- A pass without them ----

  /** Rules whose patterns neither start a matcher nor a quoted mention's text. */
  ghost predicate Aside(front: seq<Rule>, names: seq<string>)
  {
    forall k :: 0 <= k < |front| ==> front[k].pattern[0] in "$_" && MissesMentions(front[k].pattern, names)
  }

  ghost predicate MissesMentions(p: string, names: seq<string>)
  {
    forall v, braced :: v in names ==> Clash(p, QuotedToken(v, braced) + "\"")
  }

  /** A pattern that a lean pass can look for. */
  predicate LeanHead(p: string)
  {
    p != [] && (p[0] == '$' || p[0] == '_' || (|p| >= 2 && p[0] == '=' && p[1] == '"'))
  }

  lemma LeanHeads(front: seq<Rule>, names: seq<string>)
    requires Aside(front, names)
    ensures AllLean(front + LeanRules(names))
  {
    var rules := front + LeanRules(names);
    forall k | 0 <= k < |rules| ensures LeanHead(rules[k].pattern) {
      if k >= |front| {
        var v, i := LeanOwner(names, k - |front|);
        assert rules[k] == VariableRule(v, i);
      }
    }
  }

  ghost predicate AllLean(rules: seq<Rule>)
  {
    forall k :: 0 <= k < |rules| ==> LeanHead(rules[k].pattern)
  }

  /** A lean pass copies the characters that open a matcher, and closing quotes. */
  lemma LeanCopies(c: char, y: string, rules: seq<Rule>)
    requires AllLean(rules)
    requires c == '~' || c == '"' || (c == '=' && y != [] && y[0] == '~')
    ensures Scan([c] + y, rules) == [c] + Scan(y, rules)
  {
    var s := [c] + y;
    forall k | 0 <= k < |rules| ensures !(rules[k].pattern <= s) {
      assert LeanHead(rules[k].pattern);
    }
    PickNothing(s, rules);
    assert s[1..] == y;
  }

  lemma OpeningCopied(y: string, rules: seq<Rule>)
    requires AllLean(rules)
    ensures Scan(['='] + (['~'] + (['"'] + y)), rules) == ['='] + (['~'] + (['"'] + Scan(y, rules)))
  {
    LeanCopies('"', y, rules);
    LeanCopies('~', ['"'] + y, rules);
    LeanCopies('=', ['~'] + (['"'] + y), rules);
  }

  lemma Opening(y: string)
    ensures "=~\"" + y == ['='] + (['~'] + (['"'] + y))
  {
  }

  lemma TokenIsPattern(v: string, braced: bool)
    ensures QuotedToken(v, braced) == VariableRule(v, if braced then 5 else 6).pattern
  {
    MentionIsPattern(v, if braced then 1 else 2);
  }

  lemma OwnMentionsClash(v: string, i: nat, j: nat)
    requires Name(v) && 4 <= i < 7 && 4 <= j < 7 && i != j
    ensures Clash(VariableRule(v, i).pattern, VariableRule(v, j).pattern)
  {
    var x, y := v + Close(i), v + Close(j);
    assert "" + (Open(i) + x) == Open(i) + x && "" + (Open(j) + y) == Open(j) + y;
    NamesArePlain(v, i);
    NamesArePlain(v, j);
    if i < 6 && j < 6 {
      ClashAt(Close(i), Close(j), 0);
      ClashUnderLead(v, Close(i), Close(j));
    }
    MentionsClash(Open(i), x, Open(j), y);
  }

  lemma QuotedPattern(v: string, i: nat)
    requires i < 4
    ensures VariableRule(v, i).pattern == Quote(i) + (QuotedToken(v, i < 2) + "\"")
  {
    QuotedPatterns(v, i < 2);
    Regroup("=~\"", QuotedToken(v, i < 2), "\"");
    Regroup("=\"", QuotedToken(v, i < 2), "\"");
  }

  /** Of one variable, only the bare mention's own pattern starts the text of a quoted one. */
  lemma OwnPatterns(v: string, i: nat, braced: bool)
    requires Name(v) && i < 7 && i != 0 && i != 2
    ensures VariableRule(v, i).pattern == QuotedToken(v, braced)
            || Clash(VariableRule(v, i).pattern, QuotedToken(v, braced) + "\"")
  {
    var p, t := VariableRule(v, i).pattern, QuotedToken(v, braced) + "\"";
    if i < 4 {
      ClashAt(p, t, 0);
    } else if i == 4 {
      if braced {
        assert p == "${" + v + ":regex}" && t == "${" + v + "}\"" by { MentionIsPattern(v, 0); }
        ClashAt(p, t, 2 + |v|);
      } else {
        ClashAt(p, t, 1);
      }
    } else {
      TokenIsPattern(v, i == 5);
      if (i == 5) != braced {
        ClashAt(p, t, 1);
      }
    }
  }

  /** At the text of a quoted mention a lean pass picks the bare mention. */
  lemma TokenPicked(front: seq<Rule>, names: seq<string>, v: string, braced: bool, y: string)
    requires Aside(front, names) && PrefixFree(names) && v in names
    requires QuotedToken(v, braced) + "\"" <= y
    ensures Pick(y, front + LeanRules(names)) == [Rule(QuotedToken(v, braced), ANY)]
  {
    FrontMisses(front, names, v, braced, y);
    LeanTokenPicked(names, v, braced, y);
    PickAppend(y, front, LeanRules(names));
  }

  lemma FrontMisses(front: seq<Rule>, names: seq<string>, v: string, braced: bool, y: string)
    requires Aside(front, names) && v in names && QuotedToken(v, braced) + "\"" <= y
    ensures Pick(y, front) == []
  {
    forall k | 0 <= k < |front| ensures !(front[k].pattern <= y) {
      assert MissesMentions(front[k].pattern, names);
      if front[k].pattern <= y {
        CommonTextNoClash(front[k].pattern, QuotedToken(v, braced) + "\"", y);
      }
    }
    PickNothing(y, front);
  }

  lemma LeanTokenPicked(names: seq<string>, v: string, braced: bool, y: string)
    requires PrefixFree(names) && v in names && QuotedToken(v, braced) + "\"" <= y
    ensures Pick(y, LeanRules(names)) == [Rule(QuotedToken(v, braced), ANY)]
  {
    var k := FirstMatch(y, LeanRules(names));
    LeanTokenMatches(names, v, braced, y);
    var u, i := LeanOwner(names, k);
    OnlyOwnPattern(names, u, i, v, braced, y);
  }

  lemma LeanTokenMatches(names: seq<string>, v: string, braced: bool, y: string)
    requires v in names && QuotedToken(v, braced) + "\"" <= y
    ensures FirstMatch(y, LeanRules(names)) < |LeanRules(names)|
  {
    var own := LeanHas(names, v, if braced then 5 else 6);
    TokenIsPattern(v, braced);
    assert LeanRules(names)[own].pattern <= y;
  }

  lemma OnlyOwnPattern(names: seq<string>, u: string, i: nat, v: string, braced: bool, y: string)
    requires PrefixFree(names) && u in names && v in names && i < 7 && i != 0 && i != 2
    requires VariableRule(u, i).pattern <= y && QuotedToken(v, braced) + "\"" <= y
    ensures VariableRule(u, i) == Rule(QuotedToken(v, braced), ANY)
  {
    var p, t := VariableRule(u, i).pattern, QuotedToken(v, braced);
    CommonTextNoClash(p, t + "\"", y);
    if u != v {
      var a :| 0 <= a < |names| && names[a] == u;
      var b :| 0 <= b < |names| && names[b] == v;
      assert Clash(names[a], names[b]);
      PatternsClash(u, i, v, if braced then 5 else 6);
      TokenIsPattern(v, braced);
      ComparableWithStart(p, t, "\"");
    } else {
      var a :| 0 <= a < |names| && names[a] == v;
      assert Name(names[a]);
      OwnPatterns(v, i, braced);
      assert i >= 4;
    }
  }

  /** A lean pass turns a quoted regular-expression match into what its own rule would. */
  lemma MatcherScanned(front: seq<Rule>, names: seq<string>, v: string, braced: bool, rest: string)
    requires Aside(front, names) && PrefixFree(names) && v in names
    ensures var rules := front + LeanRules(names);
            Scan("=~\"" + (QuotedToken(v, braced) + (['"'] + rest)), rules)
            == "=~\"" + (ANY + (['"'] + Scan(rest, rules)))
  {
    var t := QuotedToken(v, braced);
    LeanHeads(front, names);
    assert t + (['"'] + rest) == (t + "\"") + rest;
    TokenPicked(front, names, v, braced, t + (['"'] + rest));
    MatcherPasses(t, rest, front + LeanRules(names));
  }

  lemma MatcherPasses(t: string, rest: string, rules: seq<Rule>)
    requires t != [] && AllLean(rules) && Pick(t + (['"'] + rest), rules) == [Rule(t, ANY)]
    ensures Scan("=~\"" + (t + (['"'] + rest)), rules) == "=~\"" + (ANY + (['"'] + Scan(rest, rules)))
  {
    var y := t + (['"'] + rest);
    Opening(y);
    Opening(ANY + (['"'] + Scan(rest, rules)));
    OpeningCopied(y, rules);
    TokenScanned(t, y, rest, rules);
  }

  lemma TokenScanned(t: string, y: string, rest: string, rules: seq<Rule>)
    requires t != [] && y == t + (['"'] + rest) && Pick(y, rules) == [Rule(t, ANY)] && AllLean(rules)
    ensures Scan(y, rules) == ANY + (['"'] + Scan(rest, rules))
  {
    ScanByPick(y, rules);
    assert y[|t|..] == ['"'] + rest;
    LeanCopies('"', rest, rules);
  }

  /** Where a matcher starts a lean pass picks nothing, and the full one at most a matcher's rule. */
  lemma MatcherPick(front: seq<Rule>, names: seq<string>, s: string) returns (v: string, braced: bool)
    requires Aside(front, names) && StartsMatcher(s)
    ensures Pick(s, front + LeanRules(names)) == []
    ensures var p := Pick(s, front + GenericRules(names));
            p != [] ==> v in names && p[0] == Rule("=~\"" + QuotedToken(v, braced) + "\"", "=~\"" + ANY + "\"")
  {
    LeanPicksNoMatcher(front, names, s);
    FrontNoMatcher(front, names, s);
    PickNothing(s, front);
    PickAppend(s, front, GenericRules(names));
    var k := FirstMatch(s, GenericRules(names));
    v, braced := [], false;
    if k < |GenericRules(names)| {
      v, braced := MatcherOwner(names, s, k);
    }
  }

  lemma LeanPicksNoMatcher(front: seq<Rule>, names: seq<string>, s: string)
    requires Aside(front, names) && StartsMatcher(s)
    ensures Pick(s, front + LeanRules(names)) == []
  {
    var rules := front + LeanRules(names);
    LeanHeads(front, names);
    forall k | 0 <= k < |rules| ensures !(rules[k].pattern <= s) {
      assert LeanHead(rules[k].pattern);
    }
    PickNothing(s, rules);
  }

  lemma FrontNoMatcher(front: seq<Rule>, names: seq<string>, s: string)
    requires Aside(front, names) && StartsMatcher(s)
    ensures forall k :: 0 <= k < |front| ==> !(front[k].pattern <= s)
  {
  }

  lemma MatcherOwner(names: seq<string>, s: string, k: nat) returns (v: string, braced: bool)
    requires StartsMatcher(s) && k < |GenericRules(names)| && GenericRules(names)[k].pattern <= s
    ensures v in names
    ensures GenericRules(names)[k] == Rule("=~\"" + QuotedToken(v, braced) + "\"", "=~\"" + ANY + "\"")
  {
    var a, i := GenericRuleOwner(names, k);
    assert i == 0 || i == 2;
    v, braced := names[a], i == 0;
    QuotedPatterns(v, braced);
  }

  lemma StepAlike(s: string, full: seq<Rule>, lean: seq<Rule>)
    requires s != [] && Pick(s, full) == Pick(s, lean)
    requires var rest := if Pick(s, full) == [] then s[1..] else s[|Pick(s, full)[0].pattern|..];
             Scan(rest, full) == Scan(rest, lean)
    ensures Scan(s, full) == Scan(s, lean)
  {
    ScanByPick(s, full);
    ScanByPick(s, lean);
  }

  lemma MatcherText(t: string, rest: string)
    ensures ("=~\"" + t + "\"") + rest == "=~\"" + (t + (['"'] + rest))
  {
  }

  lemma MatcherAlike(s: string, front: seq<Rule>, names: seq<string>, v: string, braced: bool, rest: string)
    requires Aside(front, names) && PrefixFree(names) && v in names
    requires s == ("=~\"" + QuotedToken(v, braced) + "\"") + rest
    requires var p := Rule("=~\"" + QuotedToken(v, braced) + "\"", "=~\"" + ANY + "\"");
             Pick(s, front + GenericRules(names)) == [p]
    requires Scan(rest, front + GenericRules(names)) == Scan(rest, front + LeanRules(names))
    ensures Scan(s, front + GenericRules(names)) == Scan(s, front + LeanRules(names))
  {
    var t := "=~\"" + QuotedToken(v, braced) + "\"";
    MatcherScanned(front, names, v, braced, rest);
    MatcherText(QuotedToken(v, braced), rest);
    MatcherText(ANY, Scan(rest, front + LeanRules(names)));
    ScanByPick(s, front + GenericRules(names));
    assert s[|t|..] == rest;
  }

  /** Leaving out the replacements of quoted regular-expression matches changes no pass. */
  lemma {:induction false} LeanScansAlike(s: string, front: seq<Rule>, names: seq<string>)
    requires Aside(front, names) && PrefixFree(names)
    ensures Scan(s, front + GenericRules(names)) == Scan(s, front + LeanRules(names))
    decreases |s|
  {
    if s != [] {
      var full, lean := front + GenericRules(names), front + LeanRules(names);
      var p := Pick(s, full);
      var rest := if p == [] then s[1..] else s[|p[0].pattern|..];
      LeanScansAlike(rest, front, names);
      if !StartsMatcher(s) {
        LeanPicks(names, s);
        PickAppend(s, front, GenericRules(names));
        PickAppend(s, front, LeanRules(names));
        StepAlike(s, full, lean);
      } else {
        var v, braced := MatcherPick(front, names, s);
        if p == [] {
          StepAlike(s, full, lean);
        } else {
          assert s == p[0].pattern + rest;
          MatcherAlike(s, front, names, v, braced, rest);
        }
      }
    }
  }
}
