/** What rendering makes of quoted label matches, and of which ones it makes regular-expression matches. */
module Matchers {
  import opened Wrappers
  import opened Rewriting
  import opened Expressions
  import opened Lean

  /** PromQL's matching operators: `=`, `!=`, `=~` and `!~`. */
  datatype Operator = Equals | Differs | Fits | Misses

  /** The operator before a text. */
  function Lead(operator: Operator, y: string): string
  {
    match operator
    case Equals => ['='] + y
    case Differs => ['!'] + (['='] + y)
    case Fits => ['='] + (['~'] + y)
    case Misses => ['!'] + (['~'] + y)
  }

  /** A quoted text before another. */
  function Quoted(t: string, w: string): string
  {
    ['"'] + (t + (['"'] + w))
  }

  /** A match of a label against a mention of a variable, and what follows it. */
  function Match(operator: Operator, v: string, m: nat, w: string): string
    requires m < 3
  {
    Lead(operator, Quoted(Mentions(v)[m], w))
  }

  /** What it is rendered as: a `~` is added after `=` and `!=`, but not before `${v:regex}`. */
  function Rendered(operator: Operator, m: nat, w: string): string
  {
    var y := Quoted(ANY, w);
    match operator
    case Equals => Lead(if m == 0 then Equals else Fits, y)
    case Differs => ['!'] + Lead(if m == 0 then Equals else Fits, y)
    case _ => Lead(operator, y)
  }

  // ---- What a match selects ----

  /**
    The whole text matches the regular expression. Of the syntax of these this reads single characters, `.` for
    any of them, and a `*` after either; that is all that the inserted texts need.
   */
  predicate FullMatch(regex: string, x: string)
    decreases |regex| + |x|
  {
    if regex == "" then x == ""
    else if |regex| >= 2 && regex[1] == '*' then
      FullMatch(regex[2..], x) || (x != "" && OneChar(regex[0], x[0]) && FullMatch(regex, x[1..]))
    else x != "" && OneChar(regex[0], x[0]) && FullMatch(regex[1..], x[1..])
  }

  predicate OneChar(r: char, c: char)
  {
    r == '.' || r == c
  }

  /** The operator at the start of a text, the longest that it can be. */
  function OperatorOf(text: string): Option<Operator>
  {
    if |text| < 2 then None
    else if text[0] == '=' then Some(if text[1] == '~' then Fits else Equals)
    else if text[0] == '!' && text[1] == '=' then Some(Differs)
    else if text[0] == '!' && text[1] == '~' then Some(Misses)
    else None
  }

  /** What is between the quotes of a text that is one quoted string, without escapes. */
  function Unquoted(text: string): Option<string>
  {
    if |text| >= 2 && text[0] == '"' && text[|text| - 1] == '"' && Literal(text[1..|text| - 1]) then
      Some(text[1..|text| - 1])
    else None
  }

  predicate Literal(t: string)
  {
    '"' !in t && '\\' !in t
  }

  /** An operator and the text that a label is matched against. */
  datatype Matcher = Matcher(operator: Operator, against: string)

  /** A text as a match of a label, or none if it is malformed. */
  function Parsed(text: string): Option<Matcher>
  {
    match OperatorOf(text)
    case None => None
    case Some(operator) =>
      match Unquoted(text[if operator.Equals? then 1 else 2..])
      case None => None
      case Some(t) => Some(Matcher(operator, t))
  }

  /** The match selects the series whose label has the value `x`. */
  predicate Meets(m: Matcher, x: string)
  {
    match m.operator
    case Equals => x == m.against
    case Differs => x != m.against
    case Fits => FullMatch(m.against, x)
    case Misses => !FullMatch(m.against, x)
  }

  predicate Selects(text: string, x: string)
  {
    Parsed(text).Some? && Meets(Parsed(text).value, x)
  }

  lemma {:induction false} AnyMatches(x: string)
    ensures FullMatch(ANY, x)
    decreases |x|
  {
    assert ANY[2..] == "";
    if x != "" {
      AnyMatches(x[1..]);
    }
  }

  lemma PatternEnd(v: string, i: nat)
    requires Name(v) && i < 7
    ensures '=' !in VariableRule(v, i).pattern[1..] && '!' !in VariableRule(v, i).pattern
  {
    NamesArePlain(v, i);
    MentionShape(Open(i), v + Close(i));
    assert '!' !in v && '!' !in Open(i) && '!' !in Close(i) && '!' !in Quote(i);
    assert VariableRule(v, i).pattern == Quote(i) + (Open(i) + (v + Close(i)));
  }

  /** A pass splits before every match. */
  lemma SplitsBefore(names: seq<string>, u: string, w: string)
    requires PrefixFree(names) && w != "" && (w[0] == '=' || w[0] == '!')
    ensures Scan(u + w, GenericRules(names)) == Scan(u, GenericRules(names)) + Scan(w, GenericRules(names))
  {
    var rules := GenericRules(names);
    forall k | 0 <= k < |rules| ensures Inert(rules[k].pattern[1..], w[..1]) {
      var a, i := GenericRuleOwner(names, k);
      PatternEnd(names[a], i);
      InertByHead(rules[k].pattern[1..], w[..1]);
    }
    ScanSplits(u, w, w[..1], rules);
  }

  lemma CharCopied(names: seq<string>, c: char, y: string)
    requires c != '$' && c != '='
    ensures Scan([c] + y, GenericRules(names)) == [c] + Scan(y, GenericRules(names))
  {
    var s, rules := [c] + y, GenericRules(names);
    forall k | 0 <= k < |rules| ensures !(rules[k].pattern <= s) {
      var a, i := GenericRuleOwner(names, k);
      assert rules[k].pattern[0] == (Quote(i) + Open(i))[0];
    }
    PickNothing(s, rules);
    assert s[1..] == y;
  }

  // ---- The mention itself is picked ----

  lemma OwnRulePicked(names: seq<string>, v: string, i: nat, t: string)
    requires PrefixFree(names) && v in names && i < 7 && VariableRule(v, i).pattern <= t
    requires forall j :: 0 <= j < i ==> Clash(VariableRule(v, j).pattern, VariableRule(v, i).pattern)
    ensures Pick(t, GenericRules(names)) == [VariableRule(v, i)]
  {
    var b :| 0 <= b < |names| && names[b] == v;
    var j := PickOfVariable(names, b, i, t);
    CommonTextNoClash(VariableRule(v, j).pattern, VariableRule(v, i).pattern, t);
    PickedRule(names, b, j, t);
  }

  lemma OwnPatternsClash(v: string, j: nat, i: nat)
    requires Name(v) && j < i < 7
    ensures Clash(VariableRule(v, j).pattern, VariableRule(v, i).pattern)
  {
    if j >= 4 {
      OwnMentionsClash(v, j, i);
    } else if i >= 4 {
      QuotedPattern(v, j);
      BareStart(v, i);
      ClashAt(VariableRule(v, j).pattern, VariableRule(v, i).pattern, 0);
    } else {
      OwnQuotedClash(v, j, i);
    }
  }

  lemma BareStart(v: string, i: nat)
    requires 4 <= i < 7
    ensures VariableRule(v, i).pattern != "" && VariableRule(v, i).pattern[0] == '$'
  {
    assert VariableRule(v, i).pattern[0] == (Quote(i) + Open(i))[0];
  }

  lemma OwnQuotedClash(v: string, j: nat, i: nat)
    requires Name(v) && j < i < 4
    ensures Clash(VariableRule(v, j).pattern, VariableRule(v, i).pattern)
  {
    QuotedPattern(v, j);
    QuotedPattern(v, i);
    if Quote(i) != Quote(j) {
      ClashAt(VariableRule(v, j).pattern, VariableRule(v, i).pattern, 1);
    } else {
      ClashAt(QuotedToken(v, true) + "\"", QuotedToken(v, false) + "\"", 1);
      ClashUnderLead(Quote(i), QuotedToken(v, true) + "\"", QuotedToken(v, false) + "\"");
    }
  }

  /** A pattern of the variable at the start of a text is replaced by its own rule. */
  lemma OwnRuleApplied(names: seq<string>, v: string, i: nat, w: string)
    requires PrefixFree(names) && v in names && i < 7
    ensures Scan(VariableRule(v, i).pattern + w, GenericRules(names))
            == VariableRule(v, i).value + Scan(w, GenericRules(names))
  {
    var p := VariableRule(v, i).pattern;
    assert Name(v) by { var b :| 0 <= b < |names| && names[b] == v; }
    forall j | 0 <= j < i ensures Clash(VariableRule(v, j).pattern, p) {
      OwnPatternsClash(v, j, i);
    }
    OwnRulePicked(names, v, i, p + w);
    ScanByPick(p + w, GenericRules(names));
    assert (p + w)[|p|..] == w;
  }

  /** A bare mention before a closing quote. */
  lemma MentionReplaced(names: seq<string>, v: string, m: nat, w: string)
    requires PrefixFree(names) && v in names && m < 3
    ensures Scan(Mentions(v)[m] + (['"'] + w), GenericRules(names)) == ANY + (['"'] + Scan(w, GenericRules(names)))
  {
    MentionIsPattern(v, m);
    OwnRuleApplied(names, v, 4 + m, ['"'] + w);
    CharCopied(names, '"', w);
  }

  lemma MentionInQuotes(names: seq<string>, v: string, m: nat, w: string)
    requires PrefixFree(names) && v in names && m < 3
    ensures Scan(Quoted(Mentions(v)[m], w), GenericRules(names)) == Quoted(ANY, Scan(w, GenericRules(names)))
  {
    MentionReplaced(names, v, m, w);
    CharCopied(names, '"', Mentions(v)[m] + (['"'] + w));
  }

  // ---- The opening of a match against `${v:regex}` is copied ----

  /** No quoted pattern starts a match against `${v:regex}`. */
  lemma QuotedMissesSelection(names: seq<string>, u: string, i: nat, v: string, w: string)
    requires PrefixFree(names) && u in names && v in names && i < 4
    ensures !(VariableRule(u, i).pattern <= Match(Equals, v, 0, w))
    ensures !(VariableRule(u, i).pattern <= Match(Fits, v, 0, w))
  {
    var t, y := QuotedToken(u, i < 2) + "\"", Mentions(v)[0] + (['"'] + w);
    QuotedPattern(u, i);
    TokenMissesSelection(names, u, i < 2, v);
    TokenPastLead("=\"", t, y, Mentions(v)[0]);
    TokenPastLead("=~\"", t, y, Mentions(v)[0]);
    Leads(y);
    ClashAt("=\"" + t, "=~\"" + y, 1);
    ClashAt("=~\"" + t, "=\"" + y, 1);
  }

  lemma Leads(y: string)
    ensures "=\"" + y == ['='] + (['"'] + y) && "=~\"" + y == ['='] + (['~'] + (['"'] + y))
  {
  }

  lemma TokenPastLead(q: string, t: string, y: string, m: string)
    requires Clash(m, t) && m <= y
    ensures !(q + t <= q + y)
  {
    ClashUnderLead(q, m, t);
    assert q + m <= q + y;
    if q + t <= q + y {
      CommonTextNoClash(q + m, q + t, q + y);
    }
  }

  lemma TokenMissesSelection(names: seq<string>, u: string, braced: bool, v: string)
    requires PrefixFree(names) && u in names && v in names
    ensures Clash(Mentions(v)[0], QuotedToken(u, braced) + "\"")
  {
    var a :| 0 <= a < |names| && names[a] == u;
    var b :| 0 <= b < |names| && names[b] == v;
    MentionIsPattern(v, 0);
    if u == v {
      OwnPatterns(v, 4, braced);
      SelectionIsNoToken(v, braced);
    } else {
      PatternsClash(v, 4, u, if braced then 5 else 6);
      TokenIsPattern(u, braced);
      if !Clash(Mentions(v)[0], QuotedToken(u, braced) + "\"") {
        ComparableWithStart(Mentions(v)[0], QuotedToken(u, braced), "\"");
      }
    }
  }

  lemma SelectionIsNoToken(v: string, braced: bool)
    ensures VariableRule(v, 4).pattern != QuotedToken(v, braced)
  {
    MentionIsPattern(v, 0);
    assert |Mentions(v)[0]| > |QuotedToken(v, braced)|;
  }

  lemma SelectionOpening(names: seq<string>, v: string, s: string, w: string)
    requires PrefixFree(names) && v in names
    requires s == Match(Equals, v, 0, w) || s == Match(Fits, v, 0, w)
    ensures Scan(s, GenericRules(names)) == ['='] + Scan(s[1..], GenericRules(names))
  {
    var rules := GenericRules(names);
    forall k | 0 <= k < |rules| ensures !(rules[k].pattern <= s) {
      var a, i := GenericRuleOwner(names, k);
      if i < 4 {
        QuotedMissesSelection(names, names[a], i, v, w);
      } else {
        BareStart(names[a], i);
      }
    }
    PickNothing(s, rules);
    ScanByPick(s, rules);
  }

  // ---- Every match ----

  lemma EqualsSelection(names: seq<string>, v: string, w: string)
    requires PrefixFree(names) && v in names
    ensures Scan(Match(Equals, v, 0, w), GenericRules(names)) == Lead(Equals, Quoted(ANY, Scan(w, GenericRules(names))))
  {
    var y := Quoted(Mentions(v)[0], w);
    SelectionOpening(names, v, ['='] + y, w);
    assert (['='] + y)[1..] == y;
    MentionInQuotes(names, v, 0, w);
  }

  lemma FitsSelection(names: seq<string>, v: string, w: string)
    requires PrefixFree(names) && v in names
    ensures Scan(Match(Fits, v, 0, w), GenericRules(names)) == Lead(Fits, Quoted(ANY, Scan(w, GenericRules(names))))
  {
    var y := Quoted(Mentions(v)[0], w);
    SelectionOpening(names, v, ['='] + (['~'] + y), w);
    assert (['='] + (['~'] + y))[1..] == ['~'] + y;
    CharCopied(names, '~', y);
    MentionInQuotes(names, v, 0, w);
  }

  lemma QuotedText(q: string, t: string, w: string)
    ensures (q + (t + "\"")) + w == q + (t + (['"'] + w))
  {
  }

  /** A match against `$v` or `${v}` is replaced as a whole. */
  lemma WholeMatchReplaced(names: seq<string>, operator: Operator, v: string, m: nat, w: string)
    requires PrefixFree(names) && v in names && 1 <= m < 3 && (operator.Equals? || operator.Fits?)
    ensures Scan(Match(operator, v, m, w), GenericRules(names)) == Lead(Fits, Quoted(ANY, Scan(w, GenericRules(names))))
  {
    var i := (if m == 1 then 0 else 2) + if operator.Equals? then 1 else 0;
    var t, out := QuotedToken(v, i < 2), Scan(w, GenericRules(names));
    assert Mentions(v)[m] == t;
    QuotedPattern(v, i);
    QuotedText(Quote(i), t, w);
    Leads(t + (['"'] + w));
    OwnRuleApplied(names, v, i, w);
    QuotedText("=~\"", ANY, out);
    Leads(ANY + (['"'] + out));
    assert Value(i) == "=~\"" + (ANY + "\"");
  }

  lemma MatchScanned(names: seq<string>, operator: Operator, v: string, m: nat, w: string)
    requires PrefixFree(names) && v in names && m < 3
    ensures Scan(Match(operator, v, m, w), GenericRules(names)) == Rendered(operator, m, Scan(w, GenericRules(names)))
    decreases if operator.Differs? then 1 else 0
  {
    var y := Quoted(Mentions(v)[m], w);
    match operator
    case Equals =>
      if m == 0 {
        EqualsSelection(names, v, w);
      } else {
        WholeMatchReplaced(names, Equals, v, m, w);
      }
    case Fits =>
      if m == 0 {
        FitsSelection(names, v, w);
      } else {
        WholeMatchReplaced(names, Fits, v, m, w);
      }
    case Differs =>
      MatchScanned(names, Equals, v, m, w);
      CharCopied(names, '!', ['='] + y);
    case Misses =>
      MentionInQuotes(names, v, m, w);
      CharCopied(names, '~', y);
      CharCopied(names, '!', ['~'] + y);
  }

  /**
    In any text, a match against a mention becomes one against `.*`, apart from the text around it; the
    mentions `$v` and `${v}` after `=` and `!=` get a `~` as well.
   */
  lemma MatchRendered(names: seq<string>, u: string, operator: Operator, v: string, m: nat, w: string)
    requires PrefixFree(names) && v in names && m < 3
    ensures Chain(u + Match(operator, v, m, w), GenericRules(names))
            == Chain(u, GenericRules(names)) + Rendered(operator, m, Chain(w, GenericRules(names)))
  {
    var x := Match(operator, v, m, w);
    PrefixFreeIsOrdered(names);
    GenericIsOnePass(names, u + x);
    GenericIsOnePass(names, u);
    GenericIsOnePass(names, w);
    SplitsBefore(names, u, x);
    MatchScanned(names, operator, v, m, w);
  }

  /** A well-formed match is read as its operator and its text. */
  lemma LeadParsed(operator: Operator, t: string)
    requires Literal(t)
    ensures Parsed(Lead(operator, Quoted(t, ""))) == Some(Matcher(operator, t))
  {
    var y, text := Quoted(t, ""), Lead(operator, Quoted(t, ""));
    assert y == ['"'] + t + ['"'];
    assert y[0] == '"' && y[1..|y| - 1] == t;
    match operator
    case Equals => assert text[1..] == y;
    case _ => assert text[2..] == y;
  }

  /** What the replacements make of a match: its operator, or that it is malformed. */
  function RenderedOperator(operator: Operator, m: nat): Option<Operator>
  {
    match operator
    case Equals => Some(if m == 0 then Equals else Fits)
    case Differs => if m == 0 then Some(Differs) else None
    case _ => Some(operator)
  }

  lemma RenderedParsed(operator: Operator, m: nat)
    requires m < 3
    ensures Parsed(Rendered(operator, m, "")) ==
            if RenderedOperator(operator, m).Some? then Some(Matcher(RenderedOperator(operator, m).value, ANY))
            else None
  {
    assert Literal(ANY);
    if operator.Differs? {
      var y := Quoted(ANY, "");
      var text := Rendered(operator, m, "");
      if m == 0 {
        LeadParsed(Differs, ANY);
        assert text == Lead(Differs, y);
      } else {
        assert text[2..] == ['~'] + y;
      }
    } else {
      LeadParsed(RenderedOperator(operator, m).value, ANY);
    }
  }

  /**
    Every value of the label meets a rendered match, as it is meant to, exactly if the match was one with `=~`,
    or one with `=` and not against `${v:regex}`.
   */
  lemma SelectsEverythingIff(operator: Operator, m: nat)
    requires m < 3
    ensures (forall x :: Selects(Rendered(operator, m, ""), x))
            <==> operator.Fits? || (operator.Equals? && m != 0)
  {
    if operator.Fits? || (operator.Equals? && m != 0) {
      forall x ensures Selects(Rendered(operator, m, ""), x) {
        RenderedParsed(operator, m);
        AnyMatches(x);
      }
    } else {
      var x := if operator.Equals? then "" else ANY;
      SelectedOtherwise(operator, m, x);
      assert !Selects(Rendered(operator, m, ""), x);
    }
  }

  /**
    What the others select: no value at all with `!~`, only the value `.*` with `=` and all but that with `!=`
    if they are against `${v:regex}`; and `!=` against the other mentions becomes `!=~`, which is no operator.
   */
  lemma SelectedOtherwise(operator: Operator, m: nat, x: string)
    requires m < 3
    ensures operator.Misses? ==> !Selects(Rendered(operator, m, ""), x)
    ensures operator.Equals? && m == 0 ==> (Selects(Rendered(operator, m, ""), x) <==> x == ANY)
    ensures operator.Differs? && m == 0 ==> (Selects(Rendered(operator, m, ""), x) <==> x != ANY)
    ensures operator.Differs? && m != 0 ==> Parsed(Rendered(operator, m, "")).None?
  {
    RenderedParsed(operator, m);
    AnyMatches(x);
  }

  /** The texts of those cases. */
  lemma RenderedTexts(m: nat)
    requires m < 3
    ensures Rendered(Misses, m, "") == "!~\".*\""
    ensures Rendered(Equals, 0, "") == "=\".*\"" && Rendered(Differs, 0, "") == "!=\".*\""
    ensures m != 0 ==> Rendered(Differs, m, "") == "!=~\".*\""
  {
  }

  /** The matches and what they are rendered as, as they are written. */
  lemma WrittenMatches(v: string, w: string)
    ensures Match(Equals, v, 0, w) == "=\"${" + v + ":regex}\"" + w && Rendered(Equals, 0, w) == "=\".*\"" + w
    ensures Match(Equals, v, 1, w) == "=\"${" + v + "}\"" + w && Rendered(Equals, 1, w) == "=~\".*\"" + w
    ensures Match(Equals, v, 2, w) == "=\"$" + v + "\"" + w && Rendered(Equals, 2, w) == "=~\".*\"" + w
    ensures Match(Fits, v, 0, w) == "=~\"${" + v + ":regex}\"" + w && Rendered(Fits, 0, w) == "=~\".*\"" + w
    ensures Match(Fits, v, 1, w) == "=~\"${" + v + "}\"" + w && Rendered(Fits, 1, w) == "=~\".*\"" + w
    ensures Match(Fits, v, 2, w) == "=~\"$" + v + "\"" + w && Rendered(Fits, 2, w) == "=~\".*\"" + w
    ensures Match(Differs, v, 2, w) == "!=\"$" + v + "\"" + w && Rendered(Differs, 2, w) == "!=~\".*\"" + w
    ensures Match(Misses, v, 2, w) == "!~\"$" + v + "\"" + w && Rendered(Misses, 2, w) == "!~\".*\"" + w
  {
  }
}
