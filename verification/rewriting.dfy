/**
  Left-to-right, non-overlapping string replacement, and when a chain of replacements
  is the same as one pass over the original text.
 */
module Rewriting {

  /** One replacement: every occurrence of `pattern` becomes `value`. */
  datatype RawRule = Rule(pattern: string, value: string)

  type Rule = r: RawRule | r.pattern != [] witness RawRule.Rule("$", "")

  /** Python's `s.replace(pattern, value)`: scan from the left, never rescan inserted text. */
  function Replace(s: string, r: Rule): string
    decreases |s|
  {
    if s == [] then []
    else if r.pattern <= s then r.value + Replace(s[|r.pattern|..], r)
    else [s[0]] + Replace(s[1..], r)
  }

  /** The replacements of `rules`, each over the result of the one before. */
  function Chain(s: string, rules: seq<Rule>): string
  {
    if rules == [] then s
    else Replace(Chain(s, rules[..|rules| - 1]), rules[|rules| - 1])
  }

  /** The index of the first rule whose pattern starts `s`, or `|rules|`. */
  function FirstMatch(s: string, rules: seq<Rule>): (k: nat)
    ensures k <= |rules|
    ensures k < |rules| ==> rules[k].pattern <= s
    ensures forall j :: 0 <= j < k ==> !(rules[j].pattern <= s)
  {
    if rules == [] then 0
    else if rules[0].pattern <= s then 0
    else 1 + FirstMatch(s, rules[1..])
  }

  /** One pass over `s` that tries all the rules, in order, at every position. */
  function Scan(s: string, rules: seq<Rule>): string
    decreases |s|
  {
    if s == [] then []
    else
      var k := FirstMatch(s, rules);
      if k < |rules| then rules[k].value + Scan(s[|rules[k].pattern|..], rules)
      else [s[0]] + Scan(s[1..], rules)
  }

  /** `t` starts `s` or occurs further on. */
  predicate Occurs(t: string, s: string)
  {
    t <= s || (s != [] && Occurs(t, s[1..]))
  }

  lemma {:induction false} OccursMeans(t: string, s: string)
    ensures Occurs(t, s) <==> exists i :: 0 <= i <= |s| && t <= s[i..]
  {
    assert s[0..] == s;
    if s != [] {
      OccursMeans(t, s[1..]);
      if i :| 0 <= i <= |s[1..]| && t <= s[1..][i..] {
        assert s[1..][i..] == s[i + 1..];
      }
      if i :| 0 <= i <= |s| && t <= s[i..] && !(t <= s) {
        assert s[1..][i - 1..] == s[i..];
      }
    }
  }

  /** Neither string can start a text that the other starts. */
  predicate Clash(x: string, y: string)
  {
    !(x <= y) && !(y <= x)
  }

  /** No occurrence of `y` can begin inside an `x`, whatever follows the `x`. */
  predicate Inert(x: string, y: string)
  {
    x == [] || (Clash(x, y) && Inert(x[1..], y))
  }

  /** A text `t` can neither begin inside inserted values nor run into one. */
  ghost predicate Untouched(t: string, rules: seq<Rule>)
    requires t != []
  {
    forall k :: 0 <= k < |rules| ==> Inert(rules[k].value, t) && Inert(t[1..], rules[k].value)
  }

  /** `q` may follow `r` in a chain without seeing anything that `r` made or split. */
  ghost predicate MayFollow(r: Rule, q: string)
    requires q != []
  {
    && Inert(r.value, q)
    && Inert(q[1..], r.pattern)
    && Inert(q[1..], r.value)
  }

  ghost predicate MayFollowAll(rules: seq<Rule>, q: string)
    requires q != []
  {
    forall k :: 0 <= k < |rules| ==> MayFollow(rules[k], q)
  }

  /** Every rule of the list may follow every earlier one. */
  ghost predicate Layered(rules: seq<Rule>)
  {
    forall h, k :: 0 <= h < k < |rules| ==> MayFollow(rules[h], rules[k].pattern)
  }

  lemma ClashAt(x: string, y: string, j: nat)
    requires j < |x| && j < |y| && x[j] != y[j]
    ensures Clash(x, y)
  {
  }

  /** Two strings that start the same text are comparable. */
  lemma CommonTextNoClash(x: string, y: string, s: string)
    requires x <= s && y <= s
    ensures !Clash(x, y)
  {
    if |x| <= |y| {
      assert x == y[..|x|];
    } else {
      assert y == x[..|y|];
    }
  }

  /** Peeling one character off a text. */
  lemma Peel(c: char, w: string, t: string)
    requires t != []
    ensures ([c] + w)[1..] == w
    ensures t <= [c] + w <==> t[0] == c && t[1..] <= w
  {
    var s := [c] + w;
    assert s[1..] == w && t == [t[0]] + t[1..];
    if t <= s {
      assert t[1..] == s[1..|t|] == w[..|t| - 1];
    }
  }

  lemma {:induction false} ReplaceSkips(x: string, w: string, q: Rule)
    requires Inert(x, q.pattern)
    ensures Replace(x + w, q) == x + Replace(w, q)
    decreases |x|
  {
    if x == [] {
      assert x + w == w;
    } else {
      if q.pattern <= x + w {
        CommonTextNoClash(x, q.pattern, x + w);
      }
      ReplaceSkips(x[1..], w, q);
      assert (x + w)[1..] == x[1..] + w;
      assert x == [x[0]] + x[1..];
    }
  }

  /** Text at whose first `n` positions no rule matches is copied. */
  ghost predicate Silent(n: nat, s: string, rules: seq<Rule>)
    requires n <= |s|
  {
    n == 0 || (FirstMatch(s, rules) == |rules| && Silent(n - 1, s[1..], rules))
  }

  ghost predicate NothingAt(s: string, rules: seq<Rule>, j: nat)
    requires j <= |s|
  {
    FirstMatch(s[j..], rules) == |rules|
  }

  ghost predicate NothingBefore(s: string, rules: seq<Rule>, n: nat)
    requires n <= |s|
  {
    forall j :: 0 <= j < n ==> NothingAt(s, rules, j)
  }

  lemma {:induction false} SilentIfNone(n: nat, s: string, rules: seq<Rule>)
    requires n <= |s| && NothingBefore(s, rules, n)
    ensures Silent(n, s, rules)
    decreases n
  {
    if n > 0 {
      assert NothingAt(s, rules, 0) && s[0..] == s;
      forall j | 0 <= j < n - 1 ensures NothingAt(s[1..], rules, j) {
        assert NothingAt(s, rules, j + 1) && s[1..][j..] == s[j + 1..];
      }
      SilentIfNone(n - 1, s[1..], rules);
    }
  }

  lemma {:induction false} ScanCopies(x: string, s: string, rules: seq<Rule>)
    requires x <= s && Silent(|x|, s, rules)
    ensures Scan(s, rules) == x + Scan(s[|x|..], rules)
    decreases |x|
  {
    if x == [] {
      assert s[|x|..] == s;
    } else {
      var y, rest := x[1..], Scan(s[|x|..], rules);
      assert y <= s[1..] && x[0] == s[0];
      ScanCopies(y, s[1..], rules);
      assert s[1..][|y|..] == s[|x|..];
      assert [x[0]] + (y + rest) == ([x[0]] + y) + rest;
      assert x == [x[0]] + y;
    }
  }

  lemma ScanCopiesBefore(s: string, rules: seq<Rule>, n: nat)
    requires n <= |s| && NothingBefore(s, rules, n)
    ensures Scan(s, rules) == s[..n] + Scan(s[n..], rules)
  {
    SilentIfNone(n, s, rules);
    ScanCopies(s[..n], s, rules);
  }

  /** Inside an occurrence of `x` no rule matches if `x` is inert for all their patterns. */
  lemma {:induction false} InertIsSilent(x: string, s: string, rules: seq<Rule>)
    requires x <= s
    requires forall k :: 0 <= k < |rules| ==> Inert(x, rules[k].pattern)
    ensures Silent(|x|, s, rules)
    decreases |x|
  {
    if x != [] {
      var k := FirstMatch(s, rules);
      if k < |rules| {
        CommonTextNoClash(x, rules[k].pattern, s);
      }
      InertIsSilent(x[1..], s[1..], rules);
    }
  }

  /** What starts the scanned text and cannot touch inserted text already started the original. */
  lemma {:induction false} ScanReflectsPrefix(x: string, s: string, rules: seq<Rule>)
    requires x <= Scan(s, rules)
    requires forall k :: 0 <= k < |rules| ==> Inert(x, rules[k].value)
    ensures x <= s
    decreases |s|
  {
    if x != [] && s != [] {
      var k := FirstMatch(s, rules);
      if k < |rules| {
        CommonTextNoClash(x, rules[k].value, Scan(s, rules));
      } else {
        Peel(s[0], Scan(s[1..], rules), x);
        ScanReflectsPrefix(x[1..], s[1..], rules);
        Peel(s[0], s[1..], x);
        assert s == [s[0]] + s[1..];
      }
    }
  }

  /** A pattern that no rule matched is not made by scanning. */
  lemma ScanMakesNoPrefix(q: string, s: string, rules: seq<Rule>)
    requires s != [] && q != [] && FirstMatch(s, rules) == |rules|
    requires forall k :: 0 <= k < |rules| ==> Inert(q[1..], rules[k].value)
    requires q <= Scan(s, rules)
    ensures q <= s
  {
    Peel(s[0], Scan(s[1..], rules), q);
    ScanReflectsPrefix(q[1..], s[1..], rules);
    Peel(s[0], s[1..], q);
    assert s == [s[0]] + s[1..];
  }

  lemma FirstMatchExtends(s: string, rules: seq<Rule>, q: Rule)
    ensures var k, l := FirstMatch(s, rules), FirstMatch(s, rules + [q]);
            if k < |rules| then l == k else if q.pattern <= s then l == |rules| else l == |rules| + 1
  {
    var k, l := FirstMatch(s, rules), FirstMatch(s, rules + [q]);
    assert (rules + [q])[|rules|] == q;
    if k < |rules| { assert (rules + [q])[k] == rules[k]; }
    if l < |rules| { assert (rules + [q])[l] == rules[l]; }
  }

  /** Running one more replacement over a scan is scanning with one more rule. */
  lemma {:induction false} ReplaceAfterScan(s: string, rules: seq<Rule>, q: Rule)
    requires MayFollowAll(rules, q.pattern)
    ensures Replace(Scan(s, rules), q) == Scan(s, rules + [q])
    decreases |s|
  {
    if s != [] {
      var k := FirstMatch(s, rules);
      FirstMatchExtends(s, rules, q);
      if k < |rules| {
        var rest := s[|rules[k].pattern|..];
        assert MayFollow(rules[k], q.pattern);
        ReplaceSkips(rules[k].value, Scan(rest, rules), q);
        ReplaceAfterScan(rest, rules, q);
      } else if q.pattern <= s {
        ScanCopiesPattern(s, rules, q.pattern);
        var rest := s[|q.pattern|..];
        assert (q.pattern + Scan(rest, rules))[|q.pattern|..] == Scan(rest, rules);
        ReplaceAfterScan(rest, rules, q);
      } else {
        if q.pattern <= Scan(s, rules) {
          assert forall j :: 0 <= j < |rules| ==> MayFollow(rules[j], q.pattern);
          ScanMakesNoPrefix(q.pattern, s, rules);
        }
        Peel(s[0], Scan(s[1..], rules), q.pattern);
        ReplaceAfterScan(s[1..], rules, q);
      }
    }
  }

  /** An unmatched occurrence of a pattern that may follow the rules is copied whole. */
  lemma ScanCopiesPattern(s: string, rules: seq<Rule>, q: string)
    requires q != [] && q <= s && FirstMatch(s, rules) == |rules|
    requires MayFollowAll(rules, q)
    ensures Scan(s, rules) == q + Scan(s[|q|..], rules)
  {
    assert forall j :: 0 <= j < |rules| ==> MayFollow(rules[j], q);
    assert q[1..] <= s[1..];
    InertIsSilent(q[1..], s[1..], rules);
    ScanCopies(q, s, rules);
  }

  lemma {:induction false} ScanWithoutRules(s: string)
    ensures Scan(s, []) == s
    decreases |s|
  {
    if s != [] {
      ScanWithoutRules(s[1..]);
      assert s == [s[0]] + s[1..];
    }
  }

  lemma ReplaceIsScan(s: string, r: Rule)
    ensures Replace(s, r) == Scan(s, [r])
  {
    ScanWithoutRules(s);
    ReplaceAfterScan(s, [], r);
    assert [] + [r] == [r];
  }

  /** A layered chain of replacements is one pass over the original text. */
  lemma {:induction false} ChainIsScan(s: string, rules: seq<Rule>)
    requires Layered(rules)
    ensures Chain(s, rules) == Scan(s, rules)
    decreases |rules|
  {
    if rules == [] {
      ScanWithoutRules(s);
    } else {
      var n := |rules| - 1;
      ChainIsScan(s, rules[..n]);
      ReplaceAfterScan(s, rules[..n], rules[n]);
      assert rules == rules[..n] + [rules[n]];
    }
  }

  lemma {:induction false} ChainAppend(s: string, rules: seq<Rule>, more: seq<Rule>)
    ensures Chain(s, rules + more) == Chain(Chain(s, rules), more)
    decreases |more|
  {
    if more == [] {
      assert rules + more == rules;
    } else {
      var n := |more| - 1;
      ChainAppend(s, rules, more[..n]);
      assert (rules + more)[..|rules + more| - 1] == rules + more[..n];
    }
  }

  lemma ChainStep(s: string, rules: seq<Rule>, k: nat)
    requires k < |rules|
    ensures Chain(s, rules[..k + 1]) == Replace(Chain(s, rules[..k]), rules[k])
  {
    assert rules[..k + 1][..k] == rules[..k];
  }

  // ---- What a scan leaves out ----

  lemma {:induction false} NoOccurrenceAcross(t: string, x: string, w: string)
    requires t != [] && Inert(x, t) && !Occurs(t, w)
    ensures !Occurs(t, x + w)
    decreases |x|
  {
    if x == [] {
      assert x + w == w;
    } else {
      if t <= x + w {
        CommonTextNoClash(x, t, x + w);
      }
      assert (x + w)[1..] == x[1..] + w;
      NoOccurrenceAcross(t, x[1..], w);
    }
  }

  lemma {:induction false} OccursInRest(t: string, s: string, n: nat)
    requires n <= |s| && Occurs(t, s[n..])
    ensures Occurs(t, s)
    decreases n
  {
    if n == 0 {
      assert s[0..] == s;
    } else {
      assert s[1..][n - 1..] == s[n..];
      OccursInRest(t, s[1..], n - 1);
    }
  }

  /** Scanning removes every pattern that can touch no inserted value. */
  lemma {:induction false} ScanRemoves(s: string, rules: seq<Rule>, h: nat)
    requires h < |rules| && Untouched(rules[h].pattern, rules)
    ensures !Occurs(rules[h].pattern, Scan(s, rules))
    decreases |s|
  {
    var t := rules[h].pattern;
    if s != [] {
      var k := FirstMatch(s, rules);
      if k < |rules| {
        var rest := s[|rules[k].pattern|..];
        ScanRemoves(rest, rules, h);
        NoOccurrenceAcross(t, rules[k].value, Scan(rest, rules));
      } else {
        if t <= Scan(s, rules) {
          ScanMakesNoPrefix(t, s, rules);
        }
        ScanRemoves(s[1..], rules, h);
        Peel(s[0], Scan(s[1..], rules), t);
      }
    }
  }

  /** A text that can touch no inserted value and is absent stays absent. */
  lemma {:induction false} ScanKeepsAbsent(t: string, s: string, rules: seq<Rule>)
    requires t != [] && Untouched(t, rules) && !Occurs(t, s)
    ensures !Occurs(t, Scan(s, rules))
    decreases |s|
  {
    if s != [] {
      var k := FirstMatch(s, rules);
      if k < |rules| {
        var n := |rules[k].pattern|;
        if Occurs(t, s[n..]) { OccursInRest(t, s, n); }
        ScanKeepsAbsent(t, s[n..], rules);
        NoOccurrenceAcross(t, rules[k].value, Scan(s[n..], rules));
      } else {
        if t <= Scan(s, rules) {
          ScanMakesNoPrefix(t, s, rules);
        }
        ScanKeepsAbsent(t, s[1..], rules);
        Peel(s[0], Scan(s[1..], rules), t);
      }
    }
  }

  lemma {:induction false} ChainKeepsAbsent(t: string, s: string, rules: seq<Rule>)
    requires t != [] && Untouched(t, rules) && !Occurs(t, s)
    ensures !Occurs(t, Chain(s, rules))
    decreases |rules|
  {
    if rules != [] {
      var n := |rules| - 1;
      ChainKeepsAbsent(t, s, rules[..n]);
      ReplaceIsScan(Chain(s, rules[..n]), rules[n]);
      ScanKeepsAbsent(t, Chain(s, rules[..n]), [rules[n]]);
    }
  }

  lemma ReplaceRemoves(s: string, r: Rule)
    requires Untouched(r.pattern, [r])
    ensures !Occurs(r.pattern, Replace(s, r))
  {
    ReplaceIsScan(s, r);
    ScanRemoves(s, [r], 0);
  }

  lemma LastRemoved(s: string, rules: seq<Rule>)
    requires rules != [] && Untouched(rules[|rules| - 1].pattern, [rules[|rules| - 1]])
    ensures !Occurs(rules[|rules| - 1].pattern, Chain(s, rules))
  {
    ReplaceRemoves(Chain(s, rules[..|rules| - 1]), rules[|rules| - 1]);
  }

  /** Scanning is the identity on a text in which no pattern occurs. */
  lemma {:induction false} ScanIdentity(s: string, rules: seq<Rule>)
    requires forall k :: 0 <= k < |rules| ==> !Occurs(rules[k].pattern, s)
    ensures Scan(s, rules) == s
    decreases |s|
  {
    if s != [] {
      ScanIdentity(s[1..], rules);
      assert FirstMatch(s, rules) == |rules|;
      assert s == [s[0]] + s[1..];
    }
  }

  lemma ReplaceIdentity(s: string, r: Rule)
    requires !Occurs(r.pattern, s)
    ensures Replace(s, r) == s
  {
    ReplaceIsScan(s, r);
    ScanIdentity(s, [r]);
  }

  /** The rule that applies at the start of `s`, if any. */
  function Pick(s: string, rules: seq<Rule>): seq<Rule>
  {
    var k := FirstMatch(s, rules);
    if k < |rules| then [rules[k]] else []
  }

  /** Two rule lists that pick the same rule everywhere scan alike. */
  lemma {:induction false} ScanDependsOnPick(s: string, rules: seq<Rule>, rules': seq<Rule>)
    requires forall t :: Pick(t, rules) == Pick(t, rules')
    ensures Scan(s, rules) == Scan(s, rules')
    decreases |s|
  {
    if s != [] {
      assert Pick(s, rules) == Pick(s, rules');
      var k, k' := FirstMatch(s, rules), FirstMatch(s, rules');
      if k < |rules| {
        assert rules[k] == [rules[k]][0] == [rules'[k']][0];
        ScanDependsOnPick(s[|rules[k].pattern|..], rules, rules');
      } else {
        ScanDependsOnPick(s[1..], rules, rules');
      }
    }
  }

  lemma {:induction false} PickAppend(s: string, first: seq<Rule>, second: seq<Rule>)
    ensures Pick(s, first + second) == if Pick(s, first) != [] then Pick(s, first) else Pick(s, second)
  {
    if first == [] {
      assert first + second == second;
    } else {
      assert (first + second)[1..] == first[1..] + second && (first + second)[0] == first[0];
      PickAppend(s, first[1..], second);
    }
  }

  /** A scan continues after the rule that is picked, or after one character. */
  lemma ScanByPick(s: string, rules: seq<Rule>)
    requires s != []
    ensures var p := Pick(s, rules);
            && (p != [] ==> p[0].pattern <= s && Scan(s, rules) == p[0].value + Scan(s[|p[0].pattern|..], rules))
            && (p == [] ==> Scan(s, rules) == [s[0]] + Scan(s[1..], rules))
  {
  }

  lemma PickNothing(s: string, rules: seq<Rule>)
    requires forall k :: 0 <= k < |rules| ==> !(rules[k].pattern <= s)
    ensures Pick(s, rules) == [] && FirstMatch(s, rules) == |rules|
  {
  }

  // ---- Inertness, position by position ----

  lemma {:induction false} InertAt(x: string, y: string, i: nat)
    requires Inert(x, y) && i < |x|
    ensures Clash(x[i..], y)
    decreases i
  {
    if i == 0 {
      assert x[0..] == x;
    } else {
      InertAt(x[1..], y, i - 1);
      assert x[1..][i - 1..] == x[i..];
    }
  }

  lemma {:induction false} InertTail(x: string, y: string, i: nat)
    requires Inert(x, y) && i <= |x|
    ensures Inert(x[i..], y)
    decreases i
  {
    if i == 0 {
      assert x[0..] == x;
    } else {
      InertTail(x[1..], y, i - 1);
      assert x[1..][i - 1..] == x[i..];
    }
  }

  lemma {:induction false} NotInertAt(x: string, y: string) returns (i: nat)
    requires !Inert(x, y)
    ensures i < |x| && !Clash(x[i..], y)
    decreases |x|
  {
    if !Clash(x, y) {
      i := 0;
      assert x[0..] == x;
    } else {
      var j := NotInertAt(x[1..], y);
      i := j + 1;
      assert x[1..][j..] == x[i..];
    }
  }

  lemma {:induction false} InertIfClashes(x: string, y: string)
    requires forall i :: 0 <= i < |x| ==> Clash(x[i..], y)
    ensures Inert(x, y)
    decreases |x|
  {
    if x != [] {
      assert x[0..] == x;
      forall i | 0 <= i < |x[1..]| ensures Clash(x[1..][i..], y) {
        assert x[1..][i..] == x[i + 1..];
      }
      InertIfClashes(x[1..], y);
    }
  }

  /** Strings that do not clash with a text do not clash with what starts it either. */
  lemma ComparableWithStart(x: string, y: string, z: string)
    requires !Clash(x, y + z)
    ensures !Clash(x, y)
  {
    var t := if |x| <= |y + z| then y + z else x;
    if x <= y + z {
      CommonTextNoClash(x, y, y + z);
    } else {
      assert y <= y + z <= x;
    }
  }

  // ---- Replacing first and scanning then ----

  ghost predicate NoNewMatch(s: string, t: string, rules: seq<Rule>)
  {
    forall k :: 0 <= k < |rules| && rules[k].pattern <= t ==> rules[k].pattern <= s
  }

  /** Replacing `r` makes no occurrence of a pattern of `rules` anywhere in the text. */
  ghost predicate Quiet(s: string, r: Rule, rules: seq<Rule>)
  {
    && (r.pattern <= s || NoNewMatch(s, Replace(s, r), rules))
    && (s == [] || Quiet(s[1..], r, rules))
  }

  lemma {:induction false} QuietRest(s: string, r: Rule, rules: seq<Rule>, n: nat)
    requires Quiet(s, r, rules) && n <= |s|
    ensures Quiet(s[n..], r, rules)
    decreases n
  {
    if n == 0 {
      assert s[0..] == s;
    } else {
      QuietRest(s[1..], r, rules, n - 1);
      assert s[1..][n - 1..] == s[n..];
    }
  }

  lemma SamePick(s: string, t: string, rules: seq<Rule>)
    requires NoNewMatch(s, t, rules) && (Pick(s, rules) != [] ==> Pick(s, rules)[0].pattern <= t)
    ensures Pick(t, rules) == Pick(s, rules)
  {
    assert FirstMatch(t, rules) == FirstMatch(s, rules);
  }

  /** A match is kept whole by a replacement that cannot begin inside it. */
  lemma ReplaceKeepsMatch(p: string, w: string, r: Rule)
    requires p != [] && !(r.pattern <= p + w) && Inert(p[1..], r.pattern)
    ensures Replace(p + w, r) == p + Replace(w, r)
  {
    var c, y := [p[0]], p[1..];
    assert p == c + y;
    Regroup(c, y, w);
    ReplaceStep(p[0], y + w, r);
    ReplaceSkips(y, w, r);
    Regroup(c, y, Replace(w, r));
  }

  lemma ReplaceStep(c: char, y: string, r: Rule)
    requires !(r.pattern <= [c] + y)
    ensures Replace([c] + y, r) == [c] + Replace(y, r)
  {
    assert ([c] + y)[1..] == y;
  }

  lemma Regroup(a: string, b: string, c: string)
    ensures a + (b + c) == (a + b) + c
  {
  }

  lemma MatchThenScan(q: Rule, w: string, r: Rule, rules: seq<Rule>)
    requires Pick(q.pattern + w, rules) == [q]
    requires !(r.pattern <= q.pattern + w) && NoNewMatch(q.pattern + w, Replace(q.pattern + w, r), rules)
    requires Inert(q.pattern[1..], r.pattern)
    ensures Scan(Replace(q.pattern + w, r), rules) == q.value + Scan(Replace(w, r), rules)
  {
    var t := q.pattern + Replace(w, r);
    ReplaceKeepsMatch(q.pattern, w, r);
    SamePick(q.pattern + w, t, rules);
    ScanByPick(t, rules);
    assert t[|q.pattern|..] == Replace(w, r);
  }

  /** No pattern of the rules begins in what `r` inserts, nor runs into what it replaces. */
  ghost predicate Passive(r: Rule, rules: seq<Rule>)
  {
    forall k :: 0 <= k < |rules| ==> Inert(r.value, rules[k].pattern) && Inert(rules[k].pattern[1..], r.pattern)
  }

  lemma InsertThenScan(s: string, r: Rule, rules: seq<Rule>)
    requires Passive(r, rules) && r.pattern <= s
    ensures Scan(Replace(s, r), rules) == r.value + Scan(Replace(s[|r.pattern|..], r), rules)
  {
    ScanAfterInert(r.value, Replace(s[|r.pattern|..], r), rules);
  }

  lemma CopyThenScan(s: string, r: Rule, rules: seq<Rule>)
    requires s != [] && !(r.pattern <= s) && Pick(s, rules) == [] && NoNewMatch(s, Replace(s, r), rules)
    ensures Scan(Replace(s, r), rules) == [s[0]] + Scan(Replace(s[1..], r), rules)
  {
    SamePick(s, Replace(s, r), rules);
    ScanByPick(Replace(s, r), rules);
    assert Replace(s, r)[1..] == Replace(s[1..], r);
  }

  lemma PrependedPick(s: string, r: Rule, rules: seq<Rule>)
    ensures Pick(s, [r] + rules) == if r.pattern <= s then [r] else Pick(s, rules)
  {
    PickAppend(s, [r], rules);
    assert Pick(s, [r]) == if r.pattern <= s then [r] else [];
  }

  lemma PickedPassive(s: string, r: Rule, rules: seq<Rule>)
    requires Passive(r, rules) && Pick(s, rules) != []
    ensures var q := Pick(s, rules)[0]; q.pattern <= s && Inert(q.pattern[1..], r.pattern)
  {
  }

  /** Replacing one rule and scanning for the others is one scan, if the replacement makes no new match. */
  lemma {:induction false} ReplaceThenScan(s: string, r: Rule, rules: seq<Rule>)
    requires Passive(r, rules) && Quiet(s, r, rules)
    ensures Scan(Replace(s, r), rules) == Scan(s, [r] + rules)
    decreases |s|
  {
    if s != [] {
      PrependedPick(s, r, rules);
      ScanByPick(s, [r] + rules);
      if r.pattern <= s {
        QuietRest(s, r, rules, |r.pattern|);
        ReplaceThenScan(s[|r.pattern|..], r, rules);
        InsertThenScan(s, r, rules);
      } else if Pick(s, rules) != [] {
        var q := Pick(s, rules)[0];
        var rest := s[|q.pattern|..];
        QuietRest(s, r, rules, |q.pattern|);
        ReplaceThenScan(rest, r, rules);
        PickedPassive(s, r, rules);
        assert s == q.pattern + rest;
        MatchThenScan(q, rest, r, rules);
      } else {
        QuietRest(s, r, rules, 1);
        ReplaceThenScan(s[1..], r, rules);
        CopyThenScan(s, r, rules);
      }
    }
  }

  lemma ScanAfterInert(x: string, w: string, rules: seq<Rule>)
    requires forall k :: 0 <= k < |rules| ==> Inert(x, rules[k].pattern)
    ensures Scan(x + w, rules) == x + Scan(w, rules)
  {
    InertIsSilent(x, x + w, rules);
    ScanCopies(x, x + w, rules);
    assert (x + w)[|x|..] == w;
  }

  /** A rule that all the others may follow makes no new match. */
  lemma {:induction false} QuietIfFollows(s: string, r: Rule, rules: seq<Rule>)
    requires forall k :: 0 <= k < |rules| ==> MayFollow(r, rules[k].pattern)
    ensures Quiet(s, r, rules)
    decreases |s|
  {
    if s != [] {
      QuietIfFollows(s[1..], r, rules);
      if !(r.pattern <= s) {
        forall k | 0 <= k < |rules| && rules[k].pattern <= Replace(s, r) ensures rules[k].pattern <= s {
          ReplaceIsScan(s, r);
          ScanMakesNoPrefix(rules[k].pattern, s, [r]);
        }
      }
    }
  }

  lemma StartOneEarlier(s: string, q: string, i: nat)
    requires s != [] && q != [] && s[0] == q[0] && i < |q| - 1 && i <= |s| - 1 && q[1..][..i] <= s[1..]
    ensures q[..i + 1] <= s && s[1..][i..] == s[i + 1..] && q[1..][i..] == q[i + 1..]
  {
    assert q[..i + 1] == [q[0]] + q[1..][..i];
    assert s[..i + 1] == [s[0]] + s[1..][..i];
  }

  /** Where a new match comes from: its beginning was there, followed by an occurrence of the replaced pattern. */
  lemma {:induction false} NewPrefix(s: string, r: Rule, q: string) returns (j: nat)
    requires q <= Replace(s, r) && !(q <= s)
    ensures j < |q| && j <= |s| && q[..j] <= s && r.pattern <= s[j..]
    ensures q[j..] <= r.value + Replace(s[j..][|r.pattern|..], r)
    decreases |s|
  {
    if r.pattern <= s {
      j := 0;
      assert s[0..] == s && q[0..] == q;
    } else {
      Peel(s[0], Replace(s[1..], r), q);
      assert s == [s[0]] + s[1..];
      Peel(s[0], s[1..], q);
      var i := NewPrefix(s[1..], r, q[1..]);
      j := i + 1;
      StartOneEarlier(s, q, i);
    }
  }

  /** What starts before an occurrence of `x` that it cannot run into ends before it. */
  lemma NoStraddle(p: string, u: string, w: string, x: string)
    requires p != [] && u != [] && p <= u + w && x <= w && Inert(p[1..], x)
    ensures |p| <= |u|
  {
    if |p| > |u| {
      TailInto(p, u, w);
      CommonTextNoClash(p[|u|..], x, w);
      assert p[1..][|u| - 1..] == p[|u|..];
      InertAt(p[1..], x, |u| - 1);
    }
  }

  lemma TailInto(p: string, u: string, w: string)
    requires p <= u + w && |p| >= |u|
    ensures p[|u|..] <= w
  {
    assert p[|u|..] == (u + w)[|u|..|p|] == w[..|p| - |u|];
  }

  lemma DropFront(u: string, w: string, n: nat)
    requires n <= |u|
    ensures (u + w)[n..] == u[n..] + w
  {
  }

  /** A pass over a text splits before an occurrence that no match can run into. */
  lemma {:induction false} ScanSplits(u: string, w: string, x: string, rules: seq<Rule>)
    requires x <= w && forall k :: 0 <= k < |rules| ==> Inert(rules[k].pattern[1..], x)
    ensures Scan(u + w, rules) == Scan(u, rules) + Scan(w, rules)
    decreases |u|
  {
    if u == [] {
      assert u + w == w;
    } else {
      PickBeforeSplit(u, w, x, rules);
      ScanByPick(u, rules);
      ScanByPick(u + w, rules);
      var p := Pick(u, rules);
      var n := if p == [] then 1 else |p[0].pattern|;
      DropFront(u, w, n);
      ScanSplits(u[n..], w, x, rules);
      Regroup(if p == [] then [u[0]] else p[0].value, Scan(u[n..], rules), Scan(w, rules));
    }
  }

  lemma PickBeforeSplit(u: string, w: string, x: string, rules: seq<Rule>)
    requires u != [] && x <= w && forall k :: 0 <= k < |rules| ==> Inert(rules[k].pattern[1..], x)
    ensures Pick(u + w, rules) == Pick(u, rules)
  {
    forall k | 0 <= k < |rules| && rules[k].pattern <= u + w ensures rules[k].pattern <= u {
      NoStraddle(rules[k].pattern, u, w, x);
    }
    assert forall k :: 0 <= k < |rules| && rules[k].pattern <= u ==> rules[k].pattern <= u + w;
    assert FirstMatch(u + w, rules) == FirstMatch(u, rules);
  }

  lemma OccursAfter(t: string, y: string, w: string)
    requires Occurs(t, w)
    ensures Occurs(t, y + w)
  {
    assert (y + w)[|y|..] == w;
    OccursInRest(t, y + w, |y|);
  }

  lemma OccursSplit(t: string, s: string) returns (u: string, w: string)
    requires Occurs(t, s)
    ensures s == u + w && t <= w
  {
    OccursMeans(t, s);
    var i :| 0 <= i <= |s| && t <= s[i..];
    u, w := s[..i], s[i..];
  }

  /** A text that no occurrence of the pattern can overlap survives the replacement. */
  lemma {:induction false} OccursThroughReplace(t: string, s: string, r: Rule)
    requires t != [] && Occurs(t, s) && Inert(t, r.pattern) && Inert(r.pattern[1..], t)
    ensures Occurs(t, Replace(s, r))
    decreases |s|
  {
    if t <= s {
      assert s == t + s[|t|..];
      ReplaceSkips(t, s[|t|..], r);
    } else if r.pattern <= s {
      var n := |r.pattern|;
      var u, w := OccursSplit(t, s);
      NoStraddle(r.pattern, u, w, t);
      assert s[n..] == u[n..] + w;
      OccursAfter(t, u[n..], w);
      OccursThroughReplace(t, s[n..], r);
      OccursAfter(t, r.value, Replace(s[n..], r));
    } else {
      OccursThroughReplace(t, s[1..], r);
      OccursAfter(t, [s[0]], Replace(s[1..], r));
    }
  }
}
