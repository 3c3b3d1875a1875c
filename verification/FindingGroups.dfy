/** Grouping a scan's findings by rule, for display. */
module FindingGroups {

  datatype Severity = Critical | High | Medium | Low | Informational

  datatype Finding = Finding(id: string, rule: string, severity: Severity)

  datatype Group = Group(rule: string, severity: Severity, representative: Finding, items: seq<Finding>)

  function Rank(s: Severity): nat {
    match s
    case Critical => 0
    case High => 1
    case Medium => 2
    case Low => 3
    case Informational => 4
  }

  // ------------------------------------------------------------ what the groups should be

  // A rule's findings, in the order of the input.
  function OfRule(fs: seq<Finding>, rule: string): (r: seq<Finding>)
    ensures forall f :: f in r <==> f in fs && f.rule == rule
  {
    if fs == [] then []
    else
      var front, f := fs[..|fs| - 1], fs[|fs| - 1];
      assert fs == front + [f];
      if f.rule == rule then OfRule(front, rule) + [f] else OfRule(front, rule)
  }

  predicate Seen(fs: seq<Finding>, rule: string) {
    exists i | 0 <= i < |fs| :: fs[i].rule == rule
  }

  lemma SeenLast(fs: seq<Finding>, f: Finding, rule: string)
    ensures Seen(fs + [f], rule) <==> Seen(fs, rule) || f.rule == rule
  {
    if Seen(fs, rule) {
      var i :| 0 <= i < |fs| && fs[i].rule == rule;
      assert (fs + [f])[i] == fs[i];
    }
    assert (fs + [f])[|fs|] == f;
  }

  // The rules, in the order in which they are first seen.
  function Rules(fs: seq<Finding>): seq<string> {
    if fs == [] then []
    else
      var front, f := fs[..|fs| - 1], fs[|fs| - 1];
      if f.rule in Rules(front) then Rules(front) else Rules(front) + [f.rule]
  }

  lemma {:induction false} RulesAreSeen(fs: seq<Finding>, rule: string)
    ensures rule in Rules(fs) <==> Seen(fs, rule)
  {
    if fs != [] {
      var front, f := fs[..|fs| - 1], fs[|fs| - 1];
      assert fs == front + [f];
      RulesAreSeen(front, rule);
      SeenLast(front, f, rule);
    }
  }

  predicate IsWorst(s: Severity, fs: seq<Finding>) {
    && (exists f | f in fs :: f.severity == s)
    && forall f | f in fs :: Rank(s) <= Rank(f.severity)
  }

  ghost predicate IsGroup(g: Group, fs: seq<Finding>, rule: string) {
    && g.rule == rule
    && g.items == OfRule(fs, rule)
    && g.items != []
    && g.representative == g.items[0]
    && IsWorst(g.severity, g.items)
  }

  // One group for each rule, in first-seen order.
  ghost predicate IsGrouping(groups: seq<Group>, fs: seq<Finding>) {
    && |groups| == |Rules(fs)|
    && forall i | 0 <= i < |groups| :: IsGroup(groups[i], fs, Rules(fs)[i])
  }

  // ------------------------------------------------------------ the two loops

  method WorstSeverity(items: seq<Finding>) returns (worst: Severity)
    requires items != []
    ensures IsWorst(worst, items)
    ensures exists f | f in items :: f.severity == worst
    ensures (exists f | f in items :: f.severity == Critical) ==> worst == Critical
    ensures (exists f | f in items :: f.severity == High) ==> worst in {Critical, High}
    ensures (exists f | f in items :: f.severity == Medium) ==> worst !in {Low, Informational}
    ensures (exists f | f in items :: f.severity == Low) ==> worst != Informational
  {
    worst := items[0].severity;
    for i := 0 to |items|
      invariant exists f | f in items :: f.severity == worst
      invariant forall j | 0 <= j < i :: Rank(worst) <= Rank(items[j].severity)
    {
      if Rank(items[i].severity) < Rank(worst) {
        worst := items[i].severity;
      }
    }
  }

  method GroupFindingsByRule(findings: seq<Finding>) returns (groups: seq<Group>)
    ensures IsGrouping(groups, findings)
  {
    hide Rules, OfRule, IsWorst;
    var order: seq<string> := [];
    var byRule: map<string, seq<Finding>> := map[];
    NoRulesYet();
    for i := 0 to |findings|
      invariant order == Rules(findings[..i])
      invariant forall x :: x in byRule <==> x in order
      invariant forall x | x in byRule :: byRule[x] == OfRule(findings[..i], x) && byRule[x] != []
    {
      var f := findings[i];
      assert findings[..i + 1] == findings[..i] + [f];
      OneMore(findings[..i], f);
      if f.rule in byRule {
        byRule := byRule[f.rule := byRule[f.rule] + [f]];
      } else {
        byRule := byRule[f.rule := [f]];
        order := order + [f.rule];
      }
    }
    assert findings[..|findings|] == findings;
    groups := [];
    for k := 0 to |order|
      invariant |groups| == k
      invariant forall j | 0 <= j < k :: IsGroup(groups[j], findings, order[j])
    {
      var items := byRule[order[k]];
      var severity := WorstSeverity(items);
      groups := groups + [Group(order[k], severity, items[0], items)];
    }
  }

  lemma NoRulesYet()
    ensures Rules([]) == []
  {
  }

  // One finding more goes to the end of its group, and opens it if its rule is new.
  lemma OneMore(fs: seq<Finding>, f: Finding)
    ensures Rules(fs + [f]) == if f.rule in Rules(fs) then Rules(fs) else Rules(fs) + [f.rule]
    ensures forall x :: OfRule(fs + [f], x) == OfRule(fs, x) + if x == f.rule then [f] else []
    ensures f.rule !in Rules(fs) ==> OfRule(fs, f.rule) == []
  {
    assert (fs + [f])[..|fs|] == fs;
    if f.rule !in Rules(fs) {
      UnseenRule(fs, f.rule);
    }
  }

  lemma {:induction false} UnseenRule(fs: seq<Finding>, rule: string)
    requires rule !in Rules(fs)
    ensures OfRule(fs, rule) == []
  {
    if fs != [] {
      UnseenRule(fs[..|fs| - 1], rule);
    }
  }

  // ------------------------------------------------------------ first-seen order, without repeats

  predicate FirstAt(fs: seq<Finding>, rule: string, i: nat) {
    i < |fs| && fs[i].rule == rule && forall j | 0 <= j < i :: fs[j].rule != rule
  }

  /** The groups' rules are distinct, and ordered by where each is first seen. */
  lemma {:induction false} RulesInFirstSeenOrder(fs: seq<Finding>, i: nat, j: nat, p: nat, q: nat)
    requires i < j < |Rules(fs)| && FirstAt(fs, Rules(fs)[i], p) && FirstAt(fs, Rules(fs)[j], q)
    ensures p < q
  {
    var front, a, b := fs[..|fs| - 1], Rules(fs)[i], Rules(fs)[j];
    assert a == Rules(front)[i];
    RulesAreSeen(front, a);
    RulesAreSeen(front, b);
    if q < |front| {
      assert front[q].rule == b;
      RulesInFirstSeenOrder(front, i, j, p, q);
    }
  }

  lemma {:induction false} OfRuleStartsAtFirst(fs: seq<Finding>, rule: string, p: nat)
    requires FirstAt(fs, rule, p)
    ensures OfRule(fs, rule) != [] && OfRule(fs, rule)[0] == fs[p]
  {
    var front := fs[..|fs| - 1];
    if p < |front| {
      OfRuleStartsAtFirst(front, rule, p);
    } else {
      NothingBefore(front, rule);
    }
  }

  lemma {:induction false} NothingBefore(fs: seq<Finding>, rule: string)
    requires forall i | 0 <= i < |fs| :: fs[i].rule != rule
    ensures OfRule(fs, rule) == []
  {
    if fs != [] {
      NothingBefore(fs[..|fs| - 1], rule);
    }
  }

  /** The finding that stands for a group is the first of its rule in the input. */
  lemma RepresentativeIsFirst(fs: seq<Finding>, groups: seq<Group>, i: nat, p: nat)
    requires IsGrouping(groups, fs) && i < |groups| && FirstAt(fs, groups[i].rule, p)
    ensures groups[i].representative == fs[p]
  {
    assert IsGroup(groups[i], fs, Rules(fs)[i]);
    OfRuleStartsAtFirst(fs, groups[i].rule, p);
  }

  lemma {:induction false} RulesAreDistinct(fs: seq<Finding>)
    ensures forall i, j | 0 <= i < j < |Rules(fs)| :: Rules(fs)[i] != Rules(fs)[j]
  {
    if fs != [] {
      RulesAreDistinct(fs[..|fs| - 1]);
    }
  }

  // ------------------------------------------------------------ nothing lost, nothing duplicated

  function Flatten(groups: seq<Group>): seq<Finding> {
    if groups == [] then [] else Flatten(groups[..|groups| - 1]) + groups[|groups| - 1].items
  }

  // The findings of some of the rules, rule by rule.
  function Gather(fs: seq<Finding>, rules: seq<string>): seq<Finding> {
    if rules == [] then [] else Gather(fs, rules[..|rules| - 1]) + OfRule(fs, rules[|rules| - 1])
  }

  lemma {:induction false} FlattenGathers(groups: seq<Group>, fs: seq<Finding>, rules: seq<string>)
    requires |groups| == |rules| && forall i | 0 <= i < |groups| :: groups[i].items == OfRule(fs, rules[i])
    ensures Flatten(groups) == Gather(fs, rules)
  {
    if groups != [] {
      FlattenGathers(groups[..|groups| - 1], fs, rules[..|rules| - 1]);
    }
  }

  // Adding a finding adds it to what is gathered, once, if its rule is among the distinct rules.
  lemma {:induction false} GatherOneMore(fs: seq<Finding>, f: Finding, rules: seq<string>)
    requires forall i, j | 0 <= i < j < |rules| :: rules[i] != rules[j]
    ensures multiset(Gather(fs + [f], rules)) ==
      multiset(Gather(fs, rules)) + if f.rule in rules then multiset{f} else multiset{}
  {
    if rules != [] {
      var front, x := rules[..|rules| - 1], rules[|rules| - 1];
      assert rules == front + [x];
      GatherOneMore(fs, f, front);
      assert (fs + [f])[..|fs|] == fs;
    }
  }

  lemma GatherOneRuleMore(fs: seq<Finding>, rules: seq<string>, x: string)
    ensures Gather(fs, rules + [x]) == Gather(fs, rules) + OfRule(fs, x)
  {
    assert (rules + [x])[..|rules|] == rules;
  }

  lemma FirstOfItsRule(fs: seq<Finding>, f: Finding)
    requires f.rule !in Rules(fs)
    ensures OfRule(fs + [f], f.rule) == [f]
  {
    UnseenRule(fs, f.rule);
    assert (fs + [f])[..|fs|] == fs;
  }

  lemma {:induction false} GatherIsAll(fs: seq<Finding>)
    ensures multiset(Gather(fs, Rules(fs))) == multiset(fs)
  {
    if fs != [] {
      var front, f := fs[..|fs| - 1], fs[|fs| - 1];
      assert fs == front + [f];
      assert Rules(fs) == if f.rule in Rules(front) then Rules(front) else Rules(front) + [f.rule];
      GatherIsAll(front);
      RulesAreDistinct(front);
      GatherOneMore(front, f, Rules(front));
      hide Rules, Gather, OfRule;
      if f.rule !in Rules(front) {
        GatherOneRuleMore(fs, Rules(front), f.rule);
        FirstOfItsRule(front, f);
      }
    }
  }

  /** The groups hold every finding of the input, each exactly as often as the input does. */
  lemma NoFindingIsLost(fs: seq<Finding>, groups: seq<Group>)
    requires IsGrouping(groups, fs)
    ensures multiset(Flatten(groups)) == multiset(fs)
  {
    FlattenGathers(groups, fs, Rules(fs));
    GatherIsAll(fs);
  }

  // ------------------------------------------------------------ grouping the groups again

  lemma {:induction false} OfRuleConcat(a: seq<Finding>, b: seq<Finding>, rule: string)
    ensures OfRule(a + b, rule) == OfRule(a, rule) + OfRule(b, rule)
  {
    if b == [] {
      assert a + b == a;
    } else {
      assert (a + b)[..|a + b| - 1] == a + b[..|b| - 1];
      OfRuleConcat(a, b[..|b| - 1], rule);
    }
  }

  lemma {:induction false} OfRuleOfOne(fs: seq<Finding>, rule: string)
    requires forall f | f in fs :: f.rule == rule
    ensures OfRule(fs, rule) == fs
  {
    if fs != [] {
      var front, f := fs[..|fs| - 1], fs[|fs| - 1];
      assert fs == front + [f] && f in fs;
      forall x | x in front
        ensures x.rule == rule
      {
        assert x in fs;
      }
      OfRuleOfOne(front, rule);
    }
  }

  lemma {:induction false} OfOtherRule(fs: seq<Finding>, rule: string)
    requires forall f | f in fs :: f.rule != rule
    ensures OfRule(fs, rule) == []
  {
    if fs != [] {
      assert fs[|fs| - 1] in fs;
      OfOtherRule(fs[..|fs| - 1], rule);
    }
  }

  lemma {:induction false} OfRuleOfGathered(fs: seq<Finding>, rules: seq<string>, rule: string)
    requires forall i, j | 0 <= i < j < |rules| :: rules[i] != rules[j]
    ensures OfRule(Gather(fs, rules), rule) == if rule in rules then OfRule(fs, rule) else []
  {
    if rules != [] {
      var front, x := rules[..|rules| - 1], rules[|rules| - 1];
      assert rules == front + [x];
      OfRuleOfGathered(fs, front, rule);
      OfRuleConcat(Gather(fs, front), OfRule(fs, x), rule);
      if x == rule {
        OfRuleOfOne(OfRule(fs, x), rule);
      } else {
        OfOtherRule(OfRule(fs, x), rule);
      }
    }
  }

  lemma {:induction false} RulesOfMore(fs: seq<Finding>, more: seq<Finding>, rule: string)
    requires forall f | f in more :: f.rule == rule
    ensures Rules(fs + more) == if more == [] || rule in Rules(fs) then Rules(fs) else Rules(fs) + [rule]
  {
    if more == [] {
      assert fs + more == fs;
    } else {
      assert (fs + more)[..|fs + more| - 1] == fs + more[..|more| - 1];
      assert more[|more| - 1] in more;
      RulesOfMore(fs, more[..|more| - 1], rule);
    }
  }

  lemma {:induction false} RulesOfGathered(fs: seq<Finding>, rules: seq<string>)
    requires forall i, j | 0 <= i < j < |rules| :: rules[i] != rules[j]
    requires forall x | x in rules :: OfRule(fs, x) != []
    ensures Rules(Gather(fs, rules)) == rules
  {
    if rules != [] {
      var front, x := rules[..|rules| - 1], rules[|rules| - 1];
      assert rules == front + [x];
      RulesOfGathered(fs, front);
      RulesOfMore(Gather(fs, front), OfRule(fs, x), x);
    }
  }

  /** Whatever groups the findings also groups the flattened groups: grouping twice changes nothing. */
  lemma RegroupingChangesNothing(fs: seq<Finding>, groups: seq<Group>)
    requires IsGrouping(groups, fs)
    ensures IsGrouping(groups, Flatten(groups))
  {
    var rules, flat := Rules(fs), Flatten(groups);
    FlattenGathers(groups, fs, rules);
    RulesAreDistinct(fs);
    forall x | x in rules
      ensures OfRule(fs, x) != [] && OfRule(flat, x) == OfRule(fs, x)
    {
      var i :| 0 <= i < |rules| && rules[i] == x;
      assert IsGroup(groups[i], fs, rules[i]);
      OfRuleOfGathered(fs, rules, x);
    }
    RulesOfGathered(fs, rules);
    forall i | 0 <= i < |groups|
      ensures IsGroup(groups[i], flat, Rules(flat)[i])
    {
      assert IsGroup(groups[i], fs, rules[i]) && rules[i] in rules;
    }
  }

  /** The groups are determined: two groupings of one list are the same. */
  lemma GroupingIsUnique(fs: seq<Finding>, a: seq<Group>, b: seq<Group>)
    requires IsGrouping(a, fs) && IsGrouping(b, fs)
    ensures a == b
  {
    forall i | 0 <= i < |a|
      ensures a[i] == b[i]
    {
      assert IsGroup(a[i], fs, Rules(fs)[i]) && IsGroup(b[i], fs, Rules(fs)[i]);
      assert a[i].severity == b[i].severity;
    }
  }
}
