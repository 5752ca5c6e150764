/** The value-level meaning of `SymbolicEngine::deduce`: naive fixed-point
    iteration over a fact set and a rule list, with the properties the
    engine promises (growth by rule heads only, saturation, least fixed
    point, order independence, round and growth bounds, the returned count). */
module Inference {
  import opened Rules

  /** The elements of a sequence of facts. */
  function Elems(s: seq<Fact>): set<Fact>
  {
    set x | x in s
  }

  /** The heads of all rules: everything deduction can ever add. */
  function Heads(rules: seq<Rule>): set<Fact>
  {
    set r | r in rules :: r.head
  }

  lemma {:induction false} HeadsSize(rules: seq<Rule>)
    ensures |Heads(rules)| <= |rules|
  {
    if rules != [] {
      var last := rules[|rules| - 1];
      var init := rules[..|rules| - 1];
      assert rules == init + [last];
      assert Heads(rules) == Heads(init) + {last.head};
      HeadsSize(init);
    }
  }

  /** A rule fires on a round that starts from `facts`: its body holds and
      its head is not yet known. */
  predicate Fires(facts: set<Fact>, r: Rule)
  {
    ConditionsHold(facts, r.conditions) && r.head !in facts
  }

  /** The candidate list of one round (`derived_this_round`): the heads of
      the firing rules, in rule order, duplicates kept. Every rule is judged
      against the same start-of-round set `facts`. */
  function Derived(facts: set<Fact>, rules: seq<Rule>): seq<Fact>
  {
    if rules == [] then []
    else
      var last := rules[|rules| - 1];
      Derived(facts, rules[..|rules| - 1]) + (if Fires(facts, last) then [last.head] else [])
  }

  /** A candidate is exactly the head of a rule that fires. */
  lemma {:induction false} DerivedMembers(facts: set<Fact>, rules: seq<Rule>)
    ensures |Derived(facts, rules)| <= |rules|
    ensures forall h :: h in Derived(facts, rules) <==>
      exists r :: r in rules && Fires(facts, r) && r.head == h
  {
    if rules != [] {
      var last := rules[|rules| - 1];
      var init := rules[..|rules| - 1];
      assert rules == init + [last];
      DerivedMembers(facts, init);
      forall h
        ensures h in Derived(facts, rules) <==>
          exists r :: r in rules && Fires(facts, r) && r.head == h
      {
        if h in Derived(facts, rules) && h !in Derived(facts, init) {
          assert Fires(facts, last) && last.head == h;
        }
        if r :| r in rules && Fires(facts, r) && r.head == h {
          if r !in init {
            assert r == last;
          }
        }
      }
    }
  }

  /** No candidate is already known, and every candidate is a rule head. */
  lemma DerivedFresh(facts: set<Fact>, rules: seq<Rule>)
    ensures Elems(Derived(facts, rules)) !! facts
    ensures Elems(Derived(facts, rules)) <= Heads(rules)
  {
    DerivedMembers(facts, rules);
  }

  /** A set is closed under the rules when no rule fires on it. */
  predicate Closed(facts: set<Fact>, rules: seq<Rule>)
  {
    forall r :: r in rules && ConditionsHold(facts, r.conditions) ==> r.head in facts
  }

  /** A round derives nothing exactly when the set is already closed. */
  lemma DerivedEmptyIffClosed(facts: set<Fact>, rules: seq<Rule>)
    ensures Derived(facts, rules) == [] <==> Closed(facts, rules)
  {
    DerivedMembers(facts, rules);
  }

  /** The set after one round: all candidates inserted (duplicates once). */
  function Step(facts: set<Fact>, rules: seq<Rule>): set<Fact>
  {
    facts + Elems(Derived(facts, rules))
  }

  /** The termination measure of the `loop`: rule heads not yet known. */
  function Pending(facts: set<Fact>, rules: seq<Rule>): nat
  {
    |Heads(rules) - facts|
  }

  /** A round that does not stop inserts a head not previously present, so
      the number of pending heads strictly drops. */
  lemma StepProgress(facts: set<Fact>, rules: seq<Rule>)
    requires Derived(facts, rules) != []
    ensures Pending(Step(facts, rules), rules) < Pending(facts, rules)
  {
    var d := Derived(facts, rules);
    DerivedFresh(facts, rules);
    var h := d[0];
    assert h in Elems(d);
    var before := Heads(rules) - facts;
    var after := Heads(rules) - Step(facts, rules);
    assert after <= before - {h};
    assert h in before;
    assert |before - {h}| == |before| - 1;
    SubsetSize(after, before - {h});
  }

  lemma SubsetSize(a: set<Fact>, b: set<Fact>)
    requires a <= b
    ensures |a| <= |b|
  {
    assert b == a + (b - a);
  }

  /** The final fact set of `deduce`: rounds repeat until one derives nothing. */
  ghost function Saturate(facts: set<Fact>, rules: seq<Rule>): set<Fact>
    decreases Pending(facts, rules)
  {
    if Derived(facts, rules) == [] then facts
    else
      StepProgress(facts, rules);
      Saturate(Step(facts, rules), rules)
  }

  /** The value `deduce` returns: the sum over rounds of the candidate-list
      lengths, counting a head once per rule that produced it. */
  ghost function DeduceCount(facts: set<Fact>, rules: seq<Rule>): nat
    decreases Pending(facts, rules)
  {
    var d := Derived(facts, rules);
    if d == [] then 0
    else
      StepProgress(facts, rules);
      |d| + DeduceCount(Step(facts, rules), rules)
  }

  /** The number of times the loop body runs, the final empty round included. */
  ghost function Rounds(facts: set<Fact>, rules: seq<Rule>): nat
    decreases Pending(facts, rules)
  {
    if Derived(facts, rules) == [] then 1
    else
      StepProgress(facts, rules);
      1 + Rounds(Step(facts, rules), rules)
  }

  // ---------------------------------------------------------------------
  // Properties of the fixed point

  /** Deduction only grows the fact set, and everything it adds is a rule head. */
  lemma {:induction false} SaturateGrowsByHeads(facts: set<Fact>, rules: seq<Rule>)
    ensures facts <= Saturate(facts, rules)
    ensures Saturate(facts, rules) - facts <= Heads(rules)
    decreases Pending(facts, rules)
  {
    if Derived(facts, rules) != [] {
      StepProgress(facts, rules);
      DerivedFresh(facts, rules);
      SaturateGrowsByHeads(Step(facts, rules), rules);
    }
  }

  /** On exit no rule can fire: the result is a fixed point. */
  lemma {:induction false} SaturateClosed(facts: set<Fact>, rules: seq<Rule>)
    ensures Closed(Saturate(facts, rules), rules)
    decreases Pending(facts, rules)
  {
    if Derived(facts, rules) == [] {
      DerivedEmptyIffClosed(facts, rules);
    } else {
      StepProgress(facts, rules);
      SaturateClosed(Step(facts, rules), rules);
    }
  }

  /** The result is the least closed superset of the start: any closed set
      containing the start facts contains everything deduced. */
  lemma {:induction false} SaturateLeast(facts: set<Fact>, rules: seq<Rule>, bound: set<Fact>)
    requires facts <= bound && Closed(bound, rules)
    ensures Saturate(facts, rules) <= bound
    decreases Pending(facts, rules)
  {
    if Derived(facts, rules) != [] {
      StepProgress(facts, rules);
      DerivedMembers(facts, rules);
      forall h | h in Elems(Derived(facts, rules))
        ensures h in bound
      {
        var r :| r in rules && Fires(facts, r) && r.head == h;
        ConditionsHoldMonotone(facts, bound, r.conditions);
      }
      SaturateLeast(Step(facts, rules), rules, bound);
    }
  }

  /** A closed set is left as it is, and a set is left as it is only if it
      is closed. */
  lemma SaturateUnchangedIffClosed(facts: set<Fact>, rules: seq<Rule>)
    ensures Saturate(facts, rules) == facts <==> Closed(facts, rules)
  {
    SaturateClosed(facts, rules);
    if Closed(facts, rules) {
      SaturateGrowsByHeads(facts, rules);
      SaturateLeast(facts, rules, facts);
    }
  }

  /** The final fact set depends only on which rules are present, not on
      their order or repetition (confluence). */
  lemma SaturateOrderIndependent(facts: set<Fact>, rules: seq<Rule>, rules': seq<Rule>)
    requires forall r :: r in rules <==> r in rules'
    ensures Saturate(facts, rules) == Saturate(facts, rules')
  {
    SaturateClosed(facts, rules);
    SaturateClosed(facts, rules');
    SaturateGrowsByHeads(facts, rules);
    SaturateGrowsByHeads(facts, rules');
    SaturateLeast(facts, rules, Saturate(facts, rules'));
    SaturateLeast(facts, rules', Saturate(facts, rules));
  }

  /** Deduction adds at most one fact per rule. */
  lemma GrowthBound(facts: set<Fact>, rules: seq<Rule>)
    ensures |Saturate(facts, rules) - facts| <= |rules|
  {
    SaturateGrowsByHeads(facts, rules);
    SubsetSize(Saturate(facts, rules) - facts, Heads(rules));
    HeadsSize(rules);
  }

  /** The loop runs at most one round per pending rule head, plus the final
      empty round, so never more than `|rules| + 1` rounds. */
  lemma {:induction false} RoundBound(facts: set<Fact>, rules: seq<Rule>)
    ensures Rounds(facts, rules) <= Pending(facts, rules) + 1
    ensures Rounds(facts, rules) <= |rules| + 1
    decreases Pending(facts, rules)
  {
    if Derived(facts, rules) != [] {
      StepProgress(facts, rules);
      RoundBound(Step(facts, rules), rules);
    }
    SubsetSize(Heads(rules) - facts, Heads(rules));
    HeadsSize(rules);
  }

  /** The returned count is an upper bound on the real growth of the set
      (duplicate heads in one round are counted once per rule). */
  lemma {:induction false} CountCoversGrowth(facts: set<Fact>, rules: seq<Rule>)
    ensures DeduceCount(facts, rules) >= |Saturate(facts, rules) - facts|
    decreases Pending(facts, rules)
  {
    var d := Derived(facts, rules);
    if d != [] {
      StepProgress(facts, rules);
      var next := Step(facts, rules);
      CountCoversGrowth(next, rules);
      SaturateGrowsByHeads(next, rules);
      var fin := Saturate(next, rules);
      assert fin - facts == (fin - next) + Elems(d) by {
        DerivedFresh(facts, rules);
      }
      ElemsSize(d);
      assert |fin - facts| <= |fin - next| + |Elems(d)|;
    }
  }

  lemma {:induction false} ElemsSize(s: seq<Fact>)
    ensures |Elems(s)| <= |s|
  {
    if s != [] {
      assert Elems(s) == Elems(s[1..]) + {s[0]};
      ElemsSize(s[1..]);
    }
  }

  /** The count is zero exactly when deduction changes nothing. */
  lemma CountZeroIffUnchanged(facts: set<Fact>, rules: seq<Rule>)
    ensures DeduceCount(facts, rules) == 0 <==> Saturate(facts, rules) == facts
  {
    var d := Derived(facts, rules);
    if d != [] {
      StepProgress(facts, rules);
      DerivedFresh(facts, rules);
      assert d[0] in Elems(d);
      SaturateGrowsByHeads(Step(facts, rules), rules);
      assert d[0] in Saturate(facts, rules);
    }
  }

  /** A second deduction adds nothing and returns zero. */
  lemma SaturateIdempotent(facts: set<Fact>, rules: seq<Rule>)
    ensures Saturate(Saturate(facts, rules), rules) == Saturate(facts, rules)
    ensures DeduceCount(Saturate(facts, rules), rules) == 0
  {
    SaturateClosed(facts, rules);
    SaturateUnchangedIffClosed(Saturate(facts, rules), rules);
    CountZeroIffUnchanged(Saturate(facts, rules), rules);
  }
}
