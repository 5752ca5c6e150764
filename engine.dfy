/** `SymbolicEngine`: the working memory (a set of facts) and the rule list,
    updated in place by `add_fact`, `add_rule` and `deduce`. */
module Engine {
  import opened Rules
  import opened Inference

  /** The sequence holds no fact twice. */
  predicate Distinct(s: seq<Fact>)
  {
    forall i, j :: 0 <= i < j < |s| ==> s[i] != s[j]
  }

  class SymbolicEngine {
    var facts: set<Fact>
    var rules: seq<Rule>

    /** `SymbolicEngine::new`: no facts, no rules. */
    constructor ()
      ensures facts == {} && rules == []
    {
      facts := {};
      rules := [];
    }

    /** `add_fact`: inserts into the set; a fact already present (all four
        fields equal) leaves the set as it was. The rules are untouched. */
    method AddFact(fact: Fact)
      modifies this
      ensures facts == old(facts) + {fact}
      ensures fact in old(facts) ==> facts == old(facts)
      ensures |facts| == |old(facts)| + (if fact in old(facts) then 0 else 1)
      ensures rules == old(rules)
    {
      facts := facts + {fact};
    }

    /** `add_rule`: appends, keeping earlier rules and their order. The facts
        are untouched. */
    method AddRule(rule: Rule)
      modifies this
      ensures rules == old(rules) + [rule]
      ensures facts == old(facts)
    {
      rules := rules + [rule];
    }

    /** `check_conditions`: every condition needs some fact of the working
        memory meeting it; stops at the first condition without one. */
    method CheckConditions(conditions: seq<Condition>) returns (ok: bool)
      ensures ok <==> ConditionsHold(facts, conditions)
    {
      for i := 0 to |conditions|
        invariant forall k :: 0 <= k < i ==> HasMatch(facts, conditions[k])
      {
        var matchFound := HasMatch(facts, conditions[i]);
        if !matchFound {
          return false;
        }
      }
      return true;
    }

    /** One scan of `deduce` (the `for rule in &self.rules` loop): the heads
        of the rules whose conditions hold and whose head is not yet known,
        in rule order, all judged against the current fact set. */
    method CollectCandidates() returns (derived: seq<Fact>)
      ensures derived == Derived(facts, rules)
      ensures Elems(derived) !! facts && Elems(derived) <= Heads(rules)
      ensures |derived| <= |rules|
    {
      derived := [];
      for i := 0 to |rules|
        invariant derived == Derived(facts, rules[..i])
      {
        var holds := CheckConditions(rules[i].conditions);
        if holds && rules[i].head !in facts {
          derived := derived + [rules[i].head];
        }
        assert rules[..i + 1] == rules[..i] + [rules[i]];
      }
      assert rules[..|rules|] == rules;
      DerivedFresh(facts, rules);
      DerivedMembers(facts, rules);
    }

    /** The insertion loop of `deduce`: every candidate goes into the set,
        a repeated one only once. */
    method InsertAll(derived: seq<Fact>)
      modifies this
      ensures facts == old(facts) + Elems(derived)
      ensures rules == old(rules)
    {
      for j := 0 to |derived|
        invariant facts == old(facts) + Elems(derived[..j]) && rules == old(rules)
      {
        assert derived[..j + 1] == derived[..j] + [derived[j]];
        facts := facts + {derived[j]};
      }
      assert derived[..|derived|] == derived;
    }

    /** `deduce`: rounds of candidate collection against the start-of-round
        set, then insertion, until a round collects nothing. Returns the sum
        of the candidate-list lengths; `rounds` counts the loop's iterations,
        the final empty one included. */
    method Deduce() returns (count: nat, ghost rounds: nat)
      modifies this
      ensures rules == old(rules)
      ensures facts == Saturate(old(facts), rules)
      ensures count == DeduceCount(old(facts), rules)
      ensures old(facts) <= facts && facts - old(facts) <= Heads(rules)
      ensures Closed(facts, rules)
      ensures count >= |facts - old(facts)|
      ensures count == 0 <==> facts == old(facts)
      ensures rounds == Rounds(old(facts), rules) && rounds <= |rules| + 1
    {
      count, rounds := 0, 0;
      ghost var start := facts;
      while true
        invariant rules == old(rules)
        invariant Saturate(facts, rules) == Saturate(start, rules)
        invariant count + DeduceCount(facts, rules) == DeduceCount(start, rules)
        invariant rounds + Rounds(facts, rules) == Rounds(start, rules)
        decreases Pending(facts, rules)
      {
        var derived := CollectCandidates();
        rounds := rounds + 1;
        if derived == [] {
          break;
        }
        StepProgress(facts, rules);
        count := count + |derived|;
        InsertAll(derived);
      }
      SaturateGrowsByHeads(start, rules);
      SaturateClosed(start, rules);
      CountCoversGrowth(start, rules);
      CountZeroIffUnchanged(start, rules);
      RoundBound(start, rules);
    }

    /** `get_facts`: every fact of the working memory exactly once, in an
        unspecified order. */
    method GetFacts() returns (r: seq<Fact>)
      ensures Elems(r) == facts
      ensures Distinct(r)
      ensures |r| == |facts|
    {
      r := [];
      var rest := facts;
      while rest != {}
        invariant Elems(r) + rest == facts
        invariant Elems(r) !! rest
        invariant Distinct(r)
        invariant |r| + |rest| == |facts|
        decreases |rest|
      {
        var f :| f in rest;
        r := r + [f];
        rest := rest - {f};
      }
    }
  }

  /** Two deductions in a row: the second returns zero and changes nothing. */
  method DeduceTwice(e: SymbolicEngine) returns (first: nat, second: nat)
    modifies e
    ensures e.rules == old(e.rules)
    ensures e.facts == Saturate(old(e.facts), e.rules)
    ensures second == 0
  {
    ghost var rounds: nat;
    first, rounds := e.Deduce();
    second, rounds := e.Deduce();
    SaturateIdempotent(old(e.facts), e.rules);
  }
}
