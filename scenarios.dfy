/** Worked runs of `deduce` on small fact sets and rule lists, including the
    case where the returned count exceeds the real growth of the set. */
module Scenarios {
  import opened Rules
  import opened Inference
  import opened Engine

  lemma DerivedPair(facts: set<Fact>, r0: Rule, r1: Rule)
    ensures Derived(facts, [r0, r1]) ==
      (if Fires(facts, r0) then [r0.head] else []) + (if Fires(facts, r1) then [r1.head] else [])
  {
    assert [r0, r1][..1] == [r0];
    assert [r0][..0] == [];
    assert Derived(facts, [r0]) == Derived(facts, []) + (if Fires(facts, r0) then [r0.head] else []);
  }

  /** One rule fires once: `(alice, age, "30")` gives `(alice, category, "adult")`. */
  lemma SingleStep()
    ensures
      var age := NewFact("alice", "age", "30");
      var adult := NewFact("alice", "category", "adult");
      var rules := [Rule("adult", [Condition("age", Equals, "30")], adult)];
      Saturate({age}, rules) == {age, adult} && DeduceCount({age}, rules) == 1
  {
    var age := NewFact("alice", "age", "30");
    var adult := NewFact("alice", "category", "adult");
    var rules := [Rule("adult", [Condition("age", Equals, "30")], adult)];
    assert Meets(age, rules[0].conditions[0]);
    assert Derived({age}, rules) == [adult];
    assert Step({age}, rules) == {age, adult};
    assert Derived({age, adult}, rules) == [];
  }

  /** A chain of two rules: the second fires on what the first derived, in
      the next round of the same run. */
  lemma Chained()
    ensures
      var f0 := NewFact("loan", "amount", "500");
      var f1 := NewFact("loan", "risk", "high");
      var f2 := NewFact("loan", "review", "manual");
      var rules := [Rule("review", [Condition("risk", Equals, "high")], f2),
                    Rule("risk", [Condition("amount", Equals, "500")], f1)];
      Saturate({f0}, rules) == {f0, f1, f2} && DeduceCount({f0}, rules) == 2 &&
      Rounds({f0}, rules) == 3
  {
    var f0 := NewFact("loan", "amount", "500");
    var f1 := NewFact("loan", "risk", "high");
    var f2 := NewFact("loan", "review", "manual");
    var rules := [Rule("review", [Condition("risk", Equals, "high")], f2),
                  Rule("risk", [Condition("amount", Equals, "500")], f1)];
    assert !HasMatch({f0}, rules[0].conditions[0]);
    assert Meets(f0, rules[1].conditions[0]);
    assert Meets(f1, rules[0].conditions[0]);
    DerivedPair({f0}, rules[0], rules[1]);
    DerivedPair({f0, f1}, rules[0], rules[1]);
    DerivedPair({f0, f1, f2}, rules[0], rules[1]);
    assert Derived({f0}, rules) == [f1];
    assert Step({f0}, rules) == {f0, f1};
    assert Derived({f0, f1}, rules) == [f2];
    assert Step({f0, f1}, rules) == {f0, f1, f2};
    assert Derived({f0, f1, f2}, rules) == [];
    assert Saturate({f0, f1}, rules) == {f0, f1, f2};
    assert DeduceCount({f0, f1}, rules) == 1;
    assert Rounds({f0, f1}, rules) == 2;
  }

  /** No fact has the condition's attribute: nothing is derived. */
  lemma NoMatch()
    ensures
      var status := NewFact("tx", "status", "500 pending");
      var rules := [Rule("big", [Condition("amount", Contains, "500")], NewFact("tx", "size", "big"))];
      Saturate({status}, rules) == {status} && DeduceCount({status}, rules) == 0
  {
    var status := NewFact("tx", "status", "500 pending");
    var rules := [Rule("big", [Condition("amount", Contains, "500")], NewFact("tx", "size", "big"))];
    assert !HasMatch({status}, rules[0].conditions[0]);
    assert Derived({status}, rules) == [];
  }

  /** `Contains` matches the target wherever it occurs in the value, e.g.
      in "juros abusivos detectados". */
  lemma ContainsFires(before: string, after: string)
    ensures
      var doc := Fact("doc1", "text", before + "abusivos" + after, 90);
      var flag := NewFact("doc1", "flag", "abusive");
      var rules := [Rule("abuse", [Condition("text", Contains, "abusivos")], flag)];
      Saturate({doc}, rules) == {doc, flag} && DeduceCount({doc}, rules) == 1
  {
    var doc := Fact("doc1", "text", before + "abusivos" + after, 90);
    var flag := NewFact("doc1", "flag", "abusive");
    var rules := [Rule("abuse", [Condition("text", Contains, "abusivos")], flag)];
    assert doc.value[|before|..|before| + 8] == "abusivos";
    assert Meets(doc, rules[0].conditions[0]);
    assert Derived({doc}, rules) == [flag];
    assert Step({doc}, rules) == {doc, flag};
    assert Derived({doc, flag}, rules) == [];
  }

  /** With no rules, deduction adds nothing and returns zero. */
  lemma NoRules(facts: set<Fact>)
    ensures Saturate(facts, []) == facts && DeduceCount(facts, []) == 0
  {
  }

  /** Two rules with the same head firing in one round: the count goes up by
      two while the set grows by one. */
  lemma DuplicateHeadsOvercount()
    ensures
      var seed := NewFact("x", "a", "1");
      var h := NewFact("x", "b", "2");
      var rules := [Rule("r1", [Condition("a", Equals, "1")], h),
                    Rule("r2", [Condition("a", Contains, "")], h)];
      Saturate({seed}, rules) == {seed, h} &&
      |Saturate({seed}, rules) - {seed}| == 1 &&
      DeduceCount({seed}, rules) == 2
  {
    var seed := NewFact("x", "a", "1");
    var h := NewFact("x", "b", "2");
    var rules := [Rule("r1", [Condition("a", Equals, "1")], h),
                  Rule("r2", [Condition("a", Contains, "")], h)];
    assert Meets(seed, rules[0].conditions[0]);
    assert Meets(seed, rules[1].conditions[0]);
    DerivedPair({seed}, rules[0], rules[1]);
    DerivedPair({seed, h}, rules[0], rules[1]);
    assert Derived({seed}, rules) == [h, h];
    assert Step({seed}, rules) == {seed, h};
    assert Derived({seed, h}, rules) == [];
    assert Saturate({seed}, rules) - {seed} == {h};
  }

  /** The same overcount through the engine's own operations. */
  method OvercountThroughEngine() returns (count: nat, size: nat)
    ensures count == 2 && size == 2
  {
    var e := new SymbolicEngine();
    var seed := NewFact("x", "a", "1");
    var h := NewFact("x", "b", "2");
    var r1 := Rule("r1", [Condition("a", Equals, "1")], h);
    var r2 := Rule("r2", [Condition("a", Contains, "")], h);
    e.AddFact(seed);
    e.AddRule(r1);
    e.AddRule(r2);
    assert e.facts == {seed} && e.rules == [r1, r2];
    DuplicateHeadsOvercount();
    ghost var rounds: nat;
    count, rounds := e.Deduce();
    assert e.facts == {seed, h};
    var all := e.GetFacts();
    assert seed != h;
    size := |all|;
  }
}
