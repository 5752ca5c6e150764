/** Plain data of the symbolic engine (facts, conditions, operators, rules)
    and the matching semantics used to decide whether a rule's body holds. */
module Rules {

  /** Rust's `u8`: the confidence of a fact. */
  newtype u8 = x: int | 0 <= x < 256

  /** An entity/attribute/value triple with a confidence. Equality of facts is
      structural over all four fields, as with the derived `PartialEq`/`Hash`. */
  datatype Fact = Fact(entity: string, attribute: string, value: string, confidence: u8)

  datatype Operator = Equals | Contains

  /** A test against the working memory: some fact with this attribute whose
      value satisfies `operator` against `value`. */
  datatype Condition = Condition(attribute: string, operator: Operator, value: string)

  /** IF every condition holds THEN assert `head`. */
  datatype Rule = Rule(name: string, conditions: seq<Condition>, head: Fact)

  /** `Fact::new`: copies the three strings, confidence is always 100. */
  function NewFact(entity: string, attribute: string, value: string): (f: Fact)
    ensures f.entity == entity && f.attribute == attribute && f.value == value
    ensures f.confidence == 100
  {
    Fact(entity, attribute, value, 100)
  }

  /** Two facts are the same fact exactly when all four fields agree; in
      particular facts that differ only in confidence are distinct. */
  lemma FactEquality(a: Fact, b: Fact)
    ensures a == b <==>
      a.entity == b.entity && a.attribute == b.attribute &&
      a.value == b.value && a.confidence == b.confidence
  {
  }

  // ---------------------------------------------------------------------
  // Substring test (`str::contains`)

  /** Reference definition: `t` occurs contiguously somewhere in `v`. */
  ghost predicate IsSubstring(t: string, v: string)
  {
    exists i, j :: 0 <= i <= j <= |v| && v[i..j] == t
  }

  /** Executable substring test: `t` is a prefix of some suffix of `v`. */
  predicate HasSubstring(v: string, t: string)
    decreases |v|
  {
    t <= v || (|v| > 0 && HasSubstring(v[1..], t))
  }

  lemma {:induction false} HasSubstringSound(v: string, t: string)
    requires HasSubstring(v, t)
    ensures IsSubstring(t, v)
    decreases |v|
  {
    if t <= v {
      assert v[0..|t|] == t;
    } else {
      HasSubstringSound(v[1..], t);
      var i, j :| 0 <= i <= j <= |v[1..]| && v[1..][i..j] == t;
      assert v[i + 1..j + 1] == t;
    }
  }

  lemma {:induction false} HasSubstringComplete(v: string, t: string, i: int, j: int)
    requires 0 <= i <= j <= |v| && v[i..j] == t
    ensures HasSubstring(v, t)
    decreases i
  {
    if i == 0 {
      assert v[..|t|] == t;
    } else {
      assert v[1..][i - 1..j - 1] == t;
      HasSubstringComplete(v[1..], t, i - 1, j - 1);
    }
  }

  /** `evaluate_op`: `Equals` is string equality, `Contains` is the
      substring test, so an empty target is contained in every value. */
  function EvaluateOp(factValue: string, op: Operator, target: string): (b: bool)
    ensures op == Equals ==> (b <==> factValue == target)
    ensures op == Contains ==> (b <==> IsSubstring(target, factValue))
    ensures op == Contains && target == [] ==> b
  {
    match op
    case Equals => factValue == target
    case Contains =>
      if HasSubstring(factValue, target) then
        HasSubstringSound(factValue, target);
        true
      else
        assert !IsSubstring(target, factValue) by {
          if IsSubstring(target, factValue) {
            var i, j :| 0 <= i <= j <= |factValue| && factValue[i..j] == target;
            HasSubstringComplete(factValue, target, i, j);
          }
        }
        false
  }

  // ---------------------------------------------------------------------
  // Conditions against a working memory

  /** A fact meets a condition when the attributes are equal and its value
      satisfies the operator; the fact's entity plays no part. */
  predicate Meets(f: Fact, c: Condition)
  {
    f.attribute == c.attribute && EvaluateOp(f.value, c.operator, c.value)
  }

  /** Some fact of the working memory meets `c`. */
  predicate HasMatch(facts: set<Fact>, c: Condition)
  {
    exists f :: f in facts && Meets(f, c)
  }

  /** Every condition has a matching fact (the body of a rule holds). */
  predicate ConditionsHold(facts: set<Fact>, conditions: seq<Condition>)
  {
    forall k :: 0 <= k < |conditions| ==> HasMatch(facts, conditions[k])
  }

  /** Adding facts never falsifies a rule body: matching has no negation. */
  lemma ConditionsHoldMonotone(facts: set<Fact>, more: set<Fact>, conditions: seq<Condition>)
    requires facts <= more
    requires ConditionsHold(facts, conditions)
    ensures ConditionsHold(more, conditions)
  {
  }
}
