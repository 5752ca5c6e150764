# Symbolic inference engine of hypercore-agents, in Dafny

This project models the forward-chaining engine of the `hypercore-symbolic` crate
(`crates/hypercore-symbolic/src/lib.rs`). The engine's working memory is a set of
entity/attribute/value facts, each with a `u8` confidence. Next to it sits an
ordered list of rules. Each rule has a conjunctive list of conditions and one
concrete head fact. `deduce` repeats rounds until one derives nothing. In each
round every rule is judged against the set as it stood at the start of that
round. A rule is a candidate when each of its conditions is met by some fact,
and its head is not yet known. A fact meets a condition when its attribute is
equal and its value satisfies `Equals` or `Contains`; the fact's entity plays
no part. All candidates are then inserted. `deduce` returns the sum of the
candidate-list lengths.

Files and modules:

- `rules.dfy`, module `Rules`: `Fact` (with `u8` confidence), `Operator`,
  `Condition`, `Rule`, `Fact::new`, `evaluate_op` and the matching predicates.
  `Contains` is proved equal to a reference substring definition.
- `inference.dfy`, module `Inference`: the value-level meaning of `deduce`. It
  defines one round's candidate list (`Derived`), the final set (`Saturate`),
  the returned count (`DeduceCount`) and the number of rounds (`Rounds`). The
  lemmas cover monotone growth by rule heads, saturation, the least fixed
  point, independence from rule order, the growth and round bounds, the count
  as an upper bound on growth, and idempotence.
- `engine.dfy`, module `Engine`: class `SymbolicEngine` with fields `facts:
  set<Fact>` and `rules: seq<Rule>`. Its methods are `new`, `add_fact`,
  `add_rule`, `check_conditions` (a loop with early return), `deduce` (the
  unbounded loop, with the two inner loops as `CollectCandidates` and
  `InsertAll`) and `get_facts`. `Deduce` is proved against `Saturate` and
  `DeduceCount`. Its loop terminates on the number of rule heads not yet in
  the set, and a ghost counter shows that it runs at most `|rules| + 1` times.
- `scenarios.dfy`, module `Scenarios`: worked runs. They cover a single step,
  a two-rule chain that completes in one `deduce`, no match, `Contains`, an
  empty rule list, and two rules sharing a head.

Where the code and its own comments disagree, the model follows the code:

- The doc comment on `deduce` (`lib.rs:82`) says it returns "the number of new
  facts derived". The code (`lib.rs:103`) adds the length of the candidate list,
  which may hold the same head twice when two rules share it. The insertion
  (`lib.rs:104-106`) adds that head once. So the count is an upper bound on
  growth, not exact growth (`CountCoversGrowth`, `DuplicateHeadsOvercount`).
- The field comment on `confidence` (`lib.rs:23`) says `0-100`. The type is `u8`
  and nothing checks the range, so confidence is a `u8` (0..255) here.

`add_fact` discards the boolean that `HashSet::insert` returns, and the
engine's only accessor is `get_facts`. `AddFact` therefore returns nothing,
and its contract states the set after insertion.

## Model

| member | source | states |
|---|---|---|
| Rules.NewFact | crates/hypercore-symbolic/src/lib.rs:26-34 | `Fact::new` keeps entity, attribute and value as given and sets confidence to 100 |
| Rules.FactEquality | crates/hypercore-symbolic/src/lib.rs:18-24 | two facts are equal exactly when entity, attribute, value and confidence all agree, so facts differing only in confidence are distinct |
| Rules.EvaluateOp | crates/hypercore-symbolic/src/lib.rs:124-129 | `Equals` holds iff the strings are equal; `Contains` holds iff the target occurs contiguously in the value (reference definition `IsSubstring`); an empty target always matches |
| Rules.ConditionsHoldMonotone | crates/hypercore-symbolic/src/lib.rs:112-122 | adding facts never falsifies a rule body that held |
| Engine.SymbolicEngine.constructor | crates/hypercore-symbolic/src/lib.rs:66-71 | a new engine has no facts and no rules |
| Engine.SymbolicEngine.AddFact | crates/hypercore-symbolic/src/lib.rs:73-75 | the fact set becomes old + {fact}; a fact already present leaves it unchanged and the size grows by at most one; rules untouched |
| Engine.SymbolicEngine.AddRule | crates/hypercore-symbolic/src/lib.rs:77-79 | the rule list becomes old + [rule], so earlier rules keep their order; facts untouched |
| Engine.SymbolicEngine.CheckConditions | crates/hypercore-symbolic/src/lib.rs:112-122 | returns true iff every condition is met by some fact of the set, of any entity; an empty condition list is satisfied |
| Engine.SymbolicEngine.CollectCandidates | crates/hypercore-symbolic/src/lib.rs:88-97 | the round's candidate list is `Derived` of the unchanged start-of-round set: heads of firing rules in rule order, none already known, all rule heads, at most one per rule |
| Engine.SymbolicEngine.InsertAll | crates/hypercore-symbolic/src/lib.rs:104-106 | the set becomes old plus the elements of the candidate list, duplicates inserted once; rules untouched |
| Engine.SymbolicEngine.Deduce | crates/hypercore-symbolic/src/lib.rs:83-110 | the final set is `Saturate(old facts, rules)` and the result is `DeduceCount`; the old set is kept, only rule heads are added, no rule can fire on exit, the result bounds the growth and is 0 iff nothing changed; the ghost `rounds` result equals `Rounds` of the old set and is at most number-of-rules + 1; rules unchanged |
| Engine.SymbolicEngine.GetFacts | crates/hypercore-symbolic/src/lib.rs:131-133 | returns every fact of the set exactly once, in no promised order |
| Engine.DeduceTwice | crates/hypercore-symbolic/src/lib.rs:83-110 | a second `deduce` with nothing added in between returns 0 and leaves the set as the first left it |
| Inference.DerivedMembers | crates/hypercore-symbolic/src/lib.rs:90-97 | a fact is a candidate iff it is the head of a rule whose conditions hold on the start-of-round set and whose head is absent; at most one candidate per rule |
| Inference.DerivedFresh | crates/hypercore-symbolic/src/lib.rs:92-95 | candidates are never already known and are always rule heads |
| Inference.DerivedEmptyIffClosed | crates/hypercore-symbolic/src/lib.rs:99-101 | a round derives nothing exactly when no rule whose conditions hold lacks its head |
| Inference.StepProgress | crates/hypercore-symbolic/src/lib.rs:87-107 | a round that does not break inserts a head not previously present, so the heads still pending strictly decrease |
| Inference.SaturateGrowsByHeads | crates/hypercore-symbolic/src/lib.rs:87-107 | deduction keeps every old fact and everything it adds is the head of some rule |
| Inference.SaturateClosed | crates/hypercore-symbolic/src/lib.rs:87-107 | on exit every rule whose conditions hold on the final set has its head in the final set |
| Inference.SaturateLeast | crates/hypercore-symbolic/src/lib.rs:87-107 | the final set lies inside every rule-closed superset of the starting facts (least fixed point) |
| Inference.SaturateUnchangedIffClosed | crates/hypercore-symbolic/src/lib.rs:99-101 | deduction leaves a set unchanged iff the set is already closed under the rules |
| Inference.SaturateOrderIndependent | crates/hypercore-symbolic/src/lib.rs:90-97 | two rule lists with the same members (any order, any repetition) give the same final set |
| Inference.GrowthBound | crates/hypercore-symbolic/src/lib.rs:87-107 | deduction adds at most as many facts as there are rules |
| Inference.RoundBound | crates/hypercore-symbolic/src/lib.rs:87-107 | `Rounds` is at most pending-heads + 1, hence at most number-of-rules + 1; `Deduce` proves that its loop runs exactly `Rounds` times |
| Inference.CountCoversGrowth | crates/hypercore-symbolic/src/lib.rs:103-106 | the returned count is at least the real growth of the set |
| Inference.CountZeroIffUnchanged | crates/hypercore-symbolic/src/lib.rs:99-109 | the returned count is 0 exactly when the set is unchanged |
| Inference.SaturateIdempotent | crates/hypercore-symbolic/src/lib.rs:83-110 | deducing again from the final set changes nothing and counts 0 |
| Scenarios.SingleStep | crates/hypercore-symbolic/src/lib.rs:83-110 | one matching `Equals` rule adds its head once: two facts, count 1 |
| Scenarios.Chained | crates/hypercore-symbolic/src/lib.rs:83-110 | a rule firing on a head derived in an earlier round fires in the same `deduce`: count 2 over three rounds, even when it is listed first |
| Scenarios.NoMatch | crates/hypercore-symbolic/src/lib.rs:112-122 | a condition whose attribute no fact has blocks the rule, even if some value contains the target: count 0, set unchanged |
| Scenarios.ContainsFires | crates/hypercore-symbolic/src/lib.rs:124-129 | a `Contains` condition fires on any value with the target inside it: count 1 |
| Scenarios.NoRules | crates/hypercore-symbolic/src/lib.rs:83-110 | with no rules the set is unchanged and the count is 0 |
| Scenarios.DuplicateHeadsOvercount | crates/hypercore-symbolic/src/lib.rs:103-106 | two rules with the same head firing in one round: the count is 2 while the set grows by 1 |
| Scenarios.OvercountThroughEngine | crates/hypercore-symbolic/src/lib.rs:73-110 | the same overcount through `add_fact`, `add_rule`, `deduce` and `get_facts`: count 2, two facts |

## Left out

- `SymbolicError` and `SymbolicResult` (`lib.rs:5-13`): no operation of the engine produces them.
- Iteration order of `get_facts`: it comes from a `HashSet` and is unspecified. `GetFacts` returns some duplicate-free sequence of exactly the facts.
- `Serialize`/`Deserialize`/`Debug`/`Clone` derives: these are serialisation and library plumbing, outside the engine's logic.
- `Rule.name` is carried but never read by the engine.
- Strings are sequences of characters. Rust compares and searches UTF-8 bytes, and for valid UTF-8 substring and equality agree with the character view.
- The `usize` result is an unbounded `nat`. Overflow cannot arise at realistic sizes: each round adds at most one per rule, and there are at most `|rules| + 1` rounds.
- The other crates are not part of this model. They are the Groq and OpenAI HTTP clients, the Python bindings and runner, the SQLite memory, the tool traits, the orchestrator builder and the hybrid planner. They are I/O, foreign calls, concurrency or wiring around this engine. The hybrid planner's only use of it is `add_fact(Fact::new("goal", "is", goal))` followed by `deduce`.
