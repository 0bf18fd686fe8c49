# Extracting single-relation predicates from disjunctions

This project models the Nereids rewrite rule `ExtractSingleTableExpressionFromDisjunction`
of the Apache Doris query optimizer. It also proves properties of the model.

The rule looks at the conjuncts of a logical filter. Take a conjunct that is an OR of
several branches, such as
`(n1.n_name = 'FRANCE' and n2.n_name = 'GERMANY') or (n1.n_name = 'GERMANY' and n2.n_name = 'FRANCE')`.
For every relation read by its first branch, the rule keeps, in each branch, the AND-ed
parts that read only that relation's columns. If every branch keeps at least one part,
the OR of those per-branch results is a new predicate. The example yields
`n1.n_name = 'FRANCE' or n1.n_name = 'GERMANY'` and
`n2.n_name = 'GERMANY' or n2.n_name = 'FRANCE'`.
Each new predicate is implied by the conjunct it comes from and reads one relation only.
The rule adds all of them to the filter, keeps the original conjuncts, and sets the
filter's "single-table expression extracted" flag so that it never fires on that filter again.

Files:

- `wrappers.dfy`: the `Option` type.
- `expressions.dfy`: the expression tree, with binary AND and OR nodes, column references
  (slots) carrying a qualifier path, and every other node kind as an opaque node with
  children. It also defines the columns an expression reads (`InputSlots`) and a
  two-valued semantics, `Eval`, in which non-AND/OR nodes are atoms valued by an
  arbitrary valuation.
- `expression_utils.dfy`: splitting into AND-parts and OR-branches, and rebuilding a list
  with AND or OR. These are the helpers the rule calls in `ExpressionUtils`.
- `qualifiers.dfy`: the qualifier key (`getSlotQualifierAsString`) and the
  single-relation test (`isSingleTableExpression`).
- `extraction.dfy`: per-branch extraction (`extractSingleTableExpression`).
- `rule.dfy`: the rule. It has a functional definition (`Rewrite`, `Apply`), the loops
  of `build()` as methods over sets in arbitrary iteration order (`ApplyRule`,
  `DeriveFromConjunct`, `ExtractForAll`), and the soundness and exactness lemmas.
- `scenarios.dfy`: worked examples on concrete filters.

Loops that the source runs over a Java `Set` pick their next element with `:|`. The
proofs therefore hold for every iteration order.

## Model

All source cells refer to `fe/fe-core/src/main/java/org/apache/doris/nereids/rules/rewrite/logical/ExtractSingleTableExpressionFromDisjunction.java`.

| member | source | states |
|---|---|---|
| ExpressionUtils.Conjuncts | fe/fe-core/src/main/java/org/apache/doris/nereids/rules/rewrite/logical/ExtractSingleTableExpressionFromDisjunction.java:144 | splitting into AND-parts gives at least one part; no part is an AND; a non-AND expression is its own only part |
| ExpressionUtils.Disjuncts | fe/fe-core/src/main/java/org/apache/doris/nereids/rules/rewrite/logical/ExtractSingleTableExpressionFromDisjunction.java:86-91 | splitting into OR-branches gives at least one branch and no branch is an OR; an OR gives at least two branches, so `size() == 1` holds exactly for a non-OR conjunct |
| ExpressionUtils.ConjunctsEval | fe/fe-core/src/main/java/org/apache/doris/nereids/rules/rewrite/logical/ExtractSingleTableExpressionFromDisjunction.java:144 | an expression holds exactly when all of its AND-parts hold |
| ExpressionUtils.DisjunctsEval | fe/fe-core/src/main/java/org/apache/doris/nereids/rules/rewrite/logical/ExtractSingleTableExpressionFromDisjunction.java:86 | an expression holds exactly when one of its OR-branches holds |
| ExpressionUtils.MakeAndEval | fe/fe-core/src/main/java/org/apache/doris/nereids/rules/rewrite/logical/ExtractSingleTableExpressionFromDisjunction.java:153 | the AND of a non-empty list holds exactly when every element holds |
| ExpressionUtils.MakeOrEval | fe/fe-core/src/main/java/org/apache/doris/nereids/rules/rewrite/logical/ExtractSingleTableExpressionFromDisjunction.java:115 | the OR of a non-empty list holds exactly when some element holds |
| ExpressionUtils.ConjunctsOfMakeAnd | fe/fe-core/src/main/java/org/apache/doris/nereids/rules/rewrite/logical/ExtractSingleTableExpressionFromDisjunction.java:144-153 | splitting the AND of a list of non-AND parts gives that list back, in order |
| ExpressionUtils.DisjunctsOfMakeOr | fe/fe-core/src/main/java/org/apache/doris/nereids/rules/rewrite/logical/ExtractSingleTableExpressionFromDisjunction.java:104-115 | splitting the OR of a list of non-OR branches gives that list back, in order |
| ExpressionUtils.MakeAndOfConjuncts | fe/fe-core/src/main/java/org/apache/doris/nereids/rules/rewrite/logical/ExtractSingleTableExpressionFromDisjunction.java:144-153 | splitting an expression into AND-parts and rebuilding them preserves its truth value |
| ExpressionUtils.MakeOrOfDisjuncts | fe/fe-core/src/main/java/org/apache/doris/nereids/rules/rewrite/logical/ExtractSingleTableExpressionFromDisjunction.java:104-115 | splitting an expression into OR-branches and rebuilding them preserves its truth value |
| ExpressionUtils.MakeAndSlots | fe/fe-core/src/main/java/org/apache/doris/nereids/rules/rewrite/logical/ExtractSingleTableExpressionFromDisjunction.java:153 | the AND of a list reads exactly the columns its elements read |
| ExpressionUtils.MakeOrSlots | fe/fe-core/src/main/java/org/apache/doris/nereids/rules/rewrite/logical/ExtractSingleTableExpressionFromDisjunction.java:115 | the OR of a list reads exactly the columns its elements read |
| Qualifiers.QualifierKeyShape | fe/fe-core/src/main/java/org/apache/doris/nereids/rules/rewrite/logical/ExtractSingleTableExpressionFromDisjunction.java:131-137 | the key is empty exactly for the empty path; otherwise it has at least one character per component and ends in '.' |
| Qualifiers.QualifierKeyAppend | fe/fe-core/src/main/java/org/apache/doris/nereids/rules/rewrite/logical/ExtractSingleTableExpressionFromDisjunction.java:133-135 | appending a component to the path appends that component and '.' to the key, as each builder step does |
| Qualifiers.SlotQualifierAsString | fe/fe-core/src/main/java/org/apache/doris/nereids/rules/rewrite/logical/ExtractSingleTableExpressionFromDisjunction.java:131-137 | the builder loop returns every component followed by '.', in path order |
| Qualifiers.QualifierKeyInjective | fe/fe-core/src/main/java/org/apache/doris/nereids/rules/rewrite/logical/ExtractSingleTableExpressionFromDisjunction.java:131-137 | two paths whose components contain no '.' have the same key only if they are equal |
| Qualifiers.IsSingleTable | fe/fe-core/src/main/java/org/apache/doris/nereids/rules/rewrite/logical/ExtractSingleTableExpressionFromDisjunction.java:157-166 | true exactly when the set of keys of the columns read is within `{q}`; true for an expression that reads no column |
| Qualifiers.IsSingleTableExpression | fe/fe-core/src/main/java/org/apache/doris/nereids/rules/rewrite/logical/ExtractSingleTableExpressionFromDisjunction.java:157-166 | the early-exit slot loop returns true exactly when every column read has key `q`, in any iteration order |
| Qualifiers.MakeAndSingleTable | fe/fe-core/src/main/java/org/apache/doris/nereids/rules/rewrite/logical/ExtractSingleTableExpressionFromDisjunction.java:153 | the AND of a list reads one relation exactly when every element does |
| Qualifiers.MakeOrSingleTable | fe/fe-core/src/main/java/org/apache/doris/nereids/rules/rewrite/logical/ExtractSingleTableExpressionFromDisjunction.java:115 | the OR of a list reads one relation exactly when every element does |
| SingleTableExtraction.KeepSingleTable | fe/fe-core/src/main/java/org/apache/doris/nereids/rules/rewrite/logical/ExtractSingleTableExpressionFromDisjunction.java:143-149 | a part is kept exactly when it occurs in the list and passes the test, and the kept parts stay in their original order (a subsequence) |
| SingleTableExtraction.KeepSingleTableCounts | fe/fe-core/src/main/java/org/apache/doris/nereids/rules/rewrite/logical/ExtractSingleTableExpressionFromDisjunction.java:145-149 | each passing part is kept as many times as it occurs and no other part is kept; with the subsequence clause this fixes the kept list exactly, repeated parts included |
| SingleTableExtraction.KeepSingleTableAppend | fe/fe-core/src/main/java/org/apache/doris/nereids/rules/rewrite/logical/ExtractSingleTableExpressionFromDisjunction.java:145-149 | one more part appends that part to the kept list exactly when it passes the test |
| SingleTableExtraction.ConjunctionOfPartsImplied | fe/fe-core/src/main/java/org/apache/doris/nereids/rules/rewrite/logical/ExtractSingleTableExpressionFromDisjunction.java:139-155 | the AND of any non-empty selection of an expression's AND-parts is implied by the expression |
| SingleTableExtraction.ExtractSingleTable | fe/fe-core/src/main/java/org/apache/doris/nereids/rules/rewrite/logical/ExtractSingleTableExpressionFromDisjunction.java:142-155 | a returned expression splits back into exactly the passing parts, in their original order |
| SingleTableExtraction.ExtractSingleTableNone | fe/fe-core/src/main/java/org/apache/doris/nereids/rules/rewrite/logical/ExtractSingleTableExpressionFromDisjunction.java:150-154 | extraction returns nothing exactly when no AND-part passes the test |
| SingleTableExtraction.ExtractSingleTableSound | fe/fe-core/src/main/java/org/apache/doris/nereids/rules/rewrite/logical/ExtractSingleTableExpressionFromDisjunction.java:139-155 | a returned expression reads only columns keyed `q` and is implied by the branch |
| SingleTableExtraction.ExtractSingleTableExpression | fe/fe-core/src/main/java/org/apache/doris/nereids/rules/rewrite/logical/ExtractSingleTableExpressionFromDisjunction.java:142-155 | the list-building loop returns the same result as the functional extraction |
| ExtractSingleTableRule.ExtractEach | fe/fe-core/src/main/java/org/apache/doris/nereids/rules/rewrite/logical/ExtractSingleTableExpressionFromDisjunction.java:102-113 | succeeds exactly when every branch yields a part; then it holds one result per branch, in branch order |
| ExtractSingleTableRule.ExtractForAll | fe/fe-core/src/main/java/org/apache/doris/nereids/rules/rewrite/logical/ExtractSingleTableExpressionFromDisjunction.java:102-113 | the inner loop with its `break` reports success exactly when every branch yields a part; on success the list holds each branch's result in order |
| ExtractSingleTableRule.OrOfExtractionsImplied | fe/fe-core/src/main/java/org/apache/doris/nereids/rules/rewrite/logical/ExtractSingleTableExpressionFromDisjunction.java:114-116 | the OR of the per-branch results holds whenever some branch holds |
| ExtractSingleTableRule.Candidate | fe/fe-core/src/main/java/org/apache/doris/nereids/rules/rewrite/logical/ExtractSingleTableExpressionFromDisjunction.java:101-117 | a qualifier yields a new predicate exactly when every branch yields a part for it |
| ExtractSingleTableRule.CandidateSound | fe/fe-core/src/main/java/org/apache/doris/nereids/rules/rewrite/logical/ExtractSingleTableExpressionFromDisjunction.java:101-117 | the new predicate for `q` reads only columns keyed `q` and holds whenever some branch holds |
| ExtractSingleTableRule.LoopResultIsCandidate | fe/fe-core/src/main/java/org/apache/doris/nereids/rules/rewrite/logical/ExtractSingleTableExpressionFromDisjunction.java:102-116 | what the inner loop reports and collects is the candidate: success matches its presence, and the OR of the list is its value |
| ExtractSingleTableRule.RedundantSound | fe/fe-core/src/main/java/org/apache/doris/nereids/rules/rewrite/logical/ExtractSingleTableExpressionFromDisjunction.java:83-118 | every predicate derived from a conjunct is implied by it and reads only one relation, one that the first branch reads |
| ExtractSingleTableRule.RedundantIsDerived | fe/fe-core/src/main/java/org/apache/doris/nereids/rules/rewrite/logical/ExtractSingleTableExpressionFromDisjunction.java:89-116 | every derived predicate is, for some qualifier of the first branch, the OR in branch order of what each branch yields |
| ExtractSingleTableRule.DerivedIsRedundant | fe/fe-core/src/main/java/org/apache/doris/nereids/rules/rewrite/logical/ExtractSingleTableExpressionFromDisjunction.java:89-116 | conversely, such an OR for a qualifier of the first branch of an OR conjunct is derived |
| ExtractSingleTableRule.RedundantsOfExact | fe/fe-core/src/main/java/org/apache/doris/nereids/rules/rewrite/logical/ExtractSingleTableExpressionFromDisjunction.java:83-118 | the predicates derived from a conjunct are exactly those ORs: both directions of the if-and-only-if |
| ExtractSingleTableRule.NonDisjunctionAddsNothing | fe/fe-core/src/main/java/org/apache/doris/nereids/rules/rewrite/logical/ExtractSingleTableExpressionFromDisjunction.java:86-91 | a conjunct that is not an OR splits into one branch and contributes nothing |
| ExtractSingleTableRule.RedundantsInsert | fe/fe-core/src/main/java/org/apache/doris/nereids/rules/rewrite/logical/ExtractSingleTableExpressionFromDisjunction.java:83-118 | visiting one more conjunct adds exactly the predicates derived from it, so the result does not depend on visiting order |
| ExtractSingleTableRule.RedundantsForInsert | fe/fe-core/src/main/java/org/apache/doris/nereids/rules/rewrite/logical/ExtractSingleTableExpressionFromDisjunction.java:101-116 | trying one more qualifier adds exactly its candidate, if it has one |
| ExtractSingleTableRule.DeriveFromConjunct | fe/fe-core/src/main/java/org/apache/doris/nereids/rules/rewrite/logical/ExtractSingleTableExpressionFromDisjunction.java:86-117 | the body of the conjunct loop collects exactly the predicates derived from that conjunct, for any order of the qualifier set |
| ExtractSingleTableRule.Rewrite | fe/fe-core/src/main/java/org/apache/doris/nereids/rules/rewrite/logical/ExtractSingleTableExpressionFromDisjunction.java:120-127 | the new filter keeps every original conjunct, adds the derived ones and nothing else, sets the flag, and carries the child unchanged, with or without additions |
| ExtractSingleTableRule.Apply | fe/fe-core/src/main/java/org/apache/doris/nereids/rules/rewrite/logical/ExtractSingleTableExpressionFromDisjunction.java:76 | the rule matches a filter exactly when its flag is clear |
| ExtractSingleTableRule.AppliesOnce | fe/fe-core/src/main/java/org/apache/doris/nereids/rules/rewrite/logical/ExtractSingleTableExpressionFromDisjunction.java:63 | the rule never matches its own output, so it runs at most once per filter |
| ExtractSingleTableRule.RewritePreservesSemantics | fe/fe-core/src/main/java/org/apache/doris/nereids/rules/rewrite/logical/ExtractSingleTableExpressionFromDisjunction.java:120-127 | the rewritten filter holds under a valuation exactly when the original one does |
| ExtractSingleTableRule.RewriteAddsSingleTableImplied | fe/fe-core/src/main/java/org/apache/doris/nereids/rules/rewrite/logical/ExtractSingleTableExpressionFromDisjunction.java:65 | every added conjunct is implied by an original conjunct and reads only one relation's columns |
| ExtractSingleTableRule.ApplyRule | fe/fe-core/src/main/java/org/apache/doris/nereids/rules/rewrite/logical/ExtractSingleTableExpressionFromDisjunction.java:76-128 | the loop over the conjunct set, in any order, builds the same filter as `Rewrite` |
| Scenarios.TwoRelationCandidateN1 | fe/fe-core/src/main/java/org/apache/doris/nereids/rules/rewrite/logical/ExtractSingleTableExpressionFromDisjunction.java:38-42 | in the documented example, qualifier n1 yields `n1.n_name = 'FRANCE' or n1.n_name = 'GERMANY'` |
| Scenarios.TwoRelationCandidateN2 | fe/fe-core/src/main/java/org/apache/doris/nereids/rules/rewrite/logical/ExtractSingleTableExpressionFromDisjunction.java:38-42 | in the documented example, qualifier n2 yields `n2.n_name = 'GERMANY' or n2.n_name = 'FRANCE'` |
| Scenarios.TwoRelationDisjunction | fe/fe-core/src/main/java/org/apache/doris/nereids/rules/rewrite/logical/ExtractSingleTableExpressionFromDisjunction.java:38-42 | the documented example conjunct derives exactly the two documented predicates |
| Scenarios.NoDisjunctionScenario | fe/fe-core/src/main/java/org/apache/doris/nereids/rules/rewrite/logical/ExtractSingleTableExpressionFromDisjunction.java:89-91 | a filter whose only conjunct is an AND gets the flag set and nothing added |
| Scenarios.BranchWithoutPartScenario | fe/fe-core/src/main/java/org/apache/doris/nereids/rules/rewrite/logical/ExtractSingleTableExpressionFromDisjunction.java:106-109 | a qualifier fails when one branch has no part for it, while the other qualifier still succeeds |
| Scenarios.FirstBranchOnlyScenario | fe/fe-core/src/main/java/org/apache/doris/nereids/rules/rewrite/logical/ExtractSingleTableExpressionFromDisjunction.java:92-99 | a qualifier absent from the first branch is never tried, even when every branch would yield a part for it |
| Scenarios.KeyCollision | fe/fe-core/src/main/java/org/apache/doris/nereids/rules/rewrite/logical/ExtractSingleTableExpressionFromDisjunction.java:131-137 | the distinct paths `["a.b"]` and `["a", "b"]` have the same key `"a.b."` |

## Left out

- The rule framework is left out: `OneRewriteRuleFactory`, the pattern `logicalFilter().whenNot(...)`, `toRule` and `RuleType`. They belong to the optimizer's scheduler. `Apply` models only the match condition on the flag.
- The bodies of `ExpressionUtils.extractConjunction`, `extractDisjunction`, `and` and `or` are not part of this model. `Conjuncts`/`Disjuncts` flatten nested binary nodes left to right. `MakeAnd`/`MakeOr` return a single element unchanged and fold longer lists from the left. The fold direction is an assumption; the soundness lemmas do not depend on it.
- Plan nodes are left out. The filter's child is a type parameter that is carried through unchanged.
- The `(SlotReference)` casts and the real `getInputSlots` are left out. `InputSlots` collects the column references reachable in the tree. A failed cast would be a runtime fault, not rule logic.
- Guava collections and Java set iteration order are left out. Conjuncts and qualifiers are Dafny sets, and the loops choose elements arbitrarily. The `redundants` list becomes a set in the output filter, so duplicate derived predicates collapse, as they do in the `ImmutableSet` the source builds.
- SQL value semantics is left out: three-valued logic, NULL, and what comparisons and literals mean. Every node other than AND/OR is an atom valued by an arbitrary valuation, so the implication lemmas hold for any interpretation of the atoms.
- The downstream removal and pushdown of useless derived predicates, and the `isRedundant` marker, appear only in the rule's documentation comment and are left out.
- Scenarios.KeyCollision: keys collide when a path component contains '.'. The model keeps the source's behaviour and states the collision as a fact. `QualifierKeyInjective` gives the condition under which keys do identify relations.
- Qualifiers.IsSingleTable: an expression that reads no column passes the test for every key, exactly as in the source. So a derived predicate may read no column at all. `RewriteAddsSingleTableImplied` states "reads only one relation's columns", not "reads some column".
- ExtractSingleTableRule.AppliesOnce: states that the rule does not fire twice on the same filter. It does not state that running the rule on a copy of the output with the flag cleared adds nothing new; that is not proved.
