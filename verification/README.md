# A verified model of the semantic core of qfs

qfs turns a parsed statement into a relation (a query to run) or a plan (effects to commit). This project
models that core and the self-contained algorithms around it, and proves what they keep, for every
statement, every row, every string and every history.

* **Statements** — `Resolver` and `ResolverWalk` (names, calls and verbs), `Relations` (folding a pipeline),
  `Evaluator` (`LET`, `TRANSACTION`, `SWITCH`, terminal `CALL`, writes), `Plan` and `PlanTopo` (the effect DAG
  and its commit walk), `Transforms` (consent for `|> transform`). Their properties: `EvaluatorPlans` (order and
  well-formedness of every plan), `Substitution` (`LET` is inlining), `ScopeAgreement` (the resolver and the
  evaluator walk the same tree with separate scopes, and agree).
* **Expressions** — `Lambda` (the evaluator, with closures, terminating without fuel), `LambdaRun` (the same as
  the program runs it, loop by loop), `LambdaScope` (lexical scoping), `LambdaForms` (the derived forms and
  `LIKE`), `Typeck` and `TypeckRun` (the checker and its loops), `Soundness` (what acceptance guarantees).
* **The write filter** — `WriteFilter` (a `WHERE` tree becomes an equality list and a one-row selector) and
  `D1Write` (the selector becomes a parameterized SQL predicate).
* **Paths** — `Registry` (the mount table, its histories and its router), `Paths`, `Percent`, `Selection`
  (selection segments lowered to key predicates), `HostCanon` (canonical paths throughout a tree).
* **Rows** — `Values`, `Schemas` and `Widening` (widening as a least upper bound), `Codec` (JSON and ragged rows),
  `Inference` (when rows conform to the schema inferred from them), `Nested` (`EXPAND` and path access).
* **Bytes and text** — `Sha256` (SHA-256, HMAC, constant-time comparison), `Redact` and `RedactSpans` (the log
  scrubber, what it keeps and what it misses), `Text`.

Code that is recursion over values is a function here, with lemmas about it. Code that updates things step by
step is a method with a loop, or a class with fields (`MountRegistry`, `PlanBuilder`, the collectors `Names` and
`Sink`), whose contract ties it to the function the lemmas are about.

## Where the code is not what its documentation says

The code was followed; each point has a witness and, where it is a property that fails, its exact condition.

* `EXPAND` does not always produce rows as wide as its schema: `Nested.ExpandKeepsWidthExactlyWhen`,
  `Nested.NullElementNarrows`.
* JSON integers beyond `i64` become floats, not `Json` values, so they do not round-trip: `Codec.RoundTripsExactly`.
* The batch of unified rows is rectangular but need not conform to its schema:
  `Inference.BatchConformsExactlyWhen`, with three families of witnesses.
* Unifying a schema with itself can change it when a name is repeated: `Widening.UnifyIsIdempotentExactly`,
  `Widening.RepeatedNameWidens`.
* `constant_time_eq` can accept inputs of different lengths, as the length difference is truncated to a byte:
  `Sha256.AcceptedExactly`, `Sha256.AcceptedIsEqualUnless`, `Sha256.UnequalAccepted`.
* `LIKE`'s `_` matches one byte, not one character: `LambdaForms.LikeIsDocumentedExactlyOnAscii`,
  `LambdaForms.UnderscoreIsOneByte`.
* A canonical path can still lead with `hosts` when it has an empty segment: `Registry.CanonLeadsWithHostsExactly`,
  `Registry.EmptySegmentHidesTheRealm`.
* A filter with a null constant means something else in SQL than in the evaluator:
  `D1Write.FilterAndSqlAgreeExactlyWhen`, `D1Write.NullConstantDiffers`.
* An ordering under `ANY` is type-checked as an equality: `Soundness.AnyOrderingIsSafeExactly`,
  `Soundness.AnyOrderingOnBoolIsAcceptedAndFails`. `~` is typed but never evaluated, whatever its operands:
  `Soundness.MatchIsAcceptedAndFails`.
* Inlining a `LET` needs its proviso: `Substitution.LetInlines`, `Substitution.CaptureChangesMeaning`. A source spelled
  as a realm passes the resolver and is then unbound, and only such a source: `ScopeAgreement.AcceptedStatementsFindTheirNames`,
  `ScopeAgreement.RealmNameIsAcceptedAndMissed`.
* The scrubber misses a password in any URL but the first, and a token with a delimiter before it:
  `RedactSpans.ScrubLeavesPasswordsExactly`, `RedactSpans.MaskedExactly`, and a line for each.

## Model

| member | source | states |
|---|---|---|
| EvaluatorPlans.EvaluatedPlansAreWellFormed | packages/qfs/crates/core/src/eval.rs:786-881 | Whatever statement is evaluated, in whatever scope, a plan that comes out has ids exactly 0..n-1 and every dependency points from a smaller id to a larger one — given only that each driver's own planned writes do. |
| EvaluatorPlans.CommitsInPlannedOrder | packages/qfs/crates/core/src/eval.rs:786-881 | The commit walk of any plan the evaluator returns visits its nodes in the order they were planned. |
| EvaluatorPlans.TransactionRunsInSourceOrder | packages/qfs/crates/core/src/eval.rs:846-881 | For every cut of an accepted `TRANSACTION`, all nodes of the members before the cut precede, in the plan's dependency order, all nodes of the members behind it. |
| EvaluatorPlans.SwitchRunsInDeclaredOrder | packages/qfs/crates/core/src/eval.rs:1403-1452 | The same for the arms of an accepted `SWITCH`, for every cut. |
| EvaluatorPlans.EarlierMembersPrecede | packages/qfs/crates/core/src/eval.rs:846-868 | Sequencing two lists of plans puts every node of the first list before every node of the second and loses no node. |
| EvaluatorPlans.MemberKeepsItsPlan | packages/qfs/crates/core/src/eval.rs:846-868 | A member anywhere in a block keeps its nodes unchanged but for the shift of their ids, and exactly its own internal order: the block neither adds nor drops an ordering inside a member. |
| EvaluatorPlans.GateIsMemberwise | packages/qfs/crates/core/src/eval.rs:869-881 | The irreversibility gate over a joined plan passes exactly when every joined part passes it. |
| EvaluatorPlans.TransactionAcceptedMemberwise | packages/qfs/crates/core/src/eval.rs:846-881 | A block is accepted if and only if each of its members is accepted as a block of its own. |
| Evaluator.TransactionLoop | packages/qfs/crates/core/src/eval.rs:846-881 | The two loops (join the members, then walk the assembled nodes) compute the block whose order, contents and acceptance the lemmas above characterize, first error included. |
| Evaluator.JoinMembers | packages/qfs/crates/core/src/eval.rs:847-868 | The accumulating loop — shift, sequence, advance the base — equals the recursive sequencing of the members' plans, stopping at the first error. |
| Evaluator.Append | packages/qfs/crates/core/src/eval.rs:863-867 | One step joins the next plan, shifted past the ids in use, behind what is there, and advances the base by the nodes added. |
| Evaluator.Gate | packages/qfs/crates/core/src/eval.rs:869-881 | The early-exit walk refuses exactly the plans with an irrevocable node. |
| Evaluator.SwitchLoop | packages/qfs/crates/core/src/eval.rs:1403-1452 | Shape, shared source and discriminant are checked before any arm is lowered, and the union loop yields the arms sequenced in declaration order or the first error in that order. |
| Evaluator.SwitchUnion | packages/qfs/crates/core/src/eval.rs:1433-1451 | Lowering arm by arm into an optional union equals sequencing all the arms' plans. |
| Evaluator.ValidateSwitchShape | packages/qfs/crates/core/src/eval.rs:1842-1872 | Counting `else` arms, looking at the last and collecting labels accepts exactly the shapes with one `else`, written last, and no label twice. |
| Evaluator.BuildWrite | packages/qfs/crates/core/src/eval.rs:1288-1327 | The builder's steps — read node, write node, edge — yield the generic plan of a write. |
| Relations.FoldQueryLoop | packages/qfs/crates/core/src/eval.rs:901-907 | The loop over the stages computes the fold, stopping at the first stage that fails. |
| Relations.FoldOpsConcat | packages/qfs/crates/core/src/eval.rs:901-907 | Folding a pipeline cut anywhere is folding the first part and then the second over its result. |
| Substitution.SubstitutionKeepsMeaning | packages/qfs/crates/core/src/eval.rs:786-881 | Writing queries out for names throughout a statement — sources, joins, set operations, effect bodies, switch arms, blocks, terminal calls — changes neither its relation, its plan nor its error, when no inner `LET` captures. |
| Substitution.LetInlines | packages/qfs/crates/core/src/eval.rs:812-816 | `LET x = v; body` is `body` with `v` written out at every free use of `x`, errors included, whenever `v` evaluates to a relation and no inner `LET` captures. |
| Substitution.CaptureChangesMeaning | packages/qfs/crates/core/src/eval.rs:812-816 | The proviso is needed: a concrete capturing `LET` for which inlining gives another relation. |
| Substitution.PipelineMeaning | packages/qfs/crates/core/src/eval.rs:901-945 | A pipeline folds after substitution to the relation or error it folded to before. |
| Substitution.ArmsMeaning | packages/qfs/crates/core/src/eval.rs:1459-1527 | Substituting in a switch's source and arms leaves every arm's plan unchanged. |
| Substitution.EffectMeaning | packages/qfs/crates/core/src/eval.rs:1178-1327 | A write whose feeding query is substituted plans the same nodes: schema, filter check, feed, payload and returning included. |
| Substitution.FreeNamesDecide | packages/qfs/crates/core/src/eval.rs:912-945 | A pipeline's relation depends on the environment at its free names only. |
| ScopeAgreement.OnlyFreeNamesAreMissed | packages/qfs/crates/core/src/eval.rs:786-945 | An evaluation that fails with an unbound name misses a free name of the statement that the environment lacks. |
| ScopeAgreement.RealmNameIsAcceptedAndMissed | packages/qfs/crates/core/src/eval.rs:916-918 | A source spelled as a reserved realm is accepted by the resolver and then unbound in evaluation. |
| Transforms.ConsentCoversTheTree | packages/qfs/crates/core/src/eval.rs:686-784 | When a statement with transform stages evaluates, its plan is a chain of one irreversible `transform.<name>` node per stage of the syntax tree, in walk order, in front of every node of the main plan, which keeps its nodes. |
| Transforms.TransactionsHoldNoTransform | packages/qfs/crates/core/src/eval.rs:700-710 | A statement that holds a block and a transform stage, wherever either stands, is never evaluated. |
| Transforms.BlocksAreTerminal | packages/qfs/crates/core/src/eval.rs:786-881 | A statement with a block evaluates, if at all, to effects, and only when the block is what it ends in. |
| Transforms.NoTransformNoConsent | packages/qfs/crates/core/src/eval.rs:686-703 | A resolvable statement without transform stages evaluates to exactly its inner evaluation: no node is added. |
| Transforms.ConsentBeforeEffects | packages/qfs/crates/core/src/eval.rs:711-735 | Sequencing the consent chain before any well-formed plan keeps ids contiguous, puts every consent node before every effect, and leaves the effects in place but for the shift. |
| Transforms.BuildConsent | packages/qfs/crates/core/src/eval.rs:742-784 | The loop that chains each node after the last equals the declared chain, or stops at the first undefined transform. |
| Transforms.Names.Statement | packages/qfs/crates/core/src/eval.rs:1776-1802 | The recursive collector, pushing into one shared list, appends exactly the transform names of the tree in walk order and changes nothing before them. |
| Transforms.Names.Pipeline | packages/qfs/crates/core/src/eval.rs:1804-1836 | The collector's walk of a pipeline: its source first, then its stages in order. |
| WriteFilter.FilterMeansLeaves | packages/qfs/crates/core/src/eval.rs:2036-2068 | A row satisfies a collectable `WHERE` tree exactly when each collected equality holds of it. |
| WriteFilter.FilterMeansCells | packages/qfs/crates/core/src/eval.rs:1992-2068 | … and exactly when each deduplicated selector cell holds: merging repeated columns loses no condition. |
| WriteFilter.SelectorIsFaithful | packages/qfs/crates/core/src/eval.rs:1992-2080 | When no equality compares two keyword constants, satisfying the filter is matching every selector cell. |
| WriteFilter.DedupKeepsOnePerColumn | packages/qfs/crates/core/src/eval.rs:2008-2027 | Deduplication leaves one cell per column and neither drops nor invents a binding; two different constants for one column are refused. |
| WriteFilter.WhereSelectorBatch | packages/qfs/crates/core/src/eval.rs:1992-2029 | The loop that fills columns and values side by side builds the selector of the collected cells, or refuses the filter. |
| ScopeAgreement.AcceptedNamesAreReachable | packages/qfs/crates/core/src/resolve.rs:320-577 | A statement the resolver accepts uses freely only names in scope and names of realms. |
| ScopeAgreement.AcceptedStatementsFindTheirNames | packages/qfs/crates/core/src/resolve.rs:320-577 | Resolver and evaluator agree: a statement accepted in a scope, evaluated in an environment with those names, can miss only a name that spells a reserved realm. |
| ResolverWalk.ResolveAll | packages/qfs/crates/core/src/resolve.rs:313-318 | The whole walk hands out its list only when it succeeds, and then it is the resolution of the statement in an empty scope. |
| ResolverWalk.Sink.Statement | packages/qfs/crates/core/src/resolve.rs:320-361 | Pushing into the shared list as it goes, the walk leaves behind exactly the calls of the statement in order behind those already there, or the first error; it never removes a call. |
| ResolverWalk.Sink.Pipeline | packages/qfs/crates/core/src/resolve.rs:366-391 | Source, then stages, with the receiver of the source threaded through. |
| ResolverWalk.Sink.Arms | packages/qfs/crates/core/src/resolve.rs:455-481 | Each arm's stages and then its gated write, arm by arm. |
| ResolverWalk.Sink.Expr | packages/qfs/crates/core/src/resolve.rs:518-577 | The walk of an expression pushes its aliases in pre-order, through every form of expression. |
| Resolver.CheckArgNames | packages/qfs/crates/core/src/resolve.rs:642-653 | No error exactly when every named argument names a declared parameter. |
| Resolver.Least | packages/qfs/crates/core/src/resolve.rs:748-767 | The smallest key exists and is unique, so of several mounts with one driver id the answer does not depend on iteration order. |
| LambdaScope.LexicalScoping | packages/qfs/crates/core/src/lambda.rs:144-269 | In environments that agree on an expression's free names it fails alike, gives the same data, or gives alike closures — through nested closures and `map`, `filter`, `reduce`. |
| LambdaScope.AlikeClosuresBehaveAlike | packages/qfs/crates/core/src/lambda.rs:293-310 | Alike closures applied to alike arguments have the same outcome, whatever the arguments. |
| LambdaScope.UnusedBindingIsInvisible | packages/qfs/crates/core/src/lambda.rs:105-129 | A binding an expression does not mention cannot change its outcome. |
| LambdaScope.ParameterShadowsCapture | packages/qfs/crates/core/src/lambda.rs:293-310 | A parameter hides a captured name of the same spelling. |
| Lambda.Eval | packages/qfs/crates/core/src/lambda.rs:144-269 | Evaluation terminates on every input with no fuel (nesting depth of captured environments, then expression), and a closure in its result is a literal over the current environment or one found there. |
| Lambda.ClosureFallsBelow | packages/qfs/crates/core/src/lambda.rs:293-310 | The closure handed to a higher-order built-in is captured strictly deeper than the environment, or is that argument's own literal: why application terminates. |
| Lambda.BindDataKeepsDepth | packages/qfs/crates/core/src/lambda.rs:105-129 | Binding plain values to parameters never deepens an environment. |
| LambdaRun.EvalExpr | packages/qfs/crates/core/src/lambda.rs:144-269 | The evaluator as it runs, loop by loop and with early returns, computes the specified outcome of every expression. |
| LambdaRun.EvalBinary | packages/qfs/crates/core/src/lambda.rs:418-455 | Short-circuiting on the left operand, then the right: same outcome, same first error. |
| LambdaRun.ApplyHigherOrder | packages/qfs/crates/core/src/lambda.rs:360-413 | `map`, `filter` and `reduce` as loops over an accumulator, with the seed and the empty collection treated as the program does. |
| LambdaRun.ApplyClosure | packages/qfs/crates/core/src/lambda.rs:293-310 | Binding parameters one at a time in a child of the captured environment equals binding them at once. |
| LambdaRun.ReduceLoop | packages/qfs/crates/core/src/lambda.rs:401-410 | The accumulator loop is the left fold of the closure over the items, stopping at its first error. |
| LambdaRun.NavigatePath | packages/qfs/crates/core/src/lambda.rs:504-531 | The loop that replaces the value by its field walks the path, a missing step giving null. |
| LambdaForms.AnyIsChain | packages/qfs/crates/core/src/lambda.rs:228-261 | `s op ANY (…)` is the chain of `OR`s of its comparisons: same value and same first error. |
| LambdaForms.BetweenIsConjunction | packages/qfs/crates/core/src/lambda.rs:220-227 | `BETWEEN` is the conjunction of its bounds, once the upper bound has a value. |
| LambdaForms.ComparisonsAgree | packages/qfs/crates/core/src/lambda.rs:580-597 | On values that compare at all, the six comparison operators agree with one another and under swapping. |
| LambdaForms.LessIsTransitive | packages/qfs/crates/core/src/lambda.rs:580-597 | `<` is transitive, across the two numeric kinds as well. |
| LambdaForms.LikeMeansSplit | packages/qfs/crates/core/src/lambda.rs:278-285 | The recursive matcher accepts exactly the subjects the pattern can be laid over piece by piece. |
| LambdaForms.LikeOnAscii | packages/qfs/crates/core/src/lambda.rs:274-285 | On ASCII subjects the byte matcher is the documented character matcher, for every pattern. |
| LambdaForms.LikeIsDocumentedExactlyOnAscii | packages/qfs/crates/core/src/lambda.rs:271-285 | A subject is matched as documented, by every pattern, if and only if it is ASCII. |
| LambdaForms.UnderscoreIsOneByte | packages/qfs/crates/core/src/lambda.rs:271-285 | Outside ASCII they differ: `_` does not match `é`, `__` does. |
| Soundness.TypeSoundness | packages/qfs/crates/core/src/typeck.rs:127-301 | An accepted expression of the covered kind (no null literals; columns described by the schema and typed by the row) evaluates to a value of its checked type, or fails with overflow or division by zero only. |
| Soundness.MembersSound | packages/qfs/crates/core/src/typeck.rs:218-227 | Searching a checked list of members finishes with a verdict or an arithmetic error. |
| Soundness.OrderingMatrixIsExact | packages/qfs/crates/core/src/typeck.rs:550-570 | On the five scalar types the evaluator computes with, the comparability matrix is exact: an ordering is accepted if and only if all values of the two types compare. |
| Soundness.AnyOrderingIsSafeExactly | packages/qfs/crates/core/src/typeck.rs:218-227 | An accepted ordering under `ANY` can be evaluated for all values of its types if and only if the subject's type is ordered. |
| Soundness.AnyOrderingOnBoolIsAcceptedAndFails | packages/qfs/crates/core/src/typeck.rs:218-227 | `false < ANY (true)` is accepted, being checked as an equality, and fails in evaluation: why the theorem asks an ordered subject of `ANY`. |
| Soundness.MatchIsAcceptedAndFails | packages/qfs/crates/core/src/typeck.rs:507-521 | `~` is typed by the checker and unsupported by the evaluator, whatever the texts. |
| TypeckRun.BindLoop | packages/qfs/crates/core/src/typeck.rs:392-412 | Rebuilding the scope parameter by parameter, with the element check at one position, binds what the declaration says or gives the first error. |
| TypeckRun.CheckArray | packages/qfs/crates/core/src/typeck.rs:170-179 | The loop checks every element and keeps the first one's type. |
| TypeckRun.CheckStruct | packages/qfs/crates/core/src/typeck.rs:180-191 | The loop pushes one nullable column per field, stopping at the first error. |
| TypeckRun.CheckLambda | packages/qfs/crates/core/src/typeck.rs:193-210 | An annotated lambda is checked with its parameters in scope at their annotations. |
| TypeckRun.CheckApplication | packages/qfs/crates/core/src/typeck.rs:373-432 | A higher-order application is checked against the element type of its collection, argument by argument. |
| TypeckRun.ArgsLoop | packages/qfs/crates/core/src/typeck.rs:357-364 | A static argument contract is enforced at exactly the positions that declare one. |
| TypeckRun.MembersLoop | packages/qfs/crates/core/src/typeck.rs:218-227 | Each member is checked against the subject, stopping at the first that does not compare. |
| Selection.LoweringKeepsMeaning | packages/qfs/crates/core/src/plan.rs:312-444 | A lowered pipeline denotes the same rows as the original, in which `/x/@A` denotes the rows of `/x` whose declared key equals A; sources, joins, sub-queries and set-operation branches included. |
| Selection.LoweredIsClean | packages/qfs/crates/core/src/plan.rs:312-347 | After lowering no selection segment is left in any source, join, sub-query or branch. |
| Selection.LoweringIsIdempotent | packages/qfs/crates/core/src/plan.rs:312-347 | Lowering a lowered pipeline changes nothing. |
| Selection.CleanIsKept | packages/qfs/crates/core/src/plan.rs:312-347 | A pipeline without selections is returned as it is. |
| Selection.LowerInPlace | packages/qfs/crates/core/src/plan.rs:312-347 | The pass over the stages, with the main source's predicate inserted in front and joins' behind, yields the lowered pipeline or the first error. |
| Selection.BuildPredicate | packages/qfs/crates/core/src/plan.rs:402-440 | Anding one test per key column in a loop yields the key predicate or the first refused value. |
| Selection.KeyPredicateMeaning | packages/qfs/crates/core/src/plan.rs:402-431 | The compiled predicate holds, under the expression evaluator, exactly on the rows that hold the key. |
| Selection.SelectedAddress | packages/qfs/crates/core/src/plan.rs:355-444 | An accepted selection is addressed by as many literals as key columns, at least one, over a base without selections; no address exactly when no segment is a selection. |
| Selection.KeyRoundTrip | packages/qfs/crates/core/src/plan.rs:375-443 | A text key tuple, percent-encoded, comma-joined and written under its base, is selected as exactly that tuple in declared order, whatever the encoder keeps. |
| Selection.AddressesAreDistinct | packages/qfs/crates/core/src/plan.rs:394-417 | Distinct tuples never share an address, even between encoders that keep different characters. |
| Percent.UnescapesExactly | packages/qfs/crates/core/src/plan.rs:467-491 | Decoding gets through exactly the strings in which every `%` is followed by two hex digits (section 2.1 of RFC 3986). |
| Percent.DecodesExactly | packages/qfs/crates/core/src/plan.rs:467-491 | A badly escaped string is always refused; otherwise the result is the unique text with the unescaped bytes, or nothing when they are not UTF-8. |
| Percent.DecodeInverts | packages/qfs/crates/core/src/plan.rs:467-491 | Decoding an encoded value gives the value back, `%` and `,` and non-ASCII text included. |
| Percent.PercentDecodeLoop | packages/qfs/crates/core/src/plan.rs:467-491 | The cursor loop over a byte buffer computes the recursive decoder. |
| HostCanon.CanonReachesEveryRead | packages/qfs/crates/core/src/plan.rs:269-303 | After canonicalization every read position of the tree renders to the router's canon of the path that stood there. |
| HostCanon.CanonEvaluatesAlike | packages/qfs/crates/core/src/plan.rs:260-303 | Canonicalizing a pipeline's paths does not change the relation it evaluates to. |
| Paths.RenderPath | packages/qfs/crates/core/src/plan.rs:504-514 | The push loop renders a leading slash and the joined segments. |
| Paths.SegmentsOfRender | packages/qfs/crates/core/src/plan.rs:504-514 | Splitting a rendered path gives its segments back, when no segment holds a slash and the first is not empty. |
| Registry.NoHistoryShadowsARealm | packages/qfs/crates/core/src/registry.rs:499-544 | However many registrations and aliases are tried in whatever order, no mount comes to lead with a reserved realm other than `sys`. |
| Registry.FreshHistoryIsGoverned | packages/qfs/crates/core/src/registry.rs:456-458 | Hence no history of a fresh registry shadows a realm. |
| Registry.HistoryOnlyAdds | packages/qfs/crates/core/src/registry.rs:499-544 | No history removes or replaces a mount. |
| Registry.LongestMountIsUnique | packages/qfs/crates/core/src/registry.rs:594-613 | The longest mount a path is under determines the route, so iteration order does not matter. |
| Registry.RoutedPathSplits | packages/qfs/crates/core/src/registry.rs:594-613 | A routed path is its mount, then slashes, then the sub-path handed to the driver, which has no leading slash. |
| Registry.NewMountIsLocal | packages/qfs/crates/core/src/registry.rs:594-613 | Adding a mount leaves the route of every path not under it unchanged. |
| Registry.MountRegistry.RouteService | packages/qfs/crates/core/src/registry.rs:594-613 | Keeping the best match while iterating the mounts in any order finds the unique longest one, or none exactly when none matches. |
| Registry.MountRegistry.Register | packages/qfs/crates/core/src/registry.rs:499-521 | The new table is the old one with the mount added, or unchanged with the error. |
| Registry.MountRegistry.RegisterAlias | packages/qfs/crates/core/src/registry.rs:528-544 | The same for an alias. |
| Registry.MountRegistry.RequireHostRealm | packages/qfs/crates/core/src/registry.rs:620-624 | The mount is marked, and no other mark changes. |
| Registry.CanonRoutesAlike | packages/qfs/crates/core/src/registry.rs:577-587 | For every path: routing it is the raw router on its canon. |
| Registry.CanonOfSegments | packages/qfs/crates/core/src/registry.rs:640-675 | For a path without empty segments the canon drops exactly a leading `/hosts/local`, or nothing. |
| Registry.CanonLeavesTheRealm | packages/qfs/crates/core/src/registry.rs:577-675 | … so it never leads with `hosts`, and routing the path, routing its canon and the raw router on the canon are one. |
| Registry.CanonLeadsWithHostsExactly | packages/qfs/crates/core/src/registry.rs:640-675 | For all paths: the canon leads with `hosts` exactly when an empty segment behind the host hides a second `hosts`. |
| Registry.EmptySegmentHidesTheRealm | packages/qfs/crates/core/src/registry.rs:640-675 | Such a path, concretely: `/hosts/local//hosts/x`. |
| Registry.PeelOfCollection | packages/qfs/crates/core/src/registry.rs:326-386 | Peeling a collection realm takes its principal and leaves the other segments as the service path. |
| Registry.PeelRebuilds | packages/qfs/crates/core/src/registry.rs:326-418 | Realm, principal and service rebuild a path spelled with a collection realm. |
| Plan.ThenSequences | packages/qfs/crates/plan/src/plan.rs:136-148 | After `then` every node of the first plan precedes every node of the second, though edges run only from its sinks to the other's roots. |
| Plan.ThenKeepsOrder | packages/qfs/crates/plan/src/plan.rs:136-148 | `then` neither adds nor drops an ordering inside the first plan. |
| Plan.ThenKeepsOrderOfSecond | packages/qfs/crates/plan/src/plan.rs:136-148 | … nor inside the second. |
| Plan.ThenIsWellFormed | packages/qfs/crates/plan/src/plan.rs:136-148 | Plans with adjoining id ranges join to a well-formed plan. |
| Plan.RootsMean | packages/qfs/crates/plan/src/plan.rs:151-157 | The roots are exactly the ids of nodes no edge leads to. |
| Plan.SinksMean | packages/qfs/crates/plan/src/plan.rs:160-166 | The sinks are exactly the ids of nodes no edge leaves. |
| Plan.WellFormedIsAcyclic | packages/qfs/crates/plan/src/plan.rs:176-205 | In a well-formed plan no node precedes itself. |
| Plan.PlanBuilder.NextId | packages/qfs/crates/plan/src/plan.rs:225-229 | Ids are handed out in steps of one. |
| Plan.PlanBuilder.Push | packages/qfs/crates/plan/src/plan.rs:232-236 | The node goes last and nothing else changes. |
| Plan.PlanBuilder.DependsOn | packages/qfs/crates/plan/src/plan.rs:239-241 | The edge runs from parent to child and nothing else changes. |
| Plan.RelabelPlan | packages/qfs/crates/core/src/eval.rs:1751-1761 | The loop over nodes and edges gives the plan shifted by `base` and the count of ids consumed. |
| Plan.RelabelKeepsOrder | packages/qfs/crates/core/src/eval.rs:1751-1761 | Relabelling carries the dependency order along exactly. |
| Plan.RelabelIsWellFormed | packages/qfs/crates/core/src/eval.rs:1751-1761 | A well-formed plan shifted by `base` occupies exactly the ids from `base` on. |
| PlanTopo.TopoOrder | packages/qfs/crates/plan/src/topo.rs:16-69 | Kahn's algorithm with an ascending ready list returns a topological order that always takes the smallest ready id, or nothing exactly when the plan has no topological order. |
| PlanTopo.WellFormedWalksInOrder | packages/qfs/crates/plan/src/topo.rs:16-69 | The walk of a well-formed plan is its ids in ascending order. |
| PlanTopo.StuckMeansNoOrder | packages/qfs/crates/plan/src/topo.rs:63-68 | When nothing is ready while nodes are left, no topological order exists. |
| PlanTopo.WellFormedHasOrder | packages/qfs/crates/plan/src/topo.rs:16-69 | A well-formed plan has a topological order. |
| PlanTopo.Release | packages/qfs/crates/plan/src/topo.rs:43-61 | Emitting a node keeps every counter equal to the node's unemitted parents and the ready list equal to the ready nodes, ascending. |
| D1Write.FilterSelectorAndSqlAgree | packages/qfs/crates/driver-cf/src/effect.rs:303-408 | For plain cells (non-null scalars, no keyword columns) the filter, the selector and the SQL predicate under its parameter list pass the same rows. |
| D1Write.FilterAndSqlAgreeExactlyWhen | packages/qfs/crates/driver-cf/src/effect.rs:303-408 | For every accepted filter: filter and SQL agree on all plain rows if and only if its cells are plain or cannot all hold. |
| D1Write.NullConstantDiffers | packages/qfs/crates/driver-cf/src/effect.rs:386-408 | A null constant is not plain: `c == null` passes a row its SQL does not. |
| D1Write.AcceptedFilterKeepsItsWhere | packages/qfs/crates/driver-cf/src/effect.rs:303-408 | An `UPDATE` or `DELETE` lowered from an accepted filter always carries that filter's whole predicate and parameters; which arguments lower at all is stated exactly. |
| D1Write.NoSelectorNoStatement | packages/qfs/crates/driver-cf/src/effect.rs:303-334 | Without a selector neither statement lowers. |
| D1Write.PredicateMeansCells | packages/qfs/crates/driver-cf/src/effect.rs:386-408 | The parameter-indexed predicate holds exactly when every cell's column equals its own parameter, in SQL's sense. |
| D1Write.BuildSelectorWhere | packages/qfs/crates/driver-cf/src/effect.rs:386-408 | The loop numbers each leaf's parameter by the list built so far and joins the leaves in order. |
| Codec.RoundTripsExactly | packages/qfs/crates/codec/src/convert.rs:26-63 | A tree decoded and encoded again is the same tree if and only if every integer in it fits `i64`. |
| Codec.RaggedRowsSurvive | packages/qfs/crates/codec/src/convert.rs:98-158 | A list of objects becomes a rectangular batch with one distinct column per name any object has, and row i encodes to object i padded with null. |
| Codec.AlignedRowEncodes | packages/qfs/crates/codec/src/convert.rs:128-158 | An object aligned to any schema holding its names encodes to the object padded to that schema. |
| Codec.CellSurvives | packages/qfs/crates/codec/src/convert.rs:128-158 | The cell a union column gets from an object encodes to the object's entry, or to null. |
| Codec.LookupsDecide | packages/qfs/crates/codec/src/convert.rs:152-191 | Two objects in key order with equal lookups are equal: why padding decides the encoded object. |
| Inference.BatchConformsExactlyWhen | packages/qfs/crates/codec/src/convert.rs:92-117 | A batch conforms to its inferred schema if and only if, under every name, what the nodes hold is uniform: of several kinds (then late-bound), or of one kind and then no integer among floats, the same names in all structs, and again uniform elements and fields at every depth. For all node lists. |
| Inference.FitExactlyWhenUniform | packages/qfs/crates/codec/src/convert.rs:98-117 | Any list of decoded values conforms to the type widened from them exactly when it is uniform. |
| Inference.WidenJoins | packages/qfs/crates/codec/src/convert.rs:98-108 | The running union says no more and no less than the rows seen so far: kinds, names, elements and which columns are ever lacking. |
| Inference.IntegerAmongFloats | packages/qfs/crates/codec/src/convert.rs:92-117 | So an integer in one row and a float in another under one name never conform, whatever the name and numbers, |
| Inference.ArrayAmongFloats | packages/qfs/crates/codec/src/convert.rs:92-117 | nor an integer and a float in one row's array, |
| Inference.RaggedStructs | packages/qfs/crates/codec/src/convert.rs:92-117 | nor structs of different names under one name. |
| Inference.InferenceIgnoresOrder | packages/qfs/crates/codec/src/convert.rs:98-117 | Batches of the same nodes, in whatever order and however often, have one schema up to the order of columns. |
| Codec.RowsToBatchLoop | packages/qfs/crates/codec/src/convert.rs:98-117 | Two passes — collect rows with the running union, then align — build the batch. |
| Codec.CollectRows | packages/qfs/crates/codec/src/convert.rs:98-110 | The running union over the rows is the union of their schemas. |
| Codec.JsonToStructLoop | packages/qfs/crates/codec/src/convert.rs:70-90 | Cells and columns are filled side by side from an object's entries. |
| Codec.RowToJsonLoop | packages/qfs/crates/codec/src/convert.rs:152-158 | The map filled column by column is the row's object in key order. |
| Codec.EncodeFields | packages/qfs/crates/codec/src/convert.rs:165-191 | Inserting field by field yields entries in key order in which each name has the value of its last field. |
| Nested.ExpandConserves | packages/qfs/crates/codec/src/nested.rs:35-90 | On a conforming batch there are as many output rows as the cells have elements (none for an empty array, one for a struct or a null), each row's stand at its own place in order, and every other column keeps its value and side. |
| Nested.ExpandKeepsWidthExactlyWhen | packages/qfs/crates/codec/src/nested.rs:35-90 | For every conforming batch, nulls included: all expanded rows have the schema's width if and only if every expanded cell fits its column (no null where several columns are due, no struct of another width under a late-bound element). |
| Nested.NullElementNarrows | packages/qfs/crates/codec/src/nested.rs:72-77 | A conforming batch whose expanded row is narrower than its schema. |
| Nested.ExpandLoop | packages/qfs/crates/codec/src/nested.rs:35-67 | The push loop over rows and elements computes the expansion. |
| Nested.PushExpanded | packages/qfs/crates/codec/src/nested.rs:49-65 | One row's outputs go behind the others, one per element. |
| Nested.SchemaIsAdvisory | packages/qfs/crates/codec/src/nested.rs:107-128 | Navigation depends on the value alone, never on the schema passed along. |
| Nested.AccessCommutesWithDecoding | packages/qfs/crates/codec/src/nested.rs:107-139 | Navigating a decoded tree is decoding the navigated tree. |
| Nested.AccessFollows | packages/qfs/crates/codec/src/nested.rs:107-128 | A path walked in two parts is the path walked at once. |
| Schemas.UnifyNames | packages/qfs/crates/types/src/unify.rs:61-103 | A name is in the unified schema exactly when it is in either side. |
| Schemas.UnifyIsDistinct | packages/qfs/crates/types/src/unify.rs:61-103 | Unifying schemas without repeated names gives one without. |
| Widening.WidenIsAbove | packages/qfs/crates/types/src/unify.rs:30-53 | The widening of two types is an upper bound of both … |
| Widening.WidenIsLeast | packages/qfs/crates/types/src/unify.rs:30-53 | … and the least one: it sits below every type both sit below. For all types, repeated names included. |
| Widening.BelowTransitive | packages/qfs/crates/types/src/unify.rs:30-53 | The order they are bounds in — unknown lowest, JSON highest, integers below floats, arrays by element, structs by column — is transitive. |
| Widening.WidenCommutes | packages/qfs/crates/types/src/unify.rs:24-53 | Widening commutes up to the order of columns, |
| Widening.WidenAssociates | packages/qfs/crates/types/src/unify.rs:30-53 | and associates up to the order of columns. |
| Widening.UnifyCommutes | packages/qfs/crates/types/src/unify.rs:61-103 | So does unifying two schemas. |
| Widening.AbsorbsExactly | packages/qfs/crates/types/src/unify.rs:32-53 | A type widened by another is unchanged if and only if the other sits below it, for all types. |
| Widening.UnifyIsIdempotentExactly | packages/qfs/crates/types/src/unify.rs:61-103 | A schema unified with itself is itself exactly when it sits below itself, which every schema without repeated names does. |
| Widening.RepeatedNameWidens | packages/qfs/crates/types/src/unify.rs:61-103 | A schema with a repeated name need not: its second column is widened against the first. |
| Widening.UnifyLookup | packages/qfs/crates/types/src/unify.rs:61-103 | Each name of the unified schema has the first column of that name on either side, widened against the other's or made nullable. |
| Sha256.Hash | packages/qfs/crates/crypto-core/src/lib.rs:129-193 | The in-place loops compute SHA-256 as sections 5.1.1 and 6.2.2 of FIPS 180-4 define it. |
| Sha256.Pad | packages/qfs/crates/crypto-core/src/lib.rs:133-139 | The push loop terminates with the padded message. |
| Sha256.PaddedIsLeastMultiple | packages/qfs/crates/crypto-core/src/lib.rs:133-139 | The padded length is the least multiple of 64 bytes with room for the `1` bit and the length. |
| Sha256.PaddingIsInjective | packages/qfs/crates/crypto-core/src/lib.rs:133-139 | Messages of any length are told apart by their padding, even where the 64-bit length wraps around. |
| Sha256.Schedule | packages/qfs/crates/crypto-core/src/lib.rs:143-155 | The buffer holds the standard's message schedule. |
| Sha256.Compress | packages/qfs/crates/crypto-core/src/lib.rs:157-184 | Sixty-four rounds over eight registers, added back word by word, are the standard's compression of the block. |
| Sha256.ProcessBlocks | packages/qfs/crates/crypto-core/src/lib.rs:142-185 | After all blocks the eight words are the standard's hash value. |
| Sha256.WriteOut | packages/qfs/crates/crypto-core/src/lib.rs:187-192 | The words are written big-endian, in order. |
| Sha256.Hmac | packages/qfs/crates/crypto-core/src/lib.rs:197-223 | The tag is that of section 2 of RFC 2104. |
| Sha256.FillPads | packages/qfs/crates/crypto-core/src/lib.rs:208-214 | Both pads are filled from the key block in one loop. |
| Sha256.ZeroPaddedKeyIsSame | packages/qfs/crates/crypto-core/src/lib.rs:197-207 | A key and the same key with zeros behind it, up to a block, make the same tag for every text. |
| Sha256.ConstantTimeEq | packages/qfs/crates/crypto-core/src/lib.rs:250-261 | Equal exactly when the lengths are congruent modulo 256 and the inputs, extended by zeros, agree byte for byte. |
| Sha256.AcceptedExactly | packages/qfs/crates/crypto-core/src/lib.rs:250-261 | That is: exactly when one input is the other with a multiple of 256 zero bytes behind it. |
| Sha256.AcceptedIsEqualUnless | packages/qfs/crates/crypto-core/src/lib.rs:250-261 | For inputs of one length, or of lengths that differ by no multiple of 256, this is equality; |
| Sha256.UnequalAccepted | packages/qfs/crates/crypto-core/src/lib.rs:250-261 | at every other difference in length there are unequal inputs that are accepted. |
| Sha256.LowByteIsResidue | packages/qfs/crates/crypto-core/src/lib.rs:253-253 | Lengths truncated to a byte agree exactly when they are congruent modulo 256. |
| Redact.ScrubScrubs | packages/qfs/crates/cmd/src/redact.rs:36-131 | For every line, in the output no marker is followed by anything but a delimiter, or the token and a delimiter, and the first URL has no password: no pass undoes an earlier one. |
| Redact.LeftAloneExactlyWhenScrubbed | packages/qfs/crates/cmd/src/redact.rs:36-131 | A line is returned unchanged if and only if it is already scrubbed. |
| Redact.ScrubIsIdempotent | packages/qfs/crates/cmd/src/redact.rs:36-131 | Scrubbing twice is scrubbing once, for every line. |
| Redact.BenignLinesAreLeftAlone | packages/qfs/crates/cmd/src/redact.rs:36-131 | A line with no marker and no user information is unchanged. |
| RedactSpans.ScrubKeepsTheRest | packages/qfs/crates/cmd/src/redact.rs:36-131 | What scrubbing keeps: each marker pass cuts its input into stretches that end in the first marker and the delimiter-free values behind them, puts a token for each value that is not empty, and keeps every stretch in order; the last pass replaces one `user:password`. |
| RedactSpans.ScanCuts | packages/qfs/crates/cmd/src/redact.rs:48-76 | The same for one pass over any text and any well-shaped markers; behind the last value no marker is left. |
| RedactSpans.UserinfoIsCut | packages/qfs/crates/cmd/src/redact.rs:109-131 | Only the text between the first `://` and its `@` is replaced, and only when it holds a `:`. |
| RedactSpans.ScrubLeavesPasswordsExactly | packages/qfs/crates/cmd/src/redact.rs:36-131 | No URL of a scrubbed line holds a password if and only if, after the marker passes, no URL behind the first does. |
| RedactSpans.PasswordsLeftExactly | packages/qfs/crates/cmd/src/redact.rs:109-131 | The same for the last pass over any text. |
| RedactSpans.MaskedExactly | packages/qfs/crates/cmd/src/redact.rs:48-76 | A pass leaves the token, or nothing, behind every marker if and only if no marker it stops at is directly followed by a delimiter. |
| RedactSpans.SecondPasswordIsKept | packages/qfs/crates/cmd/src/redact.rs:109-131 | A line whose second URL keeps its password. |
| RedactSpans.SecondSpaceKeepsTheToken | packages/qfs/crates/cmd/src/redact.rs:80-90 | A line whose token is kept because two spaces stand before it. |
| Redact.ScanIsClean | packages/qfs/crates/cmd/src/redact.rs:48-76 | After a pass no value survives behind any of its markers. |
| Redact.CleanIsFixed | packages/qfs/crates/cmd/src/redact.rs:48-76 | A pass changes nothing in text it would leave clean. |
| Redact.ScanKeepsClean | packages/qfs/crates/cmd/src/redact.rs:48-104 | A pass for one marker set keeps text clean of another set its markers never run into. |
| Redact.BearerAndSignatureAreApart | packages/qfs/crates/cmd/src/redact.rs:80-104 | The program's two marker sets are such sets: no overlap, no start inside the token, no delimiter that starts a marker. |
| Redact.ScrubUserinfoKeepsClean | packages/qfs/crates/cmd/src/redact.rs:109-131 | Replacing a URL's user information keeps text clean of both marker sets. |
| Redact.ScrubUserinfoIsIdempotent | packages/qfs/crates/cmd/src/redact.rs:109-131 | After it no user information with a password part is left in the first URL. |
| Redact.FindMarkerMeans | packages/qfs/crates/cmd/src/redact.rs:52-62 | The marker found stands where it is said to, none stands before it, and none is missed. |
| Redact.EarliestMarker | packages/qfs/crates/cmd/src/redact.rs:54-58 | Searching each marker on its own and keeping the earliest finds the first position at which any marker stands. |
| Redact.ScanLoop | packages/qfs/crates/cmd/src/redact.rs:48-76 | The cursor loop, which only advances, computes the recursive scan. |
| Redact.ScrubLine | packages/qfs/crates/cmd/src/redact.rs:36-42 | The three passes, each over the last one's output. |

## Left out

- Canonicalization and selection lowering rewrite the syntax tree in place; the model returns the rewritten
  tree, so a tree left half rewritten by an error is not captured. A `hosts` path of fewer than two segments,
  where draining would panic, is modelled as left empty.
- Plan ids are unbounded here; the program's `u32` ids wrap around after 2^32 nodes.
- Floats are `real`: no rounding, infinities or NaN. Integers keep their `i64` range and checked overflow.
- Drivers are values holding functions (schema of a path, verbs, planned writes, call checks); what a driver
  plans is assumed to have ids 0..k-1 with edges from smaller to larger ids, which the order theorems name as
  their hypothesis.
- The engine's other stages, and the reading of a base path, are parameters of `Selection.Engine`; parsing a
  float key literal is a parameter of `Selection.Planner`.
- Spans, error wording and stable error codes: errors are constructors.
- The parser, the SQL text of a predicate, pushdown partitioning, the runtime that applies plans, codecs other
  than the JSON bridge, network and storage.
- DDL bodies evaluate to the empty plan, as the evaluator treats them; the server desugaring is not modelled.
- The annotation grammar: a lambda parameter's annotation arrives parsed, `unknown` and unknown tokens refused.
- `INSERT` and `UPSERT` into D1, and the KV, queue and artifact effects: field copying.
- Type soundness for null literals, typed literals such as `DATE '…'`, calls and lambdas: values outside the
  covered kind have late-bound types, which promise nothing.
- Rendering a digest in hex; Unicode case folding and normalization (the scrubber and the keywords fold ASCII
  case only, as the program does).
- Nested.ExpandLoop: requires rows that reach the expanded column; on shorter rows the program panics.
