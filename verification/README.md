# Verified model of the decision code

This project models the pure decision code of the repository in Dafny and proves what that code is
for. Five groups are covered: the JSON Schema subset comparator, the workflow and Action compiler, the
domain dependency engine, the JSON diff and JSON Pointer layer, and three in-place audits and buffers.

`dafny verify dfyconfig.toml` checks everything.

## What is modelled

**JSON and JSON Pointer** (`JsonPointer`, `JsonValues`). JSON values are a datatype with exact rational
numbers. Python's `==`, for which `True == 1`, is kept apart from JSON equality. Pointers follow RFC 6901:
escaping and unescaping are the source's two sequential string replacements, proved equal to one-pass
coders on every string.

**The subset comparator** (`SchemaSemantics`, `SchemaRelation`, `SchemaSteps`, `SchemaPlain`,
`SchemaSoundness`, `SchemaConditions`, `SchemaClosed`, `SchemaTrees`, `SchemaCounterexamples`, `SchemaCycles`,
`SchemaProver`). Schemas are JSON values;
object identity in Python is the path of an occurrence in its document. `SchemaSemantics.Valid` gives the
handled fragment of JSON Schema Draft 2020-12 its meaning, independently of the comparator. It is defined
for documents whose `$ref` edges are ranked (`Guarded`), while `properties`, `items` and
`additionalProperties` may lead around cycles. `SchemaRelation.Compare` is `_compare` with the shared
`visited` set passed in and out; the class `SchemaProver.Comparison` grows `visited` in place and is proved
to compute the same relation and the same set. The comparator answers PROVEN on a second visit, so
soundness on cyclic documents is a simulation argument: the final `visited` set is closed under the local
checks, and a simulation only relates subset pairs.

PROVEN is unsound in general. The soundness theorems rest on five conditions, and none of them can be
dropped: for each there is a pair of documents that fails this condition, meets the other four, and on
which PROVEN is wrong.

- A failure forgiven by a left `allOf` is not met again: no left `allOf` is compared, or no reference
  resolves inside the compared schemas (`NoForgivenRevisit`, `ForgivenFailureIsUnsound`).
- A right `allOf` that decides a pair stands alone in its schema (`AllOfsStandAlone`,
  `AllOfSiblingsAreUnsound`).
- Where a plainly compared right schema uses object or array keywords, one of the two sides declares a
  `type` (`KindsDeclared`, `UntypedIsUnsound`).
- References mean in the compared schemas what they mean in the documents those are cut out of, and
  equal schemas that are compared refer to the same schemas (`ReferencesAgree`,
  `SharedReferencesAreUnsound`, `CutOutReferencesAreUnsound`).
- Where the comparator applies Python's `==`, to two schema objects or to listed values, it confuses no
  Boolean with a number (`EqualityIsFaithful`, `PythonEqualityIsUnsound`).

The conditions range over the pairs the comparator can arrive at and can be read off the two documents
before the comparison. `SchemaConditions` says when whole documents meet them, `SchemaClosed` that closed
records with bounds do, and `SchemaCycles` exhibits cyclic documents that do and are PROVEN by revisiting a
pair. Together they are sufficient; an exact condition would have to decide schema inclusion itself, which
the comparator only approximates.

**The Action compiler** (`PointerGuarantee`, `Policies`, `StatusQuery`, `StatusQueryExample`,
`StatusQueryCounterexample`, `Workflow`, `WorkflowValidator`, `WorkflowRuns`, `WorkflowScopes`, `MutationCounts`,
`SealedInputs`). The executor is represented by a run relation: either arm of a branch, every child of a parallel
step, zero to `max_items` rounds of a foreach, inner scopes dropped at their end, a step stopped by a read out
of scope, by a text that looks like a reference and is none, or by an unknown operation. Against these runs the
checker is proved both safe and exact, the mutation counts tight, and the sealed-input check to give arguments
that depend on the prepared snapshot only. `Policies` holds the disclosure enforcer. The status-query proof
composes the pointer guarantee, the enforcer and subset soundness, on schemas that may be cut out of larger
documents and refer into them.

**Domains** (`DomainGraph`, `DomainSelector`, `ImpactClosure`, `DirectImpacts`, `ImpactPropagation`). The
peeling loop decides acyclicity, the next-domain recommendation never gets stuck on an accepted map, and
the impact worklist, which mutates shared impact objects, computes a least fixpoint.

**Diff, defaults, audit, limiter** (`Diff`, `DiffWalker`, `PublicDefaults`, `ScopeAudit`,
`ActionLimits`). A diff patches either document into the other; defaults never touch supplied values; the
exclusion audit accepts exactly partitions; the request limiter is a state machine over message streams.

## Where code and documentation differ

- `schema_relation.py` calls itself sound. It is sound under the five conditions above and not otherwise;
  the model keeps the code's behaviour.
- The compiler takes a preview value for disclosed when the policy leaves its pointer alone, list positions
  included; the enforcer gives the items of a list the path of the list. So an accepted status query can find
  nothing, or a masked value, in the published preview (`StatusQueryCounterexample`). `Policies.KeptExactly`
  gives the exact condition: the policy must disclose the path without its list positions. For pointers that
  take no list step the compiler's check is this condition (`StatusQuery.DisclosedWithoutLists`).
- The executor lets a second result overwrite the first under the same id; the checker rejects such workflows
  (`WorkflowRuns.AcceptedWorkflowsBindOnce`).
- The pointer guarantee does not look at `type`, although `required` binds objects only.
  `PointerGuarantee.UntypedStepIsNoGuarantee` is an instance. `GuaranteeIsSound` holds when every object
  step on the way declares `type: object`, and `GuaranteeExactly` says that a guaranteed pointer is present
  in every instance exactly under this condition.

## Model

| member | source | states |
|---|---|---|
| JsonPointer.UnescapeIsOnePass | packages/acc-runtime/src/acc_runtime/runtime.py:912-927 | replacing `~1` and then `~0` equals a one-pass decoder, on every string |
| JsonPointer.EscapeIsOnePass | packages/acc-core/src/acc_core/compiler/diff.py:38-40 | replacing `~` and then `/` equals a one-pass encoder, on every string |
| JsonPointer.EscapeRoundTrip | packages/acc-core/src/acc_core/compiler/diff.py:38-40 | an escaped token is well formed, holds no slash and decodes to the token (RFC 6901 sections 3 and 4) |
| JsonPointer.UnescapeRoundTrip | packages/acc-core/src/acc_core/contracts/models.py:27-46 | a well escaped token is the escaping of what it decodes to |
| JsonPointer.ParsePrint | packages/acc-core/src/acc_core/contracts/models.py:45-46 | a printed pointer is accepted and parses back to its tokens, for any tokens |
| JsonPointer.PrintParse | packages/acc-core/src/acc_core/contracts/models.py:27-46 | printing the tokens of an accepted pointer gives the pointer |
| JsonPointer.PrintInjective | packages/acc-core/src/acc_core/compiler/diff.py:38-40 | different token paths print as different pointers |
| JsonPointer.ValidateJsonPointer | packages/acc-core/src/acc_core/contracts/models.py:27-42 | the scanning loops accept exactly the absolute, correctly escaped pointers |
| JsonPointer.JsonPointerTokens | packages/acc-runtime/src/acc_runtime/runtime.py:912-927 | accepts exactly the well-formed pointers without empty tokens; the tokens print back to the pointer |
| JsonPointer.DecimalRoundTrip | packages/acc-core/src/acc_core/contracts/models.py:49-64 | `int(str(i)) == i`, so list positions are named unambiguously |
| JsonValues.ResolvePointer | packages/acc-core/src/acc_core/contracts/models.py:49-64 | the loop finds the value at the token path, or nothing where the source raises `LookupError` |
| SchemaRelation.Compare | packages/acc-core/src/acc_core/contracts/schema_relation.py:454-600 | terminates on every pair of documents, cyclic references included, and only adds to `visited` |
| SchemaRelation.Combine | packages/acc-core/src/acc_core/contracts/schema_relation.py:90-104 | PROVEN exactly when all reports are, CONFLICT exactly when some report is |
| SchemaPlain.NumericBoundExact | packages/acc-core/src/acc_core/contracts/schema_relation.py:227-274 | PROVEN exactly when every number the left bound admits is admitted by the right bound |
| SchemaPlain.TypesSound | packages/acc-core/src/acc_core/contracts/schema_relation.py:160-180 | proven types: what passes the left types passes the right ones, integers counting as numbers |
| SchemaPlain.UncomparedKind | packages/acc-core/src/acc_core/contracts/schema_relation.py:573-598 | where object or array keywords are not compared, no instance of that kind passes the left types or the right side does not use the keywords |
| SchemaPlain.ValuesSound | packages/acc-core/src/acc_core/contracts/schema_relation.py:512-552 | proven `const` and `enum`: admitted values are admitted on the right, if Python's `==` confuses none of the listed values |
| SchemaPlain.FieldStep | packages/acc-core/src/acc_core/contracts/schema_relation.py:302-382 | when the object comparison is proven, each field of an accepted object satisfies the schema the right side applies to it |
| SchemaPlain.PlainStep | packages/acc-core/src/acc_core/contracts/schema_relation.py:512-600 | the keyword-by-keyword checks together carry an instance from left to right |
| SchemaSteps.SameMeaning | packages/acc-core/src/acc_core/contracts/schema_relation.py:477-478 | equal schemas accept the same instances when the references in them lead to the same schemas |
| SchemaSteps.FiniteStep | packages/acc-core/src/acc_core/contracts/schema_relation.py:136-157 | a left schema with listed values is a subset when each candidate it accepts is accepted on the right |
| SchemaSteps.LeftUnionStep | packages/acc-core/src/acc_core/contracts/schema_relation.py:385-409 | a left `anyOf` or `oneOf` is a subset when each branch is |
| SchemaSteps.RightAllStep | packages/acc-core/src/acc_core/contracts/schema_relation.py:410-424 | a right `allOf` that stands alone is met when each branch is |
| SchemaSteps.LeftAllStep | packages/acc-core/src/acc_core/contracts/schema_relation.py:425-438 | a left `allOf` is a subset when one branch is |
| SchemaSteps.RefStep | packages/acc-core/src/acc_core/contracts/schema_relation.py:484-511 | comparing what references name carries over to the referring schemas |
| SchemaSoundness.ProvenRunJustifies | packages/acc-core/src/acc_core/contracts/schema_relation.py:480-483 | every pair a proven run leaves in `visited` passes its own checks and depends on visited pairs only |
| SchemaSoundness.SimulationIsSound | packages/acc-core/src/acc_core/contracts/schema_relation.py:454-600 | a set of pairs closed under the local checks relates only schemas where left implies right, by induction on instance and ranks, for schemas cut out of any documents |
| SchemaSoundness.CyclicSoundness | packages/acc-core/src/acc_core/contracts/schema_relation.py:603-611 | PROVEN on possibly cyclic documents: every value valid on the left is valid on the right |
| SchemaTrees.TreeRun | packages/acc-core/src/acc_core/contracts/schema_relation.py:454-600 | where no reference resolves inside the compared schemas a run from a fresh pair touches only pairs below it, so a forgiven failure cannot be met again, and its PROVEN is sound |
| SchemaTrees.TreeSoundness | packages/acc-core/src/acc_core/contracts/schema_relation.py:385-600 | PROVEN over the whole handled vocabulary, left `allOf` included, where no reference resolves inside the compared schemas |
| SchemaTrees.SubsetSoundness | packages/acc-core/src/acc_core/contracts/schema_relation.py:603-611 | the two soundness theorems as one |
| SchemaTrees.CutOutSubset | packages/acc-core/src/acc_core/compiler/actions.py:395-437 | soundness for schemas cut out of larger documents, references into those documents included |
| SchemaConditions.ReachExists | packages/acc-core/src/acc_core/contracts/schema_relation.py:454-600 | the pairs of schema objects of two documents are closed under the comparator's steps, so the conditions always have a set to range over |
| SchemaConditions.WholeDocumentsQualify | packages/acc-core/src/acc_core/contracts/schema_relation.py:603-611 | two whole documents meet the conditions when no pair is decided by a right `allOf` or left untyped, shared references agree and `==` is faithful |
| SchemaCounterexamples.UntypedIsUnsound | packages/acc-core/src/acc_core/contracts/schema_relation.py:573-598 | two untyped schemas, PROVEN although `required` is never compared: only the condition on declared types fails |
| SchemaCounterexamples.PythonEqualityIsUnsound | packages/acc-core/src/acc_core/contracts/schema_relation.py:477-478 | `const: true` against `const: 1` is PROVEN: only faithful equality fails |
| SchemaCounterexamples.AllOfSiblingsAreUnsound | packages/acc-core/src/acc_core/contracts/schema_relation.py:410-424 | a right `allOf` hides its sibling `type`: only the condition on right `allOf` fails |
| SchemaCounterexamples.SharedReferencesAreUnsound | packages/acc-core/src/acc_core/contracts/schema_relation.py:477-478 | equal text, one reference string, two meanings: only the condition on references fails |
| SchemaCounterexamples.CutOutReferencesAreUnsound | packages/acc-core/src/acc_core/contracts/schema_relation.py:603-611 | a schema compared outside its document loses the meaning of its references: only the condition on references fails |
| SchemaCounterexamples.ForgivenFailureIsUnsound | packages/acc-core/src/acc_core/contracts/schema_relation.py:425-438 | a failed branch of a left `allOf` leaves pairs behind that read PROVEN in the next branch: only the condition on forgiven failures fails |
| SchemaCycles.CyclicDocumentsAreCovered | packages/acc-core/src/acc_core/contracts/schema_relation.py:480-511 | endlessly nested lists under two names: all conditions hold, PROVEN comes from a revisited pair, and the subset holds |
| SchemaConditions.FaithfulWhenUnmixed | packages/acc-core/src/acc_core/contracts/schema_relation.py:477-552 | Python's `==` confuses nothing where no name holds a Boolean in one schema and a number in the other, `additionalProperties: false` beside `minimum: 0` included |
| SchemaClosed.ClosedRecordsAreCovered | packages/acc-core/src/acc_core/contracts/schema_relation.py:603-611 | two closed records with a bounded member meet every condition of soundness, whatever the bounds |
| SchemaConditions.FaithfulWithoutBooleans | packages/acc-core/src/acc_core/contracts/schema_relation.py:477-478 | documents without Booleans never confuse Python's `==` |
| SchemaProver.CombineReports | packages/acc-core/src/acc_core/contracts/schema_relation.py:90-104 | the update loop combines as specified |
| SchemaProver.ResolveLocalRef | packages/acc-core/src/acc_core/contracts/schema_relation.py:107-116 | the loop finds what the reference names, or nothing |
| SchemaProver.Comparison.ComparePair | packages/acc-core/src/acc_core/contracts/schema_relation.py:454-511 | relation and final `visited` are those of the specification |
| SchemaProver.Comparison.CompareReferences | packages/acc-core/src/acc_core/contracts/schema_relation.py:484-511 | the reference part runs the reference plan on the shared `visited` |
| SchemaProver.Comparison.CompareCombinations | packages/acc-core/src/acc_core/contracts/schema_relation.py:385-451 | decides exactly the pairs with a combinator, running their plan; otherwise leaves `visited` alone |
| SchemaProver.Comparison.CompareObjects | packages/acc-core/src/acc_core/contracts/schema_relation.py:302-382 | runs `required`, the two sorted loops over properties and `additionalProperties` on the shared `visited`: final set as specified, reports of the same verdict |
| SchemaProver.Comparison.CompareKeywords | packages/acc-core/src/acc_core/contracts/schema_relation.py:512-600 | runs the plain plan on the shared `visited` |
| SchemaProver.CompareSchemas | packages/acc-core/src/acc_core/contracts/schema_relation.py:603-611 | the mutable comparison returns the specified relation |
| PointerGuarantee.DereferenceSchema | packages/acc-core/src/acc_core/compiler/actions.py:165-184 | the loop follows references as specified and stops on repetition |
| PointerGuarantee.DereferenceMeaning | packages/acc-core/src/acc_core/compiler/actions.py:165-184 | following references changes no instance's validity |
| PointerGuarantee.SchemaAtDataPointer | packages/acc-core/src/acc_core/compiler/actions.py:187-205 | the loop selects the sub-schema at the pointer |
| PointerGuarantee.SchemaPointerIsGuaranteed | packages/acc-core/src/acc_core/compiler/actions.py:208-235 | the loop decides the guarantee predicate |
| PointerGuarantee.GuaranteeIsSound | packages/acc-core/src/acc_core/compiler/actions.py:187-235 | where object steps declare `type: object`, every instance of a guaranteed schema has a value at the pointer, and it satisfies the selected sub-schema |
| PointerGuarantee.GuaranteeExactly | packages/acc-core/src/acc_core/compiler/actions.py:208-235 | a guaranteed pointer into a satisfiable schema is present in every instance if and only if every object step on the way declares `type: object`, provided the first one that does not accepts some value without the child |
| PointerGuarantee.OpenTypeEscapes | packages/acc-core/src/acc_core/compiler/actions.py:225-234 | a step without `type`, or with `null`, `boolean` or `string` beside `object`, does accept such a value |
| PointerGuarantee.PutValid | packages/acc-core/src/acc_core/compiler/actions.py:187-205 | an instance stays valid when the child a step selects is replaced by another instance of the selected sub-schema |
| PointerGuarantee.UntypedStepIsNoGuarantee | packages/acc-core/src/acc_core/compiler/actions.py:225-234 | a guaranteed pointer into an untyped schema that a valid instance does not have |
| Policies.FilterNode | packages/acc-runtime/src/acc_runtime/policies/enforcer.py:121-168 | the loops over members and items compute the specified filtered value |
| Policies.DisclosesExactly | packages/acc-core/src/acc_core/compiler/actions.py:255-262 | the compiler's disclosure check holds of a path exactly when the enforcer stops at no path above or below it |
| Policies.KeptExactly | packages/acc-runtime/src/acc_runtime/policies/enforcer.py:66-83 | along given tokens the enforcer leaves every output unmodified if and only if the policy discloses the path without its list positions |
| Policies.PublishedIsAllowed | packages/acc-runtime/src/acc_runtime/policies/enforcer.py:121-168 | whatever the output was, each value in the published one stands at a readable path that is not denied |
| StatusQueryCounterexample.AcceptedQueryDeliversNothing | packages/acc-core/src/acc_core/compiler/actions.py:389-403 | an accepted query whose one required input finds nothing in the published preview of a valid result |
| StatusQuery.DisclosedWithoutLists | packages/acc-core/src/acc_core/compiler/actions.py:389-403 | for a preview pointer without list steps acceptance implies that the enforcer's path is disclosed |
| StatusQuery.GuaranteedLeads | packages/acc-core/src/acc_core/compiler/actions.py:208-235 | in every instance a guaranteed pointer leads through lists exactly where the schema has arrays |
| StatusQuery.FindObjection | packages/acc-core/src/acc_core/compiler/actions.py:335-435 | composes the verified pointer walks and the verified comparison into the first objection to a binding |
| StatusQuery.BindingProof.Prove | packages/acc-core/src/acc_core/compiler/actions.py:297-471 | appends exactly the diagnostics of the bindings, the success field and the unbound targets, in this order |
| StatusQuery.PreviewSatisfiesItsSchema | packages/acc-core/src/acc_core/compiler/actions.py:265-294 | the preview taken out of a valid Operation result satisfies the preview schema, references read in the Operation's whole output document |
| StatusQuery.BindingDelivers | packages/acc-core/src/acc_core/compiler/actions.py:331-437 | a binding nothing is objected to delivers a value its target accepts, for every sealed input and every preview as the enforcer publishes it, references in both schemas included, if the policy discloses the path without list positions |
| StatusQuery.AcceptedSuccessFieldIsPresent | packages/acc-core/src/acc_core/compiler/actions.py:440-460 | no diagnostics: every output of the queried Operation has the success field, and the declared values satisfy its schema where that stands without references |
| StatusQuery.AcceptedQueryIsConstructible | packages/acc-core/src/acc_core/compiler/actions.py:297-471 | no diagnostics: every required target the Runtime does not own is bound, and each binding delivers an accepted value |
| StatusQueryExample.SomeQueryIsAccepted | packages/acc-core/src/acc_core/compiler/actions.py:297-471 | a query with a required input that meets every condition of the theorem and is accepted |
| StatusQuery.ImplicitBindingReadsItsName | packages/acc-core/src/acc_core/compiler/actions.py:318-332 | an implicit binding reads the input of its own name, whatever characters the name holds |
| WorkflowValidator.Validator.ValidateValue | packages/acc-core/src/acc_core/compiler/ir.py:195-246 | adds exactly the diagnostics of the strings nested in the value |
| WorkflowValidator.Validator.RegisterStepId | packages/acc-core/src/acc_core/compiler/ir.py:314-333 | records the id, reporting a second registration |
| WorkflowValidator.Validator.ValidateStep | packages/acc-core/src/acc_core/compiler/ir.py:336-561 | diagnostics, seen ids and dependencies grow as specified |
| WorkflowValidator.Validator.ValidateWorkflow | packages/acc-core/src/acc_core/compiler/ir.py:564-595 | each step's id becomes available to the steps after it; dependencies are the operations called |
| WorkflowRuns.AcceptedWorkflowsRunSafely | packages/acc-core/src/acc_core/compiler/ir.py:336-595 | every run of an accepted workflow completes: each read finds its step or root, no text is a malformed reference, each called operation is there |
| WorkflowRuns.AcceptedWorkflowsBindOnce | packages/acc-core/src/acc_core/compiler/ir.py:314-333 | on no run of an accepted workflow does a step bind an id its scope already holds |
| WorkflowScopes.StuckExactly | packages/acc-runtime/src/acc_runtime/execution/executor.py:151-415 | whatever else is reported, some run raises exactly when a read out of scope, an invalid reference or an unknown operation is reported |
| WorkflowScopes.AcceptedExactlyWhenNoRunIsStuck | packages/acc-core/src/acc_core/compiler/ir.py:125-595 | a workflow is accepted exactly when no run gets stuck and neither a duplicate id nor an overridden binding is reported |
| MutationCounts.MutationPathCounts | packages/acc-core/src/acc_core/compiler/actions.py:531-559 | the loop computes the count set |
| MutationCounts.CountRealised | packages/acc-core/src/acc_core/compiler/actions.py:531-559 | every count in the set is the count of some run |
| MutationCounts.RunWithin | packages/acc-core/src/acc_core/compiler/actions.py:531-559 | every run's count lies between two counts of the set |
| MutationCounts.SingleMutationExactly | packages/acc-core/src/acc_core/compiler/actions.py:656-672 | the set is `{1}` exactly when every run mutates exactly once |
| MutationCounts.FixedCountLoopsNothing | packages/acc-core/src/acc_core/compiler/actions.py:531-559 | a one-element set rules out mutations inside foreach on every run |
| SealedInputs.CollectSites | packages/acc-core/src/acc_core/compiler/actions.py:474-524 | the loops collect the call sites with their containers |
| SealedInputs.CallsHaveSites | packages/acc-core/src/acc_core/compiler/actions.py:474-524 | every mutating call of a run comes from a collected site, and there are as many as the run mutates |
| SealedInputs.MutationIsSealed | packages/acc-core/src/acc_core/compiler/actions.py:686-727 | both proofs accepted: the one mutating call's arguments evaluate alike in any two states with the same prepared snapshot |
| DomainGraph.StuckHasCycle | packages/acc-core/src/acc_core/domains/models.py:212-219 | domains none of which can be removed contain a cycle |
| DomainGraph.RankExcludesCycle | packages/acc-core/src/acc_core/domains/models.py:210-221 | a ranked graph has no cycle |
| DomainGraph.Peel | packages/acc-core/src/acc_core/domains/models.py:210-221 | accepts exactly the graphs with a topological rank, which are exactly those without a cycle |
| DomainGraph.FirstRepetition | packages/acc-core/src/acc_core/domains/models.py:191-201 | the growing set finds a repeated candidate exactly when there is one |
| DomainGraph.ValidateMap | packages/acc-core/src/acc_core/domains/models.py:174-222 | accepts exactly the valid maps; a cycle report means a cycle |
| DomainSelector.VerifiedCompletedDomainIds | packages/acc-core/src/acc_core/cli/domains.py:72-90 | the loop collects exactly the domains with an own, confirmed, completed decision of the referenced digest |
| DomainSelector.NextDomain | packages/acc-core/src/acc_core/cli/domains.py:152-191 | no recommendation exactly when nothing is selectable, else the least selection key |
| DomainSelector.NothingNextExactlyWhenComplete | packages/acc-core/src/acc_core/cli/domains.py:152-191 | on an accepted map nothing is recommended exactly when every domain is verified completed |
| DomainSelector.DependenciesComeFirst | packages/acc-core/src/acc_core/cli/domains.py:152-191 | in any run of following recommendations each domain is still open and comes after its dependencies |
| DomainSelector.RunsVisitEveryDomainOnce | packages/acc-core/src/acc_core/cli/domains.py:152-191 | no domain is recommended twice, and a run is finished exactly when it visited all remaining domains |
| DomainSelector.CompletingVerifies | packages/acc-core/src/acc_core/cli/domains.py:72-90 | recording a confirmed completed decision for a domain verifies it and changes no other domain's completion |
| ImpactClosure.ClosureIsClosed | packages/acc-core/src/acc_core/domains/impact.py:505-545 | in the closure nothing is left to pass on |
| ImpactClosure.ClosureIsLeast | packages/acc-core/src/acc_core/domains/impact.py:494-545 | the closure lies below every closed table above the direct impacts |
| ImpactClosure.FlowsAlong | packages/acc-core/src/acc_core/domains/impact.py:509-545 | along any path of dependents a closed table carries everything from start to end, inherited axis names included |
| ImpactClosure.LeastAt | packages/acc-core/src/acc_core/domains/impact.py:494-545 | at each domain a closed table holds all impacted ancestors, their evidence and their axes |
| ImpactPropagation.DeliveryProgresses | packages/acc-core/src/acc_core/domains/impact.py:528-545 | a delivery that changes a set size leaves fewer facts to be found, so the worklist ends |
| ImpactPropagation.CollectDependents | packages/acc-core/src/acc_core/domains/impact.py:500-503 | the loops turn the dependencies around |
| ImpactPropagation.DomainImpact.Absorb | packages/acc-core/src/acc_core/domains/impact.py:529-544 | the impact object takes over all facts; the set sizes tell exactly whether it changed |
| ImpactPropagation.ImpactTable.Deliver | packages/acc-core/src/acc_core/domains/impact.py:509-545 | one delivery changes the dependent's impact only, and reports exactly whether the table changed |
| ImpactPropagation.ImpactTable.PropagateDependencies | packages/acc-core/src/acc_core/domains/impact.py:494-545 | whichever queued domain is served next, the worklist ends with exactly the closure: reachable domains, impacted ancestors, evidence and inherited axes |
| ImpactPropagation.ImpactTable.CollectDirect | packages/acc-core/src/acc_core/domains/impact.py:449-491 | the direct impacts of exactly the matching bindings, with the matched references and digests |
| DirectImpacts.RecordedExactly | packages/acc-core/src/acc_core/domains/impact.py:462-486 | a domain is directly impacted exactly by its matching bindings, whose evidence, axes and candidates it holds |
| DirectImpacts.AffectedExactly | packages/acc-core/src/acc_core/domains/impact.py:548-632 | a domain is affected exactly when a matching binding lies in it or upstream of it |
| DirectImpacts.EvidenceExactly | packages/acc-core/src/acc_core/domains/impact.py:548-632 | an affected domain lists exactly the evidence of those bindings |
| DirectImpacts.SecurityRelevantExactly | packages/acc-core/src/acc_core/domains/impact.py:78-80 | an impact is security relevant exactly when one of those bindings is and names an axis |
| Diff.PatchRestores | packages/acc-core/src/acc_core/compiler/diff.py:43-102 | applying the difference of two documents to the first gives the second |
| Diff.WalkMirrors | packages/acc-core/src/acc_core/compiler/diff.py:43-80 | comparing the other way round swaps added and removed in order and turns every edit around |
| Diff.MirrorUndoes | packages/acc-core/src/acc_core/compiler/diff.py:83-102 | the mirrored difference takes the second document back to the first |
| Diff.NoChangesExactlyWhenEqual | packages/acc-core/src/acc_core/compiler/diff.py:96-102 | the three lists are empty exactly when the documents are equal |
| DiffWalker.ParsePrinted | packages/acc-core/src/acc_core/compiler/diff.py:38-40 | printed paths parse back, so printing loses nothing |
| DiffWalker.ChangeLists.WalkDiff | packages/acc-core/src/acc_core/compiler/diff.py:43-80 | the recursion appends the printed changes to the three lists |
| DiffWalker.SemanticDiff | packages/acc-core/src/acc_core/compiler/diff.py:83-102 | reports a change exactly when there is one; the printed lists patch either document into the other |
| PublicDefaults.SuppliedValuesStay | packages/acc-runtime/src/acc_runtime/runtime.py:981-1002 | no supplied value changes at any path; objects only gain members |
| PublicDefaults.TargetsPresentUnlessBlocked | packages/acc-runtime/src/acc_runtime/runtime.py:981-1002 | a target is missing from the result exactly when a proper prefix of it holds a non-object |
| PublicDefaults.OpenTargetTakesDefault | packages/acc-runtime/src/acc_runtime/runtime.py:999-1001 | a missing, unblocked target receives its default |
| PublicDefaults.Idempotent | packages/acc-runtime/src/acc_runtime/runtime.py:981-1002 | applying the defaults twice is applying them once |
| PublicDefaults.Dict.SetDefault | packages/acc-runtime/src/acc_runtime/runtime.py:986-1001 | one round edits the nested dictionaries in place to the specified value |
| PublicDefaults.ApplyPublicDefaults | packages/acc-runtime/src/acc_runtime/runtime.py:981-1002 | a deep copy with all defaults applied in order; the arguments are not touched |
| ScopeAudit.IndexRoutes | skills/acc-engineer/scripts/scope_audit.py:99-112 | the loop builds the index |
| ScopeAudit.IndexedIsFirst | skills/acc-engineer/scripts/scope_audit.py:99-112 | the index holds exactly the identified routes, each at its first position |
| ScopeAudit.TwoWaysIsPartition | skills/acc-engineer/scripts/scope_audit.py:586-645 | the two one-way conditions together are exactly a partition |
| ScopeAudit.AuditRules | skills/acc-engineer/scripts/scope_audit.py:524-611 | the first loop finds nothing exactly when the rules are well formed and list only their own excluded routes |
| ScopeAudit.AuditExclusionRules | skills/acc-engineer/scripts/scope_audit.py:506-646 | in system-complete mode well-formed rules raise no issue exactly when their lists partition the eligible excluded routes, each under the rule it names |
| ActionLimits.AcceptedExactly | packages/acc-adapter-sdk/src/acc_adapter_sdk/server/__init__.py:193-204 | a body is accepted exactly when it is the concatenation of all chunks up to the last and fits the limit |
| ActionLimits.RefusedExactly | packages/acc-adapter-sdk/src/acc_adapter_sdk/server/__init__.py:198-201 | a request is refused as too large exactly when some chunk carries the total over the limit |
| ActionLimits.FittingIsLongest | packages/acc-adapter-sdk/src/acc_adapter_sdk/server/__init__.py:222-228 | what is buffered is the longest beginning of the response that fits the limit |
| ActionLimits.RepliesConcatenate | packages/acc-adapter-sdk/src/acc_adapter_sdk/server/__init__.py:209-216 | whatever the application reads, the chunks it receives concatenate to the request body |
| ActionLimits.Exchange.ReadRequest | packages/acc-adapter-sdk/src/acc_adapter_sdk/server/__init__.py:193-204 | the growing buffer never exceeds its limit and ends as specified |
| ActionLimits.Exchange.BoundedSend | packages/acc-adapter-sdk/src/acc_adapter_sdk/server/__init__.py:222-228 | after every message the buffered response fits the limit and `exceeded` says whether the whole does |
| ActionLimits.ControlsPresent | packages/acc-adapter-sdk/src/acc_adapter_sdk/server/__init__.py:259-277 | true exactly when both controls stand in a header or in the parsed body and are not empty |
| ActionLimits.PlaceIsLookup | packages/acc-adapter-sdk/src/acc_adapter_sdk/server/__init__.py:280-290 | the body pointer finds what RFC 6901 says, except that list positions may have leading zeros |
| ActionLimits.Handle | packages/acc-adapter-sdk/src/acc_adapter_sdk/server/__init__.py:188-235 | for every request and every behaviour of the application: it starts only on a complete body with both controls, and the client gets its messages unchanged, one error response, or nothing after a disconnect or when the application raises |

## Left out

- Numbers are exact rationals: `1` and `1.0` are one value, so the diff's type test between `int` and `float`, and bounds written as floats where the source wants integers, are not distinguished.
- Keywords outside the comparator's handled vocabulary (`pattern`, `format`, `if`, `$dynamicRef` and the like) have no meaning in the model. The comparator answers UNKNOWN on a pair that holds them, but where it tries the listed values of a left schema it calls the JSON Schema library, which applies such keywords nested on the right: with `const: {"a": "x"}` against `properties: {a: {pattern: "^y$"}}` the code answers CONFLICT and the model PROVEN.
- `$id` rebasing and remote references: only `#/...` references resolve, as in the comparator itself.
- Python object identity is the path of an occurrence; one dictionary object placed at two positions of a document is not modelled.
- `isdecimal` on list positions accepts ASCII digits without leading zeros only.
- Texts, pointers and order of findings and diagnostics, except where the order is part of a claim; a set of codes stands for the workflow diagnostics.
- StatusQuery.BindingProof.Prove: whether a declared success value satisfies a field schema that holds references, cut out of its document, is asked of the JSON Schema library, which is a parameter.
- StatusQuery.AcceptedQueryIsConstructible: the policy must disclose preview paths without their list positions, which the compiler does not check (see above), and the compared sub-schemas must meet the comparator's conditions in their documents.
- Policies.FilterNode: the digest of a redacted value is a parameter, SHA-256 being outside the model; `authorize` is left out.
- WorkflowScopes.StuckExactly: a read succeeds when its root or step is there. Whether the value read has the fields the path names, is a list or an object where a step wants one, and what operations and assertions answer depends on data.
- PointerGuarantee.GuaranteeExactly: the typed steps before an untyped one are without `const`, `enum` and combinators, which the source does not look at and which can force a value in other ways.
- The workflow executor is represented by its run relation; retries, timeouts, concurrency inside a parallel step and the text of emitted values are not.
- SealedInputs.MutationIsSealed: covers execution mode `single`, where exactly one mutation is demanded.
- PublicDefaults.Dict.SetDefault: the source's inner loop over the target is a recursion over the nested dictionaries.
- The order in which Python iterates dictionaries and sets: loops over them take keys in sorted or arbitrary order, and no claim depends on it.
- ImpactPropagation.ImpactTable.PropagateDependencies: asks that no domain depends on itself, which the domain map rejects; how evidence bindings are built from contracts and inventories is not modelled.
- Decision and report digests are opaque values; SHA-256 and canonical JSON bytes are not modelled.
- Field-shape validation by Pydantic, identifier patterns, readiness analysis, change requests and coverage reports.
- `_resolve_local_schema_reference` and the validation of default targets at start-up; the model begins with parsed targets.
- ActionLimits.Handle: `json.loads`, `str.casefold` and the decoding of header bytes are parameters, and finding the safety contract for a route is left out.
- The Action coordinator, stores, approval authority, gateway, HTTP provider, file and database access, and command-line wiring.
