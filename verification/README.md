# grafast-py: planning, execution, completion and delivery, verified

grafast-py plans a GraphQL operation into a DAG of batched steps, rewrites the DAG, runs it once per bucket of parent
objects, completes values in batches and, for `@defer` and `@stream`, delivers the rest incrementally. Nearly every
stage promises to be indistinguishable from a simpler one. This project models those stages in Dafny and proves the
promises -- or, where one does not hold of the code, the exact condition under which it does.

`dafny verify dfyconfig.toml` checks everything.

## How it is organised

| files | stage |
|---|---|
| `StepGraph`, `Ordering`, `Dag`, `Registration`, `OptimizeRounds` | the plan: steps, registering them, the reverse-edge index, `eradicate`, the optimize loop, deduplication, tree-shaking (class `Plan`) |
| `RewriteMeaning` | what the rewrites do to values: a step denotes a value, for every interpretation of the operations |
| `Layers`, `StepModel`, `ExecutePlan`, `HoistLimits` | hoisting, layer population, running a bucket, the index maps between buckets, and how far hoisting is right |
| `TreeMeaning`, `OptimizeMeaning` | trees over two plans that mean the same; what the optimize hooks may do to a planned tree |
| `Finalize`, `FinalizeMeaning`, `RewriteLimits` | `finalize_plan` end to end, and what the finalized plan yields; two plans the passes change |
| `Completion`, `CompletionLaws`, `CompletionBatch` | batched completion against the value-by-value one and the GraphQL specification |
| `Constraints`, `PlanReads`, `PlanRecording`, `PlanVariants`, `DirectiveScan`, `Cache` | plan-cache constraints, the recording reads, hits against fresh plans, the LRU cache |
| `CoreSteps`, `EachRuns` | the batch steps: load, each, node |
| `DeferPartition` | the `@defer` partition |
| `RecordTree`, `GroupRuns`, `Waves`, `RecordGraph` | the record graph (class `IncGraph`): the tree of fragments and streams, the groups they wait for, promotion waves |
| `WireLog`, `Publisher` | the wire protocol and the publisher that keeps it |
| `Sequences`, `Wrappers` | shared helpers |
| `Keyset`, `Paging` | the keyset comparator under SQL's three-valued logic, and pages |

Code that changes things in place is a class or a method over the same state (`Plan`, `PlanCache`, `ContextGate`,
`TrackedVariables`, `FieldArgs`, `FieldCompletion`, `IncGraph`, `Publisher`, the loops of the batch steps), proved
against functions and predicates about which the laws are then stated. A step's operation is an uninterpreted function
of its dependencies' values, so every statement about values holds for all entrywise deterministic steps. A bucket
nest -- which child row belongs to which parent row -- is an arbitrary function of what the parent bucket computed; only
where no list leads to the child its objects are the field's own column, entry by entry.
Completions of groups and streams arrive in any order. A plan resolver is an arbitrary decision tree over the tracked
reads.

## Where the code and its promise part

1. Hoisting (`plan.py:1138-1193`) takes a step up as soon as its dependencies are produced above, without asking what
   they compute from. When deduplication has merged a dependency into the layer above and that dependency reads the
   list whose items are the child's objects, the lifted column is another one. This happens only below a list: at a
   field without one the child's objects are entries of the field's own column, which is at hand above, and a
   well-scoped plan without lists is unchanged (`HoistLimits.NoListsNoSeams`). Hoisting changes no run, for all buckets
   and all objects such fields can have, exactly when the planned tree is seamless (`HoistLimits.HoistingIsExact`), which
   is decided before anything is hoisted; below a list that means reading no other bucket's object
   (`HoistLimits.SeamlessUnderAList`), and a plan whose layers take only constants from above is seamless
   (`HoistLimits.SharingConstantsIsSeamless`). `RewriteLimits.LayOutFriends` lays out an operation whose two runs agree
   exactly when its inner field is no list.
2. Deduplication may merge a layer's own step with the very step that bounds the layer; inside that bucket the merged
   step then reads the bucket's object. At one object it keeps a value exactly when nothing it computes from is alike to
   the boundary in the planned graph, or the object is what the boundary computes from no object at all
   (`RewriteMeaning.DedupKeepsBucketValueIff`) -- which a list's items, being anything, are not
   (`RewriteMeaning.DedupKeepsBucketValuesIff`, `RewriteLimits.DedupItsOwnList`), and the object of a field without a
   list is when its step reads nothing of its bucket. Over a whole tree that is exact too
   (`FinalizeMeaning.MergingIsExact`). When 1 and 2 do not arise, running the finalized plan yields what was planned
   (`FinalizeMeaning.FinalizedRunIsPlanned`, `FinalizeMeaning.FinalizedRunIsPlannedIff`).
3. `deduplicate` is documented to keep the lowest id of a class; the code keeps the first in dependency order
   (`dag.py:326-345`; `Dag.Plan.Deduplicate`). The model follows the code. Its outer loop never needs a second pass to
   merge more (`Dag.Plan.DedupPass`).
4. An orphaned write is attached to every layer bounded by its owner, so it runs more than once when two fields share
   a boundary step (`Finalize.OrphanRunsWithItsOwner`).
5. `values_equal` compares the types of the two values but not of what they contain, so `[1]`, `[True]` and `[1.0]`
   replay as equal (`Constraints.PinsExactly`, `PlanVariants.AliasGoesStale`).
6. A raw read nets out once the argument's placeholder is taken, so a resolver that branches on that value is served
   stale (`PlanVariants.PeekingGoesStale`); and one that reads it by item is served where planning afresh would raise
   (`PlanVariants.OmittedItemIsServed`, exactly then by `PlanVariants.FieldHitIsFreshIff`; for any one
   resolver, `PlanVariants.FieldHitIsFreshExactly`).
7. A stream revealed by a group that belongs to several fragments hangs off all of them, and is announced again by each
   completion that takes one of them. The protocol is kept exactly when no two completions of a run take fragments that
   share a stream (`Publisher.Publisher.ProtocolIff`); handling one group keeps it, as long as no earlier
   stream still waits, exactly when the group reveals no stream or finishes at most one of its fragments
   (`Publisher.Publisher.HandleCompletedGroup`); `Publisher.SharedStreamBreaksTheProtocol`
   is a run that breaks it.
8. The page flag of the side a request came from says only that a cursor was sent; when every row there has been deleted
   since, it is true though nothing remains (`Paging.FetchPage` says exactly when it is right).
9. `LoadStep` sends one key for all that Python's dictionary cannot tell apart, so `1`, `True` and `1.0` share a result
   (`CoreSteps.LoadIsPerEntryIff` says exactly when that is harmless).

## Model

| member | source | states |
|---|---|---|
| `Registration.AddStep` | src/grafast_py/dag.py:128-147 | the step and exactly those of the steps it depends on that were not registered yet join the plan, each object once however often it is shared, under an id of its own over the ids of its dependencies; nothing else changes, and the step has in the plan the value it has as built |
| `Registration.Register` | src/grafast_py/dag.py:133-147 | the recursion behind it: a step met before is left alone, otherwise its dependencies join first; what joins is needed by the step and was not there |
| `Registration.GrownOn` | src/grafast_py/dag.py:133-147 | registering one step after another is registering both: ids stay apart and no step object joins twice |
| `Registration.JoinedKeepsValue` | src/grafast_py/dag.py:128-147 | every registered step has in the plan the value it has as built, given that those registered earlier have |
| `Dag.Plan.AddStep` | src/grafast_py/dag.py:138-147 | once its dependencies are registered a step gets a fresh id at the end of the registration order; the graph stays acyclic and the reverse index stays its exact inverse, each (dependent, index) pair listed once |
| `Dag.Plan.Eradicate` | src/grafast_py/dag.py:234-263 | every reference to the dead step, and no other, names the survivor; the reverse index is again the exact inverse of the live edges, and no cycle appears as long as the survivor does not depend on the dead step |
| `Dag.Plan.SweepDead` | src/grafast_py/dag.py:265-271 | the merged-away steps leave the plan and nothing live changes |
| `Dag.Plan.DependentsOf` | src/grafast_py/dag.py:216-232 | exactly the live steps that use the given step, each once: a dead step is never surfaced |
| `Dag.RepointingStaysAcyclic` | src/grafast_py/dag.py:234-263 | repointing references to a step that does not reach the dead one makes no cycle |
| `Dag.MovedIsRepointed` | src/grafast_py/dag.py:234-263 | moving the edges the index lists for the dead step repoints exactly the live references to it: the index misses none and lists no other |
| `Dag.EdgesAfterMove` | src/grafast_py/dag.py:234-263 | after the first loop the index lists the moved edges under the survivor and is otherwise the inverse of the repointed graph |
| `Dag.EdgesAfterDrop` | src/grafast_py/dag.py:234-263 | after the second loop the dead step is listed nowhere and the index is the exact inverse again |
| `Dag.OrderSurvivesMerge` | src/grafast_py/dag.py:313-356 | the order snapshot stays topological across a merge made while it is being walked |
| `Dag.EarlierIsIndependent` | src/grafast_py/dag.py:313-356 | a step met earlier in the walk never depends on one met later, so a merge into the earlier one is legal |
| `Dag.QuotientMerge` | src/grafast_py/dag.py:313-356 | one more merge keeps the graph a fold of the planned one: every step goes to a live step of its class and parameters whose dependencies are the images of its own |
| `Dag.PassMerge` | src/grafast_py/dag.py:330-345 | one merge keeps everything the pass relies on: order, fold, winners per key, and the loser-to-winner map |
| `Dag.Plan.DedupPass` | src/grafast_py/dag.py:313-356 | one pass already merges all it can: no two live dedupable steps share a structural key behind it, of each class the step its walk meets first stays, and it reports a change exactly when something was merged |
| `Dag.Plan.Deduplicate` | src/grafast_py/dag.py:313-356 | the result is a fold of the planned graph along the returned remap (every step present at entry goes to a live step, side-effecting ones to themselves), acyclic, with no two live dedupable steps sharing a key; each step goes to the one of its class that a dependencies-first walk of the planned graph meets first |
| `OptimizeRounds.Optimize` | src/grafast_py/dag.py:153-214 | the rounds of the hook loop: every round but the last replaces something; they end with one that replaces nothing, or after a thousand; what they asked for, joined, is one legal script, carried out, with each replaced step sent to the live end of its chain; and unless the cap was met no hook of a live step has anything left to replace |
| `OptimizeRounds.Round` | src/grafast_py/dag.py:190-212 | a round asks every step that is still live, in the order at its beginning, carries out what they ask for and reports a change exactly when that is anything; otherwise nothing changed and no hook has anything left to replace |
| `OptimizeRounds.OneMoreRound` | src/grafast_py/dag.py:177-189 | a round after one that changed something keeps the count: at most a thousand rounds, all but the last of which replace something |
| `OptimizeRounds.OneMoreRewrite` | src/grafast_py/dag.py:196-212 | a replacement asked for later extends the script: legality, the plan after it and where the steps are sent all follow from the script so far |
| `Dag.Plan.Optimize` | src/grafast_py/dag.py:196-214 | after any legal script of replacements (what the hooks did, in order) each replaced step is sent to the live step at the end of its chain, survivors to themselves, and the swept graph is the script carried out |
| `Dag.Plan.FollowChain` | src/grafast_py/dag.py:433-446 | a replacement chain ends, at the live step the replacements lead to |
| `Dag.Plan.ResolveMerged` | src/grafast_py/dag.py:433-446 | every immediate replacement is resolved to the end of its chain |
| `Dag.ChainsLink` | src/grafast_py/dag.py:433-446 | one more replacement keeps every chain finite: later replacements only link forward in time |
| `Dag.Plan.TreeShake` | src/grafast_py/dag.py:273-311 | kept are exactly the steps the consumed roots and the side-effecting steps need, the index trimmed to match; returned are exactly the side-effecting steps nothing consumed needs, each once; no side-effecting step is lost; both in registration order |
| `Dag.PrunedIsInverse` | src/grafast_py/dag.py:300-311 | trimming the reverse index to the kept steps gives the exact inverse of the trimmed graph |
| `Ordering.OrderSteps` | src/grafast_py/dag.py:359-388 | the reachable steps, each once, dependencies first |
| `Ordering.OrderStepsWithin` | src/grafast_py/dag.py:391-419 | exactly the steps between the targets and the boundary, each once, every dependency earlier or at the boundary |
| `StepGraph.ScopeIsLeast` | src/grafast_py/dag.py:391-419 | the walked scope is the least set that holds the target and that no dependency leaves except into the boundary |
| `RewriteMeaning.DedupKeepsValues` | src/grafast_py/dag.py:313-356 | over the whole DAG deduplication sends every step to a live step with the same value, for every interpretation of the operations |
| `RewriteMeaning.DedupKeepsBucketValueIff` | src/grafast_py/dag.py:313-356 | inside a bucket, at one object, it keeps what a step means exactly when nothing the step computes from there, other than the boundary itself, is alike to the boundary in the planned graph, or the object is what the boundary computes from no object at all |
| `RewriteMeaning.DedupKeepsBucketValuesIff` | src/grafast_py/dag.py:313-356 | in a bucket of list items, whose objects may be anything, exactly when nothing the step computes from there is alike to the boundary |
| `RewriteMeaning.MergedIsComputedAlone` | src/grafast_py/dag.py:313-356 | a step merged with a boundary does not depend on it, and has the value the boundary has on its own |
| `RewriteMeaning.MergedIffAlike` | src/grafast_py/dag.py:313-356 | deduplication sends two steps to one exactly when they are alike in the planned graph: dedupable, of one class and parameters, dependencies pairwise alike |
| `RewriteMeaning.DedupOverItsOwnListBreaks` | src/grafast_py/dag.py:313-356 | a plan on which that condition fails: a list loaded again inside the bucket it bounds |
| `RewriteLimits.DedupItsOwnList` | src/grafast_py/dag.py:313-356 | registering and deduplicating that plan yields a remap under which the inner step no longer means what it was planned to mean |
| `RewriteMeaning.RewriteKeepsValue` | src/grafast_py/dag.py:153-214 | one value-preserving replacement changes the value of no registered step |
| `RewriteMeaning.EradicatingKeepsValue` | src/grafast_py/dag.py:234-263 | repointing the references to a step to another of equal value changes no value |
| `RewriteMeaning.OptimizeKeepsValues` | src/grafast_py/dag.py:153-214 | a whole script of value-preserving replacements leaves each step its value at the step its chain ends in |
| `RewriteMeaning.TrimKeepsValue` | src/grafast_py/dag.py:273-311 | trimming to a dependency-closed set keeps the value of every kept step |
| `RewriteMeaning.FinalizeKeepsValues` | src/grafast_py/plan.py:919-965 | optimize, deduplicate and tree-shake in a row: a step still needed has its planned value at the step the composed remap names |
| `Layers.LiftPass` | src/grafast_py/plan.py:1105-1124 | one sweep of the lift loop never undoes a lift, lifts only what is hoistable by then, and reports a change exactly when it lifted something |
| `Layers.LiftToFixpoint` | src/grafast_py/plan.py:1105-1124 | the loop ends with exactly the own or received steps that are hoistable given all that was lifted: none liftable is left behind |
| `Layers.HoistLayer` | src/grafast_py/plan.py:1039-1135 | at every layer the lifted steps are exactly the hoistable ones among those it owns or received, and what its children lifted is its own, kept for it, or lifted on |
| `Layers.HoistSteps` | src/grafast_py/plan.py:1015-1036 | the same for a whole operation, whose top layer lifts nothing; nowhere is a step lifted that is not movable, has side effects, is no plain step or reads the objects of the layer it leaves |
| `Layers.LayerIsHoisted` | src/grafast_py/plan.py:1039-1135 | what one layer computed from its children meets the declarative account of hoisting |
| `Layers.PopulateLayers` | src/grafast_py/plan.py:968-1012 | every layer's run list is exactly what its targets and the steps lifted into it need down to its boundary and its lifted-out steps, dependencies first |
| `Layers.LiftedIsNew` | src/grafast_py/plan.py:1039-1135 | a lifted step is neither the layer's boundary nor anything already produced above |
| `Layers.LiftsAreHoistedOut` | src/grafast_py/plan.py:1039-1135 | what hoisting lifts out of a layer is determined by the planned tree alone: the hoistable steps among those the layer needs and those its children send up |
| `Layers.HoistedLiftsMovable` | src/grafast_py/plan.py:1138-1193 | at every layer, a lifted step is a hoistable, side-effect-free plain step and does not depend on the boundary of the layer it leaves |
| `Layers.HoistedIsRunnable` | src/grafast_py/plan.py:968-1135 | after hoisting and populating, every lifted-out id of a child is in its parent's run list or lifted out in turn, at every depth, and every run list finds its dependencies |
| `StepModel.BucketUnariness` | src/grafast_py/step_model.py:265-293 | exactly the capable steps all of whose dependencies run once too, none of them seeded, run once |
| `StepModel.OneEntryStandsForAll` | src/grafast_py/step_model.py:336-384 | over constant columns one representative entry yields the value of every entry |
| `StepModel.RunStep` | src/grafast_py/step_model.py:336-384 | run once and broadcast, or run at full width: the stored column is the same |
| `StepModel.RunSteps` | src/grafast_py/step_model.py:176-262 | running request-constant steps once and broadcasting them gives the very store that running every step over every entry gives, every column of length count |
| `ExecutePlan.BridgeReadsOwner` | src/grafast_py/execute.py:790-823 | a column carried through any number of index maps holds, at a child position, the entry of the ancestor that the maps, followed back from there one after another, lead to |
| `ExecutePlan.BridgeFollowsTheMaps` | src/grafast_py/execute.py:790-823 | whatever positions lead from an ancestor to a child, each the entry of the next index map at the following one, the carried column holds at the child what the column held at the ancestor; and the first of them is the owner |
| `ExecutePlan.BridgeInTurn` | src/grafast_py/completion.py:700-728 | carrying a column through several maps is carrying it through the first ones and the result through the rest |
| `ExecutePlan.OneMapReads` | src/grafast_py/completion.py:700-728 | through one index map `h` position `k` of the carried column holds entry `h[k]` of the column, and `h[k]` owns `k` |
| `ExecutePlan.ChildReadsThroughTheMap` | src/grafast_py/execute.py:790-823 | a run's child bucket behind one index map `h`: its seed for a lifted step holds at `k` what the step's column holds at `h[k]`, and where no list leads to the child its object there is entry `h[k]` of the field's own column |
| `ExecutePlan.RunLayer` | src/grafast_py/execute.py:76-131 | a bucket run with its lifted columns seeded and its constants run once fills the same store as the plain step-by-step definition |
| `ExecutePlan.LayerShows` | src/grafast_py/execute.py:76-131 | every column of that store holds, at each position, what following the step through the layers that run it yields |
| `ExecutePlan.BridgedShows` | src/grafast_py/completion.py:700-728 | a lifted column, bridged to the child, holds at each child position what the layer above holds for the entry that the index maps lead back to |
| `ExecutePlan.ChildIsPlaced` | src/grafast_py/completion.py:640-672 | the objects of a child bucket are what is held for its boundary: items of a list are objects of their own, without a list they are entries of the column above |
| `ExecutePlan.AgreeIsSame` | src/grafast_py/execute.py:76-131 | where two walks through the layers come down to the same, the runs hold one value there, for every interpretation and at every position |
| `ExecutePlan.UnliftedIsMeant` | src/grafast_py/execute.py:76-131 | with nothing lifted a layer holds what each step means in its own bucket |
| `ExecutePlan.RunIsMeaning` | src/grafast_py/execute.py:133-164 | a runnable tree whose fields are read along seamless walks yields, at every layer and position, the denotation of its fields' steps, whatever was lifted where |
| `ExecutePlan.HoistingKeepsMeaning` | src/grafast_py/plan.py:1015-1135 | for every interpretation of the steps and every nest of buckets and index maps, the hoisted and the plain layout of a seamless plan yield the same columns at every layer; at a field without a list the child's objects are entries of the field's column, and reading the boundary above is no seam |
| `HoistLimits.HoistingIsExact` | src/grafast_py/plan.py:1015-1193 | the runs of the two layouts agree for all nests of buckets and all objects if and only if the planned tree is seamless: each field's step, followed through the layers that will run it, comes down to the same objects and operations as followed in its own bucket with nothing lifted; a bucket has an object of its own only below a list or at the top |
| `HoistLimits.SameIsAgreed` | src/grafast_py/plan.py:1138-1193 | one value at a position whose lists have items of their own shows that the two walks come down to the same |
| `HoistLimits.SeamlessUnderAList` | src/grafast_py/plan.py:1138-1193 | in a bucket of list items a walk is seamless exactly when it reads no other bucket's object and computes its own boundary nowhere as an ordinary step |
| `HoistLimits.NoListsNoSeams` | src/grafast_py/plan.py:1039-1193 | a well-scoped plan in which no list leads to an object is seamless, however far its steps are lifted |
| `HoistLimits.NoListsIsSeamless` | src/grafast_py/plan.py:1039-1193 | layer by layer: without lists everything a layer holds comes down to the operation's own object |
| `HoistLimits.SeamlessIff` | src/grafast_py/plan.py:1138-1193 | for one field: what the run holds is what the step means in the layer's own bucket, at every position, if and only if the walk is seamless |
| `HoistLimits.SharingConstantsIsSeamless` | src/grafast_py/plan.py:1039-1193 | if what each layer's own steps take from above computes from no bucket's object, the plan is seamless |
| `HoistLimits.HoistedRunsPlainSteps` | src/grafast_py/plan.py:1138-1193 | on a well-scoped plan whose layers are bounded by the steps of their fields no layer of the hoisted tree ever executes a bucket source, with no assumption about its lifts |
| `HoistLimits.SeamsShow` | src/grafast_py/plan.py:1039-1193 | where some field of some layer is not seamless, a nest with one item per bucket shows it: the hoisted run's column is not the one planned |
| `HoistLimits.FriendsSeamIff` | src/grafast_py/plan.py:1138-1193 | the plan of `{ me { friends { initial } firstName } }`, in which hoisting lifts a step over the one its object comes from, is seamless exactly when `friends` is a single friend and no list |
| `RewriteLimits.LayOutFriends` | src/grafast_py/plan.py:1015-1036 | laying out that operation with hoisting off and on returns two well-formed trees whose runs agree over all nests of buckets exactly when `friends` is no list |
| `Finalize.ComposedIsOneAfterTheOther` | src/grafast_py/dag.py:449-463 | the composed remap sends each step where the second remap sends what the first one made of it |
| `Finalize.RewritePasses` | src/grafast_py/plan.py:951-953 | optimize then deduplicate: the composed remap sends every planned step to a live step with its planned value, nothing mergeable is left, and the remap is the script's followed by the fold of what the script left |
| `Finalize.CollectConsumptionRootSteps` | src/grafast_py/plan.py:1196-1218 | exactly the steps some field or boundary of the tree consumes, each once |
| `Finalize.ConsumedAfterRemap` | src/grafast_py/plan.py:1311-1332 | the remapped tree consumes exactly the images of what the tree consumed |
| `Finalize.DeepestOwnerParentId` | src/grafast_py/plan.py:1269-1308 | the boundary of the layer that, of those whose boundary the orphan depends on, lies the most steps down the tree and is met first among those as deep; the root when it depends on none |
| `Finalize.OwnerIsDeepest` | src/grafast_py/plan.py:1269-1308 | in terms of the paths from the top of the tree to its layers: the walk meets every layer, in the order of their paths, at a depth equal to the length of its path |
| `Finalize.PathsLocate` | src/grafast_py/plan.py:1287-1305 | the layers met are exactly the layers at the listed paths, each at the depth its path is long |
| `Finalize.OwnerIsUnique` | src/grafast_py/plan.py:1269-1308 | there is only one such boundary |
| `Finalize.AttachEffectSteps` | src/grafast_py/plan.py:1221-1266 | each layer's effects grow by exactly the orphans its boundary owns, in order, and nothing else in the tree changes; each orphan's owner is the deepest boundary it depends on, first met first |
| `Finalize.OrphanRunsWithItsOwner` | src/grafast_py/plan.py:1221-1266 | an orphaned write runs in exactly the layers its owner bounds: once exactly when no other layer shares that boundary |
| `Finalize.OwnerIsABoundary` | src/grafast_py/plan.py:1269-1308 | the owner found for an orphan bounds at least one layer of the tree, so the write does run |
| `Finalize.ShakeAndAttach` | src/grafast_py/plan.py:955-958 | after tree-shaking and attaching, every write of the plan is needed by something consumed or runs for effect in all layers its owner bounds, of which there is at least one |
| `Finalize.LayOut` | src/grafast_py/plan.py:959-965 | the laid-out tree has the given shape, its annotations and run lists meet their specification, hoisted or not |
| `Finalize.FinalizePlan` | src/grafast_py/plan.py:919-965 | end to end: every consumed step is live at the step the composed remap names, with its planned value; the kept graph is ranked and closed; every layer has its run list; no write the hooks left is lost, and each one runs; fields keep their names; and plan and tree come from the planned ones by the script, the fold of what it left, and a trim |
| `FinalizeMeaning.FinalizedRunIsPlanned` | src/grafast_py/plan.py:919-965 | running the finalized plan yields, at every field of every bucket, for every interpretation and every nest, what was planned: for any optimize script whose replacements keep the values where they are used, when no field feels a merge and, with hoisting on, the tree is seamless |
| `FinalizeMeaning.FinalizedRunIsPlannedIff` | src/grafast_py/plan.py:919-965 | with hooks that rewrite nothing: given that no field feels a merge, exactly when the tree is seamless (or hoisting is off); and given that, exactly when no field feels a merge |
| `FinalizeMeaning.MergingIsExact` | src/grafast_py/dag.py:313-356 | over the whole tree, merging and trimming change no field of any bucket, for all nests and all objects, exactly when at every field nothing computed from is alike to the layer's boundary or the boundary is computed from no bucket's object |
| `OptimizeMeaning.ScriptKeepsMeaning` | src/grafast_py/dag.py:153-214 | a script of replacements that keep the value, at each object a bucket can hold, wherever a field uses the replaced step keeps what the whole tree means |
| `OptimizeMeaning.AlikeSwapKeepsBucketValue` | src/grafast_py/dag.py:234-263 | one such replacement keeps a field's value at a bucket position, also where the replaced step is the bucket's boundary itself |
| `TreeMeaning.SameFieldsMeanTheSame` | src/grafast_py/execute.py:133-164 | trees over two plans whose fields mean the same at every object their buckets can hold mean the same, all the way down |
| `Finalize.HoistedRunsItsWrites` | src/grafast_py/plan.py:1138-1193 | hoisting never takes a write away from the bucket it was attached to |
| `CompletionBatch.CompleteLeafValues` | src/grafast_py/completion.py:243-277 | each leaf of a batch gets the result it would get alone: null for null, its serialization when it has one, and otherwise the raised or the refused serialization's error at its place |
| `CompletionBatch.EnforceAll` | src/grafast_py/completion.py:295-332 | each null of a non-null batch becomes an error on its way up, each other result stays |
| `CompletionBatch.Flatten` | src/grafast_py/completion.py:426-492 | the items of all lists lie in one batch, each list's run where its span says; a value with no items has a span that says why |
| `CompletionBatch.CollectLists` | src/grafast_py/completion.py:495-529 | re-collecting the runs gives every list the result it would have alone, and records exactly the item errors it catches |
| `CompletionBatch.ItemsStop` | src/grafast_py/completion.py:495-529 | a bubble at a non-null item is the list's own result; nothing more is caught for it |
| `CompletionBatch.KeepObjects` | src/grafast_py/completion.py:553-599 | each value joins the bucket with its place in the batch or has its own result settled |
| `CompletionBatch.ScatterChildren` | src/grafast_py/completion.py:630-690 | exactly the positions the bucket came from get the bucket's results |
| `CompletionBatch.GroupByType` | src/grafast_py/completion.py:827-911 | every value of the batch is in the one group of its concrete type or has its own result settled, and no error is lost |
| `CompletionBatch.DispatchAbstract` | src/grafast_py/completion.py:827-911 | completing type by type gives each value the result it would have alone |
| `CompletionBatch.CompleteValues` | src/grafast_py/completion.py:165-211 | for every completer tree and batch, position i gets exactly the data or the bubble that completing value i alone gives, and the errors recorded are those of the values alone, all together |
| `CompletionBatch.WriteValue` | src/grafast_py/execute.py:943-961 | a bubble at a nullable field is caught as null with its error recorded, at a non-null field it nulls the object |
| `CompletionBatch.Scatter` | src/grafast_py/execute.py:936-961 | after the write-back every object stands where it would stand alone after one field more |
| `CompletionBatch.SelectLive` | src/grafast_py/execute.py:406-504 | the batch completed for a field is exactly that of the objects not nulled so far, in order |
| `CompletionBatch.CompleteField` | src/grafast_py/execute.py:406-504 | one field over the live objects of a bucket advances every object as it would advance alone |
| `CompletionBatch.ExecuteObjectPlan` | src/grafast_py/execute.py:201-267 | every object of a bucket ends as the object it would be alone |
| `CompletionBatch.RootOutput` | src/grafast_py/entry.py:214-223 | an error that nulls the root is recorded once and the data is null |
| `CompletionBatch.ExecuteOperation` | src/grafast_py/execute.py:133-267 | a whole operation: the data is that of sections 6.4.3 and 6.4.4 of the GraphQL specification (October 2021) and every error the specification records is recorded; the data is null exactly when an error gets up to the root and otherwise answers every field, leaves by their serialization, objects of the guarded or resolved type; recorded are exactly the errors that get up to the root or to a nullable position, each once when response names differ |
| `CompletionLaws.OneRefinesSpec` | src/grafast_py/completion.py:165-911 | completing one value the way the engine does gives the data, or the error on its way up, of the specification's recursion, and at least its errors |
| `CompletionLaws.ItemsRefineSpec` | src/grafast_py/completion.py:495-529 | completing all items, though one has already nulled the list, changes neither the list's result nor loses an error of the specification |
| `CompletionLaws.FieldsRefineSpec` | src/grafast_py/execute.py:406-504 | field-by-field completion of an object agrees with the specification's in-place recursion |
| `CompletionLaws.NullsAndErrorsCorrespond` | src/grafast_py/completion.py:243-529 | a value leaves its position as an error exactly when it is raised, refused by its serializer, guard or type resolution, null where it may not be, no list, or the first such error at a non-null item or field gets up to it; otherwise it is answered by its serialization, its items in order, the fields of its type; a nullable position is null for an error exactly when one gets up to it, recorded are exactly those errors, and each shows as a null |
| `CompletionLaws.RecordedOnce` | src/grafast_py/completion.py:324-529 | with distinct response names no error is recorded twice, nor recorded and still on its way up |
| `CompletionLaws.ResponseCorresponds` | src/grafast_py/execute.py:401-504 | the same over the whole response, whose data is null exactly when an error gets up to the root |
| `Constraints.PinsExactly` | src/grafast_py/constraints.py:114-127 | replaying a recorded value lets only that value through exactly when it is no container with a boolean, an integer or an integral float inside |
| `Constraints.AliasIsEqual` | src/grafast_py/constraints.py:114-127 | any other container has an alias, a different value that type-pinned equality cannot tell from it |
| `Constraints.MatchParts` | src/grafast_py/constraints.py:197-213 | a constraint list holds exactly when all its parts do |
| `Constraints.OneKeyFurther` | src/grafast_py/constraints.py:92-112 | following a path one key further reads the entry of that name of what was there, and ends at ABSENT when that is no mapping or has no such entry |
| `PlanReads.ContextGate.Eval` | src/grafast_py/constraints.py:384-395 | the gate hands out the context's own entry and records the value constraint for it; a missing key raises and records nothing |
| `PlanReads.ContextGate.EvalIs` | src/grafast_py/constraints.py:397-408 | true exactly when the entry is of the expected value's type and equal to it, which for a pinned value is to be that value; exactly the outcome is recorded, and a missing key raises |
| `PlanReads.ContextGate.EvalHas` | src/grafast_py/constraints.py:410-418 | presence, and exactly presence recorded |
| `PlanReads.TrackedVariables.Item` | src/grafast_py/constraints.py:441-444 | a variable read by item and its value constraint; an absent one raises and records nothing |
| `PlanReads.TrackedVariables.Get` | src/grafast_py/constraints.py:446-449 | a variable read with a default, absence recorded as such |
| `PlanReads.TrackedVariables.Contains` | src/grafast_py/constraints.py:451-454 | presence of a variable and its constraint |
| `PlanReads.TrackedVariables.Keys` | src/grafast_py/constraints.py:456-467 | the variable names, recorded as one key-set constraint |
| `PlanReads.FieldArgs.Item` | src/grafast_py/schema.py:130-133 | an argument read by item -- its literal, its variable's value or, the variable left out, the argument's default -- noted as a value observation of a variable-derived argument |
| `PlanReads.FieldArgs.Raw` | src/grafast_py/schema.py:134-143 | the whole dictionary, every argument with its literal, its variables' values or its default, noted as an observation of every variable-derived argument |
| `PlanReads.FieldArgs.Contains` | src/grafast_py/schema.py:166-172 | presence of an argument, noted for a direct variable |
| `PlanReads.FieldArgs.EvalIs` | src/grafast_py/schema.py:182-202 | true exactly when the argument, null when omitted, is of the expected value's type and equal to it; noted as an outcome for a direct variable and as a full observation for a nested one |
| `PlanReads.FieldArgs.Source` | src/grafast_py/schema.py:218-245 | the placeholder tag, the argument noted as placeholdered; an argument with nested variables raises |
| `PlanRecording.ObservedVariables` | src/grafast_py/plan.py:536-560 | exactly the variables observed through some argument whose placeholder was not taken |
| `PlanRecording.RecordFieldArgs` | src/grafast_py/plan.py:536-587 | the sink gains exactly the constraints the bookkeeping stands for: observed values, presences, comparison outcomes |
| `PlanRecording.PlanField` | src/grafast_py/plan.py:536-587 | a resolver run read by read: what the sink gains is exactly what the run's reads call for, and a raising read aborts |
| `PlanVariants.OneRun` | src/grafast_py/plan.py:794-851 | on one request a resolver has one finished run and one result |
| `PlanVariants.FieldHitIsFresh` | src/grafast_py/plan.py:794-851 | a request on which a resolver's recorded constraints hold takes the builder's path, branch by branch, to the builder's result |
| `PlanVariants.FieldHitIsFreshIff` | src/grafast_py/schema.py:130-133 | given the rest, it does exactly when the request carries every placeholdered argument the run reads by item |
| `PlanVariants.FieldHitIsFreshExactly` | src/grafast_py/plan.py:794-851 | for an arbitrary resolver: a matching request takes the builder's path if and only if it carries the placeholdered arguments read by item and none of the raw values it answers makes the resolver act differently |
| `PlanVariants.HitIsFresh` | src/grafast_py/plan.py:794-851 | if every constraint stored with a document's plan holds -- those of the directive scan over its operation and fragments and every resolver's own -- then planning the request itself collects the same selections and runs the same fields to the same plan, exactly when the request carries what is read by item behind a placeholder |
| `PlanVariants.PlanMatchesItself` | src/grafast_py/plan.py:876-909 | a build's stored constraints always hold of its own request |
| `PlanVariants.BuildMatchesItself` | src/grafast_py/plan.py:536-587 | so do those of each single resolver run |
| `PlanVariants.PeekingGoesStale` | src/grafast_py/schema.py:156-164 | a resolver that branches on the raw value behind a placeholder it takes is served stale: the constraints of one value hold of every other |
| `PlanVariants.AliasGoesStale` | src/grafast_py/constraints.py:114-127 | a context value that is an unpinned container is served stale to the request carrying its alias |
| `PlanVariants.OmittedItemIsServed` | src/grafast_py/schema.py:130-133 | a placeholdered argument read by item: a request that omits it is served a plan that planning it afresh would refuse |
| `DirectiveScan.ScanSelectionSet` | src/grafast_py/constraints.py:238-259 | everything used from here is collected unless a fragment open above covers it, nothing that is unused is, and recursive spreads end the walk |
| `DirectiveScan.DirectiveVariableConstraints` | src/grafast_py/constraints.py:216-262 | one value constraint for exactly the variables that some @skip, @include, @defer or @stream argument reachable from the operation names, through any spreads; a request on which they hold collects the same selections as the builder's, deferred and streamed alike, however deep spreads are followed |
| `DirectiveScan.CollectionIsPinned` | src/grafast_py/constraints.py:226-232 | the scan's constraints fix the collection: what stays once @skip and @include are evaluated on the variables, and what it is deferred or streamed under |
| `DirectiveScan.CollectedIff` | src/grafast_py/constraints.py:226-232 | a field is collected exactly when some way leads down to it, through nested selections and spread fragments, on which every selection stays: its first @skip says no and its first @include says yes, where it has them |
| `DirectiveScan.EachDirectiveDecides` | src/grafast_py/constraints.py:208-213 | each of the four directives lets a variable's value decide what is collected: a skipped field is gone under true, an included one under false, a fragment or field is deferred or streamed under true only |
| `DirectiveScan.SelectionsAreFull` | src/grafast_py/constraints.py:234-259 | in a document without fragment cycles following spreads as deep as there are fragments leaves none unexpanded |
| `Cache.PlanCache.Snapshot` | src/grafast_py/cache.py:302-337 | the first section of a get: an absent key counts a miss, a present one is touched and its bucket copied |
| `Cache.PlanCache.Confirm` | src/grafast_py/cache.py:302-337 | the last section of a hit: the candidate comes first in its bucket and the others behind it as they were, if it is still there; nothing else changes but the hit count |
| `Cache.PlanCache.Get` | src/grafast_py/cache.py:302-337 | whatever other threads do between its two sections, a get returns the first candidate of the bucket it saw that its validator accepts, and nothing exactly when none does; beyond what the others count it adds one hit or one miss, a hit exactly when it returns a candidate |
| `Cache.PlanCache.Put` | src/grafast_py/cache.py:339-374 | the variant comes first in its bucket, the others behind it as they were less the one of the same schema instance and constraints, and of more than eight the tail is dropped; besides the key nothing is new and nothing kept has changed; every dropped tail and every key that leaves counts one eviction |
| `Cache.PlanCache.Meanwhile` | src/grafast_py/cache.py:302-379 | any sequence of other threads' sections keeps every invariant (no interchangeable pair in a bucket, both bounds, the touch order), and counts a hit for each confirmation and a miss for each section that misses |
| `Cache.HoistedIsValid` | src/grafast_py/cache.py:322-337 | moving a candidate to the front keeps the bucket's candidates and their pairwise difference |
| `Cache.PutIsValid` | src/grafast_py/cache.py:339-374 | the bucket a put leaves has no interchangeable pair and fits its bound |
| `Cache.MovedToEnd` | src/grafast_py/cache.py:302-374 | touching a held key moves it to the end of the touch order and changes no other |
| `Cache.HeldAreTheMostRecent` | src/grafast_py/cache.py:339-374 | the keys present are the most recently touched ones, as many as the bound allows |
| `CoreSteps.Coalesce` | src/grafast_py/core_steps.py:431-461 | the keys sent are pairwise distinct wherever they can be hashed, each is the first of its kind, and each entry's slot holds the key sent for it |
| `CoreSteps.ExecuteLoad` | src/grafast_py/core_steps.py:431-482 | one call; a raise is every entry's value, a result of the wrong length stops the run, otherwise entry i holds the result of the key sent for it |
| `CoreSteps.LoadIsPerEntryIff` | src/grafast_py/core_steps.py:431-482 | batching equals loading each entry's own key exactly when the callback gives equal results to keys Python compares equal |
| `CoreSteps.Explode` | src/grafast_py/core_steps.py:308-330 | the items of all lists in one bucket: each list's in order from where those before it end, each with the entry that owns it; a missing list has none |
| `CoreSteps.Regroup` | src/grafast_py/core_steps.py:331-347 | each entry gets exactly what its own items became, item by item in order; a missing list gets nothing |
| `EachRuns.ExecuteEach` | src/grafast_py/core_steps.py:308-347 | one run of the element plan over all items of all entries, regrouped, gives each entry its own items in order, each as the element plan computes it from that item alone; a missing list gives none |
| `EachRuns.RunMapsItems` | src/grafast_py/core_steps.py:323-346 | every item of the flat bucket is mapped as it would be alone |
| `CoreSteps.Partition` | src/grafast_py/core_steps.py:612-650 | each type's batch is exactly the keys of the ids that join it, in entry order |
| `CoreSteps.ScatterNode` | src/grafast_py/core_steps.py:680-722 | the running cursor of an id's type points at that id's own record |
| `CoreSteps.ExecuteNode` | src/grafast_py/core_steps.py:612-722 | every entry gets its own error (poisoned, malformed, of a type without a loader), its type's error or its own record; the run stops exactly when some loader breaks its contract |
| `CoreSteps.NodeIsItsOwn` | src/grafast_py/core_steps.py:612-722 | with loaders that answer key by key an entry's value depends on its own id alone: what its type's loader answers to the decoded key, or the error of that id |
| `RecordGraph.IncGraph.PromoteNonEmptyToRoot` | src/grafast_py/incremental.py:246-268 | the new roots are exactly the streams, and the fragments that wait for some group, among the candidates and whatever hangs off a fragment passed over; passed over are exactly the fragments that wait for nothing among these; the groups of the new roots run |
| `Waves.WaveTakesReachable` | src/grafast_py/incremental.py:246-268 | what the queue with its set of records met so far promotes and passes over is what an account without a queue calls reached: each record once |
| `RecordGraph.IncGraph.StartPending` | src/grafast_py/incremental.py:253-259 | of the groups a fragment waits for exactly those that no root waits for yet are started, once |
| `RecordGraph.IncGraph.AddDeferredFragmentNode` | src/grafast_py/incremental.py:273-283 | a fragment is hung under its parent, and that under its own, up to a root or the top level; it is live afterwards, no list of a fragment that is done changes and no stream moves |
| `RecordGraph.IncGraph.AddIncrementalRecords` | src/grafast_py/incremental.py:228-244 | the revealed groups, and no others, join what exactly their fragments wait for; the revealed streams, and no others, hang off exactly the fragments of the group that reveals them, or are top-level; the graph invariant is kept |
| `RecordGraph.IncGraph.GetNewRootNodes` | src/grafast_py/incremental.py:173-180 | the new top-level fragments and streams are the start of one wave, and the new roots are exactly what that wave promotes |
| `RecordGraph.IncGraph.AddCompletedGroup` | src/grafast_py/incremental.py:181-195 | the completed group is no longer waited for and its result awaits delivery, in all its fragments at once; what it revealed joins as above, and no root, closed fragment or delivery changes |
| `RecordGraph.IncGraph.CompleteDeferredFragment` | src/grafast_py/incremental.py:197-213 | None exactly when the fragment is no root or still waits, and then nothing changes; otherwise it leaves with exactly its undelivered results, which no other fragment will hand over, and exactly what the wave from what hangs off it promotes becomes roots |
| `RecordGraph.IncGraph.RemoveDeferredFragment` | src/grafast_py/incremental.py:215-220 | a failed fragment leaves the roots and nothing else changes; it reports whether it was one |
| `RecordGraph.IncGraph.RemoveStream` | src/grafast_py/incremental.py:222-223 | a finished stream leaves the roots and nothing else changes |
| `GroupRuns.DeliveredDeliversOnce` | src/grafast_py/incremental.py:197-213 | handing over a fragment's results delivers each of them once, whichever of its fragments completes first |
| `GroupRuns.StartedRunsOnce` | src/grafast_py/incremental.py:285-294 | starting a group no root has waited for before starts it for the only time |
| `RecordTree.PromotedFits` | src/grafast_py/incremental.py:246-268 | a promotion keeps the tree: every waiting fragment hangs off its own live parent, whatever was announced or passed over stands inside fragments that are done and did not fail, and a fragment is promoted at most once |
| `RecordGraph.JoinedKeeps` | src/grafast_py/incremental.py:228-244 | registering a group, started when one of its fragments is a root, keeps every invariant of the graph |
| `Waves.RecordedCompletes` | src/grafast_py/incremental.py:197-213 | over a whole run: a stream has been promoted once for each completion that took a fragment it hangs off |
| `Publisher.Publisher.ToPending` | src/grafast_py/incremental.py:475-488 | the new roots are announced under fresh consecutive ids |
| `Publisher.Publisher.BuildResponse` | src/grafast_py/incremental.py:490-502 | exactly the roots that the wave over the initial result's records promotes are announced, in order, and the log keeps mirroring the graph |
| `Publisher.Publisher.CompleteFragment` | src/grafast_py/incremental.py:546-582 | nothing is logged unless the fragment is a root that waits for nothing; then exactly what the wave from what hangs off it promotes is announced, its undelivered results are delivered once each, and it is completed under its id, in this order |
| `Publisher.Publisher.HandleCompletedGroup` | src/grafast_py/incremental.py:546-582 | of the group's open fragments exactly those that wait for nothing more are completed, without errors, under their ids; their undelivered results, and no others, are delivered once each; a stream the group revealed is announced once for each of them, and, unless a stream revealed earlier still waits, the protocol survives exactly when there is no such stream or at most one such fragment |
| `Publisher.Publisher.HandleFailedGroup` | src/grafast_py/incremental.py:546-582 | each of its fragments that was a root is completed with errors, no data is delivered, and none of them is a root afterwards |
| `Publisher.Publisher.HandleStreamBatch` | src/grafast_py/incremental.py:602-638 | a batch is sent under the stream's id and exactly the roots that the wave over its records promotes are announced; or the id is completed and the stream gone |
| `WireLog.AnnounceKeeps` | src/grafast_py/incremental.py:475-488 | an announcement keeps the log a mirror of the graph: ids rise, each root's id is open, each fragment's id is open until the fragment is done, and no fragment is announced before one around it |
| `WireLog.EndKeeps` | src/grafast_py/incremental.py:546-582 | so does a completion: an id is completed at most once, after it was announced, for the record it was announced for, with errors exactly when the fragment failed |
| `Publisher.Publisher.ProtocolIff` | src/grafast_py/incremental.py:197-268 | in every reachable state the wire protocol (ids rise, each record announced once, each id completed at most once and after its announcement) is kept if and only if no two completions of the run took fragments that share a stream |
| `Publisher.Publisher.OneFragmentEach` | src/grafast_py/incremental.py:228-268 | it is kept whenever no stream hangs off two fragments |
| `Publisher.Publisher.AnnouncedFromTheOutside` | src/grafast_py/incremental.py:546-582 | in every reachable state a fragment that was announced has a larger id than every announced fragment around it, and each of those was completed without errors |
| `Publisher.Publisher.EnclosersAreDone` | src/grafast_py/incremental.py:246-283 | announced or not, every fragment around an announced one was completed or passed over as empty, and none failed |
| `Publisher.Publisher.HasNextExactly` | src/grafast_py/incremental.py:413-414 | as long as the protocol is kept, has_next is false exactly when no announced id is open |
| `Publisher.Publisher.NeverStuck` | src/grafast_py/incremental.py:228-294 | in every reachable state every open fragment waits for a group that is running or queued |
| `Publisher.Publisher.AllDeliveredOnce` | src/grafast_py/incremental.py:181-213 | a run that ends without a failure has started every group exactly once and delivered its data exactly once, shared or not |
| `Publisher.SharedStreamBreaksTheProtocol` | src/grafast_py/incremental.py:228-268 | a run of the publisher: a group of two open fragments reveals a stream, handling its result completes both, and the stream is announced twice |
| `DeferPartition.GetFilteredDeferUsageSet` | src/grafast_py/_compat.py:550-582 | nothing exactly when there is no selection or some selection is not deferred; otherwise exactly the uses of its selections that no other selection's use encloses, each once, in the order first seen |
| `DeferPartition.GoverningIsOutermost` | src/grafast_py/_compat.py:550-582 | no kept use stands inside another kept one, and every dropped use stands inside a kept one |
| `DeferPartition.UndeferredIsPlaced` | src/grafast_py/_compat.py:482-499 | where a response key with a selection that is not deferred goes, under every parent set |
| `DeferPartition.BuildExecutionPlanGroups` | src/grafast_py/_compat.py:447-501 | every response key lands with all its details in exactly one place: initial exactly when the parent's uses govern it, otherwise in the one group of the uses that do, groups in the order their uses are first met; a key with a selection that is not deferred is initial and in no group when there is no parent use, and in the group without uses otherwise |
| `Keyset.ColumnAfterIsTheOrder` | src/grafast_py/pg/cursor.py:171-213 | under three-valued logic one column's predicate is TRUE exactly on the rows whose cell comes strictly after the value, NULLs placed as the term says |
| `Keyset.OrderOfCells` | src/grafast_py/pg/cursor.py:37-56 | values compare by the direction alone; NULLs lead or trail all of them as placed, and without a placement trail them ascending and lead them descending |
| `Keyset.RecursiveAfterIsTheOrder` | src/grafast_py/pg/cursor.py:264-280 | the recursive part is TRUE exactly on the rows that come strictly after on the columns from there on |
| `Keyset.KeysetIsTheOrder` | src/grafast_py/pg/cursor.py:216-261 | for any number of nullable columns the keyset predicate is TRUE exactly on the rows strictly after the cursor, the flipped one exactly on those strictly before |
| `Keyset.FlippedIsConverse` | src/grafast_py/pg/cursor.py:283-304 | flipping directions and NULL placements gives the exact converse order |
| `Keyset.BeforeIsTotal` | src/grafast_py/pg/cursor.py:47-56 | of two tuples one comes first, never both, unless they are equal |
| `Keyset.BeforeIsTransitive` | src/grafast_py/pg/cursor.py:47-56 | what comes before a tuple comes before all behind it |
| `Keyset.CursorRoundTrip` | src/grafast_py/pg/cursor.py:92-147 | a cursor minted for a row is accepted exactly under the orders of the same length that agree with its own, term by term, in the column, the direction and the side of the NULLs, and then carries the row's own values |
| `Keyset.SameDigestSameOrder` | src/grafast_py/pg/cursor.py:59-71 | an order under which a cursor of another is accepted puts all rows as that one does |
| `Keyset.DigestIsExact` | src/grafast_py/pg/cursor.py:59-71 | two orders have one digest exactly when they agree term by term |
| `Paging.SortedIsUnique` | src/grafast_py/pg/connection.py:390-403 | a row set has one sorted listing |
| `Paging.CutPoint` | src/grafast_py/pg/connection.py:420-446 | the rows strictly behind a cursor's values, or strictly in front of them, are one stretch of the listing, whether or not a row has those values |
| `Paging.OwnCursorSeeks` | src/grafast_py/pg/connection.py:420-446 | the cursor of a row that is there seeks right behind it, reversed right in front of it |
| `Paging.PageRows` | src/grafast_py/pg/connection.py:420-525 | the page query returns the stretch behind (or in front of) the cursor, cut at its limit |
| `Paging.BuildConnection` | src/grafast_py/pg/connection.py:689-788 | the extra row is dropped, a reverse page is in request order, every edge carries its own cursor; the flag of the walking direction says whether there was an extra row, the other whether a cursor was sent |
| `Paging.FetchPage` | src/grafast_py/pg/connection.py:458-525 | a cursor is refused exactly when the order it was minted for differs in length or, at some position, in the column, the direction or the side of the NULLs; otherwise, also when the cursor's row is gone, the page is exactly the next rows behind the place of its values, and the flag of the walking direction is true exactly when rows remain there; the other flag says whether a cursor was sent, which is exact exactly when a row is left on that side or none was sent, such as while the cursor's own row is there |
| `Paging.NextSeeks` | src/grafast_py/pg/connection.py:420-446 | the end cursor of a page seeks right behind it, the start cursor right in front of it |
| `Paging.WalkForward` | src/grafast_py/pg/connection.py:689-788 | following end cursors visits every row exactly once, in order, for every page size of at least one |
| `Paging.WalkBackward` | src/grafast_py/pg/connection.py:689-788 | following start cursors from the end does the same from the other side, each page in request order |

## Left out

- PlanVariants.HitIsFresh: assumes that recorded values are pinned and that resolvers do not branch on a raw value behind a placeholder they take; a counterexample shows each to be needed, but a single resolver may do without: for one field `PlanVariants.FieldHitIsFreshExactly` says exactly when, given pinned values.
- CompletionLaws.OneRefinesSpec: errors are included one way only, because items behind the one that nulls a list are still completed and their errors kept (`CompletionLaws.NullsAndErrorsCorrespond` says exactly which); error order is not modelled.
- DirectiveScan.DirectiveVariableConstraints: collection is the tree of selections that stay, with what they are deferred or streamed under; grouping them by response key, type conditions and the once-per-level rule for spreads follow from that tree without another variable and are not modelled, and an argument that is no boolean, string or integer is refused.
- RecordGraph.IncGraph.AddIncrementalRecords: a revealed fragment's parent chain must reach an open root or, at the top level, its end, without meeting a fragment that is done; and a stream is revealed once.
- RecordGraph.IncGraph.PromoteNonEmptyToRoot: the code notes what a wave meets in the completed fragment's own children, which nothing reads again; the model keeps a set of its own.
- Publisher.Publisher.HandleCompletedGroup: the order of deliveries within one completion is not modelled, nor which of a result's fragments lends it its id and path.
- Publisher.Publisher.HasNextExactly: assumes the protocol is kept; where it is not, an id of a stream announced twice may stay open after the last root.
- Publisher.Publisher.AllDeliveredOnce: speaks of runs in which no group fails.
- Paging.WalkForward: the table does not change between two pages and has no two rows equal on all order columns.
- Paging.WalkBackward: likewise.
- OptimizeRounds.Optimize: a hook is a function of the plan and the step that replaces a step only by one that does not reach it; a hook that would make a cycle is not modelled.
- Step objects: a step is an id in the plan's maps, so mutation of a step shared by reference between two plans is not expressible, nor is the advisory `_is_unary` flag set by `add_dependency`.
- Fields planned without a step (default resolvers) and resolve info.
- Completion code that raises out of the engine: an `is_type_of` or an iterator that raises, and a leaf serializer that raises anything but GraphQLError, TypeError or ValueError, abort the batch in the code; in the model type guard, iteration and serializer are total.
- asyncio: awaitables, tasks, semaphores, timeouts, spans, and which completions share a payload.
- @stream item production, early execution and batched group runs, and the filtering of records under nulled paths.
- The run of a group's own plan: what it reveals is an arbitrary admissible list of groups and streams.
- Completion carries hoisted columns through list and object completion in the code; the model composes the same index maps in `ExecutePlan` instead.
- Response objects are ordered entries with distinct names; error messages and locations are abstract reasons.
- NaN, attribute access on contexts that are not mappings, and arguments whose coercion fails.
- Customizer constraints, config fingerprints, cache keys and source maps.
- The database: a page query is filter, sort and cut over a set of rows; totals, aggregates, LATERAL and batching across parents are not part of this model.
- base64, JSON and SHA-256: encoding is injective and the order digest is the canonical order itself.
- `order` normalisation and `set_first`, the remaining step classes of `core_steps.py` (plain comprehensions), `nest_deferred_groups`, and serial mutation execution.
