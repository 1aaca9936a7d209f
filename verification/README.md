# SPECTRA: the reference search, its inputs and its printed witnesses

SPECTRA asks which controls, raised to which levels, make a goal underivable from a set of
grounded rule instances, and what part of that answer is owed to sensors that could not see.
This project models the reference implementation in Dafny and proves what its stages promise
each other, from the recorded stream to the published witness.

* **Reachability** (`Reachability.dfy`). Unit propagation under a cut, the witness tree, and the
  corridor a witness teaches. Meaning is given by derivation trees and closed sets; a corridor is
  met by every cut that severs.
* **Minimum cuts** (`HittingSets.dfy`, `Selection.dfy`, `AtomTables.dfy`, `Corridors.dfy`,
  `Determined.dfy`, `Probe.dfy`, `TieBreak.dfy`). Branch and bound with its nodes counted exactly,
  canonical selection, the subset-minimal fallback and the corridor loop around them. An exact cut
  is a global optimum over all admissible severing cuts, and the whole answer of the loop is
  determined by its inputs.
* **The bracket** (`Premium.dfy`, `Bills.dfy`, `Bracket.dfy`, `Publication.dfy`). Necessary and
  occurring controls, the blindness premium and what its solves cost, and when the observed and the
  licensed program bracket one another.
* **Grounding** (`Grounding.dfy`, `Firings.dfy`, `Engine.dfy`, `Envelope.dfy`, `SilentMeaning.dfy`,
  `Liveness.dfy`, `Licences.dfy`). The semi-naive engine as a class over its tables, what a firing
  means and its least fixpoint, the liveness timeline algebra, and the licensed silent instances of
  the envelope with the ticks in which their steps may have happened.
* **Printed witnesses** (`WitnessLists.dfy`). The flattening printer, the reader that checks and
  rebuilds, and both round trips.
* **Streams and encodings** (`Degrade.dfy`, `ChainForge.dfy`, `Calibrate.dfy`, `Canon.dfy`,
  `Sorting.dfy`, with `Arithmetic.dfy` and `Wrappers.dfy` beneath them). Nested deletion, the chain
  forgery and its undoing, gap vectors and quantiles, and the uniquely decodable byte encodings.

Code that updates state in place is a class or a method proved against a function or predicate;
code made of expressions is functions and lemmas. `dafny verify dfyconfig.toml` checks everything.

## Conventions

A 64-bit mask is the set of its one bits. Content hashes and minted ids are identified with the
content they name, which is sound up to collisions; `Canon.dfy` proves that the preimages differ
when the contents do. Control ids are numbers in canonical order, and a table of levels is a vector
over the controls. Node budgets, corridor caps and engine caps are parameters.

## Where the code and its documentation disagree

The model follows the code.

* `python/spectra_vs/src/spectra_vs/cut.py:26-33` says the selected cut comes first in the order of
  literal ranks. It does so for every clause set exactly when the table
  is shallow; `TieBreak` gives the clause sets for every other table.
* `python/spectra_vs/src/spectra_vs/premium.py:273-274` says a control of NEC is in every cut that
  severs. It is in every minimum one; `Bracket.InEverySeveringCut` says when it is in every one, and
  `Bracket.NecessaryIsNotInEveryCut` gives a program where it is not.
* `frontend/src/witness.js:128-131` says pre-order is the published order for a well-formed list.
  The four rules do not imply it; `WitnessLists.PublishedOrderIff` says when it holds.
* `python/spectra_vs/src/spectra_vs/ground.py:711-723` drops a fact from the axioms as soon as an
  instance with a body heads it. The bracket can then turn over, already by a silent instance that
  heads a seeded goal, and a seeded cycle is lost. `Publication.UpperDerivesMoreIff` and
  `Publication.PublishedReproducesIff` say exactly when neither happens.
* `python/spectra_vs/src/spectra_vs/ground.py:262-263` says the recorded window of a silent step drops
  no real possibility. A premise that a second window of its rule draws again in the same second is
  already in the base (`envelope.py:496`) and keeps the first window's span.
  `SilentMeaning.SpanCoversIff` says when the span takes in every window, and
  `SilentMeaning.SecondWindowExample` gives an input for which it does not.
* `python/spectra_vs/src/spectra_vs/calibrate.py:276-277` says a gap of no length on an exclusion's
  boundary is dropped. At the end of the exclusion it is kept; `Calibrate.MeetsIffShared` is exact.

## Model

| member | source | states |
|---|---|---|
| `Reachability.Reach` | python/spectra_vs/src/spectra_vs/reach.py:242-289 | Unit propagation returns the closure in the order of a first-in first-out queue, each fact supported by strictly earlier ones; the goal is reported derivable exactly when the cut does not sever; the step count is the number of facts plus the number of enabled body edges. |
| `Reachability.OrderIsDetermined` | python/spectra_vs/src/spectra_vs/reach.py:255-283 | A program and a cut have one order: it is all that was queued, the seeds and after each fact the heads it completes, each fact where it first comes. |
| `Reachability.WitnessTree` | python/spectra_vs/src/spectra_vs/reach.py:292-366 | Returns the tree of the first goal reached, by the lowest support derived strictly earlier all the way down: a derivation over enabled instances that never repeats one on a path; nothing exactly when no goal was reached. |
| `Reachability.LeavesOne` | python/spectra_vs/src/spectra_vs/reach.py:292-366 | A cut leaves one witness. |
| `Reachability.BuildNode` | python/spectra_vs/src/spectra_vs/reach.py:327-364 | The memoised builder returns the tree the unshared definition gives. |
| `Reachability.WitnessIsDerivation` | python/spectra_vs/src/spectra_vs/reach.py:292-366 | The tree read off the derivation order is a valid derivation under the cut. |
| `Reachability.WitnessNeverRepeats` | python/spectra_vs/src/spectra_vs/cert.py:1519-1527 | No instance of a built witness supports itself, so the certificate's well-foundedness check passes. |
| `Reachability.OrderIsClosure` | python/spectra_vs/src/spectra_vs/reach.py:242-289 | The facts propagated are exactly the derivable ones. |
| `Reachability.CollectInstances` | python/spectra_vs/src/spectra_vs/reach.py:78-91 | The explicit-stack walk finds exactly the instances of the tree. |
| `Reachability.WitnessMask` | python/spectra_vs/src/spectra_vs/reach.py:369-382 | The mask is the union of every blocker of every instance in the tree. |
| `Reachability.BlockedIsMeeting` | python/spectra_vs/src/spectra_vs/reach.py:228-239 | With single-literal terms, the subset test is the intersection test. |
| `Reachability.CorridorTheorem` | python/spectra_vs/src/spectra_vs/cut.py:6-14 | A corridor is disjoint from the cut it was found under, and every cut that severs the goal meets it. |
| `Reachability.SeversUpward` | python/spectra_vs/src/spectra_vs/reach.py:228-239 | A cut that contains a severing cut severs. |
| `HittingSets.MinCoverIsLowerBound` | python/spectra_vs/src/spectra_vs/cut.py:356-389 | The reference optimum is below every hitting set drawn from the allowed controls. |
| `HittingSets.MinCoverIsAttained` | python/spectra_vs/src/spectra_vs/cut.py:356-389 | The reference optimum is the size of some hitting set. |
| `HittingSets.WidthBound` | python/spectra_vs/src/spectra_vs/cut.py:372-382 | Covering what is left needs at least the ceiling of its size over the widest control. |
| `HittingSets.NodeBox.Spend` | python/spectra_vs/src/spectra_vs/cut.py:316-319 | A node is spent; the budget fires exactly when the count passes the limit. |
| `HittingSets.Pruned` | python/spectra_vs/src/spectra_vs/cut.py:368-382 | A node with something left to cover is closed exactly when no remaining control covers any of it or the ceiling bound reaches the incumbent, and then no better cover is below. |
| `HittingSets.BranchAndBound` | python/spectra_vs/src/spectra_vs/cut.py:356-389 | The result is the better of the incumbent and the true minimum hitting-set size over the remaining controls; the nodes are those of the search tree, and the budget is hit exactly when they pass what was left. |
| `HittingSets.MinimumCardinality` | python/spectra_vs/src/spectra_vs/cut.py:392-418 | EXACT is the true optimum, INFEASIBLE means no hitting set; the budget is exhausted exactly when it is less than the nodes of the search, and the nodes reported are those, or one past the budget. |
| `HittingSets.Extendable` | python/spectra_vs/src/spectra_vs/cut.py:421-433 | Whether the partial choice extends to a hitting set of the given size using later controls only, at exactly the nodes of that search. |
| `Selection.HitsAll` | python/spectra_vs/src/spectra_vs/cut.py:506-518 | True exactly when every clause is hit by some chosen control at its level. |
| `Selection.SelectControls` | python/spectra_vs/src/spectra_vs/cut.py:463-483 | Phase one ends with a cover of the asked size exactly when there is one, and then its control vector is lexicographically least among all of that size; the budget stops it exactly when the walk costs more. |
| `Selection.LowerLevels` | python/spectra_vs/src/spectra_vs/cut.py:485-494 | The lowering pass ends level-minimal and lexicographically least among all hitting level vectors on those controls. |
| `Selection.CheckLevelMinimal` | python/spectra_vs/src/spectra_vs/cut.py:521-537 | True exactly when no raised level can go down one step. |
| `Selection.CanonicalSelect` | python/spectra_vs/src/spectra_vs/cut.py:441-503 | A selected vector precedes every hitting vector of its cardinality; the cardinality error is raised exactly when no set of that many controls hits every clause, the budget error exactly when the nodes of the walk pass the budget; the two later error branches are never taken. |
| `Selection.CoverableFromOptimum` | python/spectra_vs/src/spectra_vs/cut.py:479-483 | The cardinalities that can be selected run from the optimum to the number of controls. |
| `Selection.CanonicalIsLeast` | python/spectra_vs/src/spectra_vs/cut.py:448-461 | At the optimum the selected vector precedes every hitting vector and is the only one that does. |
| `Selection.OptimumOverLevels` | python/spectra_vs/src/spectra_vs/cut.py:392-403 | The optimum over controls at their tops is the least number of raised controls over all level vectors. |
| `Selection.PrecedesAntisymmetric` | python/spectra_vs/src/spectra_vs/cut.py:26-35 | The canonical order never ties two different vectors. |
| `Selection.SelectSubsetMinimal` | python/spectra_vs/src/spectra_vs/cut.py:540-569 | Each control, from the last down, stays exactly when the controls before it and those kept after it miss a clause at their tops; the levels are then the least on those kept, so no control can be removed and no level lowered; the error is raised exactly when the whole universe misses a clause. |
| `Selection.FallbackIsUnique` | python/spectra_vs/src/spectra_vs/cut.py:540-569 | A covering problem has one such vector. |
| `TieBreak.FirstDifferenceDecides` | python/spectra_core/src/spectra_core/model.py:1299-1306 | In rank order the higher level wins at the first difference unless the lower cut raises nothing after it. |
| `TieBreak.SelectionFollowsTieBreakIffShallow` | python/spectra_vs/src/spectra_vs/cut.py:26-33 | The same over covering problems: only the last control has several levels, or the last but one before a one-level control. |
| `TieBreak.FollowsOverIffShallow` | python/spectra_vs/src/spectra_vs/cut.py:26-33 | Over any well-formed table, the selection is first in the documented order for every clause set exactly when the table is shallow. |
| `TieBreak.EveryProblemArises` | python/spectra_vs/src/spectra_vs/cut.py:327-348 | Any covering problem with a table's levels is the problem of some clauses over that table. |
| `TieBreak.PairOvertakes` | python/spectra_core/src/spectra_core/model.py:1299-1306 | For any table with two adjacent controls of two levels, a clause set on which the documented order prefers another level-minimal minimum. |
| `TieBreak.TripleOvertakes` | python/spectra_core/src/spectra_core/model.py:1299-1306 | The same for a control of two levels with two more controls after it. |
| `AtomTables.ListControls` | python/spectra_vs/src/spectra_vs/cut.py:220-226 | The controls of the table, each once, in ascending canonical order, and no others. |
| `AtomTables.MasksMeetAsRanks` | python/spectra_vs/src/spectra_vs/cut.py:240-248 | Meeting as masks is meeting as ranks, and ranks survive the round trip through a mask. |
| `AtomTables.CutOfLevels` | python/spectra_vs/src/spectra_vs/cut.py:250-258 | The minted cut asserts exactly the literals up to each level, is closed below each level, and counts raised controls. |
| `Corridors.ControlHits` | python/spectra_vs/src/spectra_vs/cut.py:327-348 | The covering problem the clause ranks induce, level by level. |
| `Corridors.HittingIsMeeting` | python/spectra_vs/src/spectra_vs/cut.py:506-518 | A level vector hits the problem exactly when its cut meets every clause. |
| `Corridors.LearnClause` | python/spectra_vs/src/spectra_vs/cut.py:640-662 | A clause learned from the witness a cut leaves is new, disjoint from that cut and met by every severing cut. |
| `Corridors.RunRound` | python/spectra_vs/src/spectra_vs/cut.py:592-669 | One round of the loop: it keeps the promises of a finished search, or learns the corridor of the witness that the canonical cut for the clauses held leaves, which is new and necessary, at exactly the nodes of its solve and selection. |
| `Corridors.EnumeratePsi` | python/spectra_vs/src/spectra_vs/cut.py:577-689 | Every claim of the search is true: each clause is the corridor of the witness left by the canonical cut for the clauses before it; an exact cut severs and is canonical among all severing cuts, UNVERIFIED means no cut severs, SUBSET means the fallback cut with nothing spare; selection and repeated-clause errors never occur, the others only over clauses no cut meets; nodes, budget flag and cap flag are exact; the loop ends whatever the cap. |
| `Corridors.MeteredWithin` | python/spectra_vs/src/spectra_vs/cut.py:592-626 | The nodes of a search pass its budget by at most one, and the budget runs out only below the cost of two full searches a round. |
| `Determined.SearchIsDetermined` | python/spectra_vs/src/spectra_vs/cut.py:577-689 | The search has one answer: two results that keep its promises for the same program, table, budget and cap are equal in every field, error or not. |
| `Corridors.EnoughRoomIsComplete` | python/spectra_vs/src/spectra_vs/cut.py:577-689 | With a cap and a node budget for all the clauses a table can teach, the search never falls back. |
| `Corridors.ExactSearchesAgree` | python/spectra_vs/src/spectra_vs/cut.py:36-42 | Two exact searches of one program report the same cut, whatever clauses they learned and in what order. |
| `Corridors.FallbackIsSubsetMinimal` | python/spectra_vs/src/spectra_vs/cut.py:671-689 | Below a fallback cut nothing severs the goal. |
| `Corridors.FallbackIsDetermined` | python/spectra_vs/src/spectra_vs/cut.py:671-689 | A clause database has one fallback cut. |
| `Probe.AdmissibleLevelVectors` | python/spectra_vs/src/spectra_vs/cut.py:745-755 | The whole lattice, each vector once, in lexicographic order. |
| `Probe.OneSmallerDecidesAll` | python/spectra_vs/src/spectra_vs/cut.py:798-809 | Some cut raising exactly one control fewer severs exactly when some smaller cut of any size does. |
| `Probe.ExhaustiveProbe` | python/spectra_vs/src/spectra_vs/cut.py:798-836 | Refuses exactly at cardinality zero or when the vectors one control smaller, counted in closed form, pass the cap; otherwise it tests each of them and found something exactly when some cut with fewer raised controls severs. |
| `Premium.SolveWithout` | python/spectra_vs/src/spectra_vs/premium.py:186-205 | A solve with controls excluded returns the least size of a meeting cut that avoids them, or that there is none, or that the budget is less than its nodes. |
| `Premium.NecessaryIsInEvery` | python/spectra_vs/src/spectra_vs/premium.py:169-208 | Solving without a control gets dearer or fails exactly when the control is in every minimum cut of the database. |
| `Premium.NecessaryControls` | python/spectra_vs/src/spectra_vs/premium.py:169-208 | NEC is exactly the controls raised in every minimum cut of the database; its solves are paid for one after the other, and it stops exactly where the budget does; the error means the first solve found no cut. |
| `Premium.PayingIsInSome` | python/spectra_vs/src/spectra_vs/premium.py:211-258 | A level that pays for itself puts the control in some minimum cut. |
| `Premium.InSomePays` | python/spectra_vs/src/spectra_vs/premium.py:211-258 | A control of some minimum cut pays at some level. |
| `Premium.OccurringControls` | python/spectra_vs/src/spectra_vs/premium.py:211-258 | OCC is exactly the controls raised in some minimum cut of the database; each control is tried up to its first paying level, and it stops exactly where the budget does; the error means the first solve found no cut. |
| `Premium.BlindnessPremium` | python/spectra_vs/src/spectra_vs/premium.py:261-320 | The first failing precondition is the reason, before any solve; otherwise the premium is NEC of the upper database less OCC of the lower one, withheld exactly when the budget does not cover the account of all their solves, at the nodes and solves that account has; the error exactly when a first solve finds its database met by no cut. |
| `Premium.PremiumIsAffordable` | python/spectra_vs/src/spectra_vs/premium.py:298-320 | Over databases that some cut meets, a premium withheld for its own solves has used the whole budget on no more solves than two, the controls and the levels together, and a budget for that many full searches always publishes. |
| `Premium.PremiumIsDetermined` | python/spectra_vs/src/spectra_vs/premium.py:261-320 | There is one answer: two results that keep these promises are equal. |
| `Bracket.DerivesMoreIffAxiomsSurvive` | python/spectra_vs/src/spectra_vs/envelope.py:667-683 | For contained programs the upper one derives more under every cut exactly when the lower axioms survive the strongest cut there. |
| `Bracket.TwoSidedBracket` | python/spectra_vs/src/spectra_vs/premium.py:133-152 | Both searches keep every promise of the search, each for its own program: soundness, error conditions, node and cap accounts. |
| `Bracket.BracketOrdered` | python/spectra_vs/src/spectra_vs/premium.py:133-152 | The upper cut severs below too, the exact lower optimum is no larger, and if nothing severs below nothing severs above. |
| `Bracket.PremiumMeaning` | python/spectra_vs/src/spectra_vs/premium.py:271-277 | A premium control is raised in every minimum severing cut of the upper program and in none of the lower one. |
| `Bracket.InEverySeveringCut` | python/spectra_vs/src/spectra_vs/premium.py:273-274 | A control is in every severing cut exactly when all the others at their tops do not sever. |
| `Bracket.NecessaryIsNotInEveryCut` | python/spectra_vs/src/spectra_vs/premium.py:273-274 | A program and table on which NEC of every exact search is one control, the clauses of its two corridors being such a database, while a cut without that control severs. |
| `Liveness.IsLive` | python/spectra_vs/src/spectra_vs/envelope.py:229-249 | True exactly when the window is non-empty and LIVE at every instant. |
| `Liveness.Runs` | python/spectra_vs/src/spectra_vs/envelope.py:251-285 | The merged runs are ordered, maximal, and cover exactly the non-LIVE instants; every non-LIVE stretch is in a run with its verdict, reason and records, and a run has no other records. |
| `Liveness.CoveringRuns` | python/spectra_vs/src/spectra_vs/envelope.py:287-309 | Succeeds exactly when the window is non-empty and non-LIVE throughout, with exactly the merged runs that meet it, which cover it. |
| `Liveness.NeverLiveAndCovered` | python/spectra_vs/src/spectra_vs/envelope.py:229-309 | No non-empty window is both live and covered. |
| `Liveness.JointBlindWindows` | python/spectra_vs/src/spectra_vs/envelope.py:311-341 | Ascending windows separated by gaps, covering exactly the instants at which every named source is non-LIVE. |
| `Liveness.JointWindowIsMaximal` | python/spectra_vs/src/spectra_vs/envelope.py:311-341 | Each window reported is blind throughout on every source and not just before or just after. |
| `Liveness.LicencesForWindow` | python/spectra_vs/src/spectra_vs/envelope.py:430-441 | Licences are found exactly when every source is blind over the window by runs that can be licensed, one licence a run, and on each source they cover it; otherwise the first source that stops the lookup either could have seen or has a suppressed run without its witness, which is an error. |
| `Liveness.LicenceTells` | python/spectra_vs/src/spectra_vs/envelope.py:157-178 | Each licence of a window is for one of its sources over a time that meets it, and tells what the timeline tells: the reason and suppression of stretches in its span; a suppressed one carries their records, of which there are some, and any other none. |
| `Liveness.JointWindowIsLicensable` | python/spectra_vs/src/spectra_vs/envelope.py:450-464 | The licence lookup never fails on a joint blind window. |
| `Grounding.SeqFeasibleIsPlacement` | python/spectra_vs/src/spectra_vs/ground.py:248-271 | True exactly when some placement in the two ranges satisfies left < right <= left + within. |
| `Firings.JoinIsAssignment` | python/spectra_vs/src/spectra_vs/ground.py:779-802 | A tuple joins exactly when one assignment of the body's variables gives every slot its own arguments and tick; it is the one found, and there is no other. |
| `Firings.TemporalMeans` | python/spectra_vs/src/spectra_vs/ground.py:529-638 | The operator passes exactly when it holds: a placement in the two ranges, unless one is unknown; as many facts in the window, alike but for the counted argument and differing in it; or no fact in the lookback that extends the assignment, and the absence available. |
| `Firings.FiringMeans` | python/spectra_vs/src/spectra_vs/ground.py:489-525 | A rule fires on a tuple as an instance exactly when one assignment makes every slot its fact and the head pattern the head, the guard holds or a fact is time-free, the operator holds, and the evidence is the records behind the chosen facts by slot and behind the operator's extra facts, of which there are some. |
| `Grounding.HullAdmitsMembers` | python/spectra_vs/src/spectra_vs/ground.py:397-402 | Widening a span to the hull over several instances never rejects a pair one of them admitted, on either side. |
| `Saturation.Engine.AddFact` | python/spectra_vs/src/spectra_vs/ground.py:331-347 | Adds an unknown fact below the cap to the base, its bucket and the delta, and records the cap otherwise; the first recorded cap is kept. |
| `Saturation.Engine.AddInstance` | python/spectra_vs/src/spectra_vs/ground.py:384-426 | Adds an unknown instance below the cap and its head; a span given for a silent head is logged, and the recorded spans stay the hulls of those logged, each end being the end of one; the time-free facts stay exactly the heads no observed instance supports; a cap is recorded only where its size is reached. |
| `Saturation.Engine.Seed` | python/spectra_vs/src/spectra_vs/ground.py:370-380 | The base is the recorded facts, all of them unless the cap fired. |
| `Saturation.Engine.Enumerate` | python/spectra_vs/src/spectra_vs/ground.py:464-487 | Every completion of the partial tuple through the pivot is tried; nothing is recorded but firings. |
| `Saturation.Engine.Apply` | python/spectra_vs/src/spectra_vs/ground.py:457-462 | One pass per pivot tries every tuple that touches the delta. |
| `Saturation.Engine.Saturate` | python/spectra_vs/src/spectra_vs/ground.py:430-448 | Growth is sound in every run and the spans are not touched; uncapped, every tuple beyond what was settled is done and the delta is empty; a cap is recorded only where it is due. |
| `Saturation.FiresStable` | python/spectra_vs/src/spectra_vs/ground.py:586-638 | A rule's firing depends on the base only through the predicate its distinct or absence test scans. |
| `Saturation.SaturatedIsLeastFixpoint` | python/spectra_vs/src/spectra_vs/ground.py:430-525 | The semi-naive result is the least fixpoint of naive application with exactly its firings. |
| `Saturation.Ground` | python/spectra_vs/src/spectra_vs/ground.py:853-878 | Uncapped and stratified, grounding yields the least fixpoint over the seeded facts, and its instances are exactly the tuples over it that fire as a firing is meant. |
| `Saturation.RuleOrderIrrelevant` | python/spectra_vs/src/spectra_vs/ground.py:430-462 | Any listing of the same rules gives the same facts and instances. |
| `Saturation.AbsenceIsNotMonotone` | python/spectra_vs/src/spectra_vs/ground.py:617-638 | A rule with an absence test that fires on a base and falls silent on a larger one. |
| `Envelope.WindowTicksInSpan` | python/spectra_vs/src/spectra_vs/envelope.py:466-480 | Every instant of a window has its tick inside the span recorded for a licensed fact. |
| `Envelope.SpanIsTicks` | python/spectra_vs/src/spectra_vs/envelope.py:471-476 | The ticks of a window's span are exactly the ticks of its instants. |
| `Envelope.AddSilentDetect` | python/spectra_vs/src/spectra_vs/envelope.py:450-536 | Everything it adds is a silent instance of a drawn binding, or one of its premises, over a maximal joint blind window that minted licences cover on every source, and every span logged is such a window's; uncapped, every binding is drawn over every such window, the base gains just the facts drawn, and a window's span is logged just for its heads and for the premises neither known before nor drawn by an earlier window; the schema error is raised only at a window whose licence lacks its witness. |
| `Envelope.SettleTrigger` | python/spectra_vs/src/spectra_vs/envelope.py:556-612 | A triggered obligation is present, licensed, reported as a blind spot, or a schema error: a missing witness, or no source to license it; a spot is reported only for an absent head somebody could have seen. |
| `Envelope.AddObligation` | python/spectra_vs/src/spectra_vs/envelope.py:539-612 | Every trigger of the rule is settled; every instance added is a licensed ghost; every spot reported is due. |
| `Envelope.RunEnvelope` | python/spectra_vs/src/spectra_vs/envelope.py:615-664 | P_min is contained in P_max; every further instance is silent or forced under minted, genuine licences, or a firing of a rule over the upper facts; both further saturations see the hulls of the spans logged, all of them of blind windows that draw the fact; each licence is due to a blind window or an unmet trigger; uncapped, every joint blind window is drawn with just those facts and spans, and every obligation settled for the facts before the obligations; stratified too, P_min is the least fixpoint and every further tuple is joined; caps are reported and schema errors raised only where due. |
| `Envelope.StagedIsAccounted` | python/spectra_vs/src/spectra_vs/envelope.py:615-683 | From the four steps of the stage: containment, and where each instance of P_max beyond P_min comes from. |
| `SilentMeaning.DetectMeans` | python/spectra_vs/src/spectra_vs/envelope.py:482-529 | A silent instance is the rule under the binding at the window's first tick: each body pattern and the head pattern name their facts. |
| `SilentMeaning.PartMeans` | python/spectra_vs/src/spectra_vs/envelope.py:482-536 | A part is that instance, or a ghost premise without body or blockers for one of its body facts. |
| `SilentMeaning.ObligedMeans` | python/spectra_vs/src/spectra_vs/envelope.py:560-575 | The obliged head has the trigger's tick and, variable by variable, its arguments, a repeated variable standing for its last. |
| `SilentMeaning.LookbackIsBefore` | python/spectra_vs/src/spectra_vs/envelope.py:578-579 | The lookback is the instants of the given number of ticks before the trigger's own. |
| `SilentMeaning.HullIsOneWindow` | python/spectra_vs/src/spectra_vs/ground.py:397-402 | The recorded span of a silent fact is that of one blind window that drew it and gave it. |
| `SilentMeaning.SequencePassesIff` | python/spectra_vs/src/spectra_vs/ground.py:557-584 | A sequence over observed facts and silent facts with spans passes exactly when their steps may have happened in turn, each silent one at an instant of a window that gave its span. |
| `SilentMeaning.FiredSequenceIsInTurn` | python/spectra_vs/src/spectra_vs/ground.py:248-280 | A sequence of P_max over such facts has a placement in their windows. |
| `SilentMeaning.FurtherFiringIsMeant` | python/spectra_vs/src/spectra_vs/envelope.py:644-648 | In both further saturations the firings are those a firing is meant to be. |
| `SilentMeaning.SpanCoversIff` | python/spectra_vs/src/spectra_vs/ground.py:262-263 | A recorded span takes in every window that draws its fact exactly when none ends in a later second than all that gave it. |
| `SilentMeaning.SecondWindowIsLost` | python/spectra_vs/src/spectra_vs/envelope.py:496-511 | A premise drawn again by a longer window of its rule that starts in the same second keeps a span that ends before that window does. |
| `SilentMeaning.SecondWindowExample` | python/spectra_vs/src/spectra_vs/envelope.py:496-511 | One rule, one entity and a timeline blind twice in one second, for which this happens. |
| `Publication.UpperDerivesMoreIff` | python/spectra_vs/src/spectra_vs/ground.py:711-723 | The program published from larger tables derives all the smaller one does under every cut exactly when the lower axioms survive the strongest cut above; then a cut that severs above severs below. |
| `Publication.UpperDerivesMore` | python/spectra_vs/src/spectra_vs/ground.py:711-723 | It does when no lower axiom is headed by an instance with a body above. |
| `Publication.DroppedAxiomTurnsBracketOver` | python/spectra_vs/src/spectra_vs/ground.py:711-723 | For any two tables: a goal that is an axiom below and headed above only by instances the cut blocks is severed above and by no cut below. |
| `Publication.SilentHeadTurnsBracketOver` | python/spectra_vs/src/spectra_vs/envelope.py:482-536 | A silent instance heading a seeded goal does this. |
| `Publication.SilentHeadRun` | python/spectra_vs/src/spectra_vs/envelope.py:615-664 | A run of the whole envelope, on one rule, one blind source and one seeded goal, whose published programs do this. |
| `Publication.PublishedReproducesIff` | python/spectra_vs/src/spectra_vs/ground.py:686-754 | With nothing raised the published program derives exactly the facts of the fixpoint if and only if it derives every seeded fact. |
| `Publication.PublishedDerivesTables` | python/spectra_vs/src/spectra_vs/ground.py:686-754 | It does when no seeded fact is headed by an instance with a body. |
| `Publication.SeededCycleIsLost` | python/spectra_vs/src/spectra_vs/ground.py:711-723 | When every instance heading either of two facts stands on the other, beside whatever else, the published program derives neither under any cut. |
| `Publication.SeededFactLost` | python/spectra_vs/src/spectra_vs/ground.py:711-723 | Two rules the loader accepts and three seeded facts whose fixpoint, published, loses a seeded fact. |
| `WitnessLists.Placer.Place` | python/spectra_vs/src/spectra_vs/cert.py:1010-1021 | Appending, placing the children and patching their indices lays the tree out at the end of the shared list. |
| `WitnessLists.Flatten` | python/spectra_vs/src/spectra_vs/cert.py:1002-1024 | The published list is the layout of the tree at index zero. |
| `WitnessLists.CheckNodeList` | frontend/src/witness.js:50-84 | Accepts exactly the lists that keep the four rules and returns each node's one parent; otherwise reports the first rule the scan finds broken. |
| `WitnessLists.NodeDepths` | frontend/src/witness.js:95-102 | One forward sweep gives every node its parent's depth plus one. |
| `WitnessLists.BuildWitnessTree` | frontend/src/witness.js:114-126 | One linked entry per node; the entries below the root spell out the tree the list encodes. |
| `WitnessLists.Preorder` | frontend/src/witness.js:136-145 | The lines follow the rebuilt tree's pre-order, each with its own node and depth, each index once. |
| `WitnessLists.FlattenedIsWellShaped` | python/spectra_vs/src/spectra_vs/cert.py:1002-1008 | Every flattened tree keeps the four rules. |
| `WitnessLists.RoundTrip` | frontend/src/witness.js:114-145 | Reading a flattened tree gives back that tree, in the published order. |
| `WitnessLists.PreorderIsPermutation` | frontend/src/witness.js:16-28 | Pre-order over any accepted list visits each index exactly once. |
| `WitnessLists.ReprintRenumbers` | python/spectra_vs/src/spectra_vs/cert.py:1002-1024 | Printing a rebuilt tree prints the list renumbered along its pre-order. |
| `WitnessLists.PublishedOrderIff` | frontend/src/witness.js:128-131 | Pre-order is the published order, and printing gives the list back, exactly when each node's children start one after the other right behind it. |
| `WitnessLists.AcceptedOutOfOrder` | frontend/src/witness.js:128-131 | An accepted list whose pre-order is not the published order. |
| `WitnessLists.SilentAgrees` | frontend/src/witness.js:158-175 | The printer's silent test on the tree and the reader's count on the list agree. |
| `Sorting.CheckStrictlyAscending` | python/spectra_core/src/spectra_core/canon.py:428-446 | Comparing neighbours decides whether every earlier element is below every later one. |
| `Canon.EncodeLeb128` | python/spectra_core/src/spectra_core/canon.py:244-264 | The byte loop computes the LEB128 form and refuses negative numbers. |
| `Canon.Leb128IsMinimal` | python/spectra_core/src/spectra_core/canon.py:247-250 | No byte string that denotes the number is shorter, and only strings padded with a zero byte differ from it. |
| `Canon.Leb128Denotes` | python/spectra_core/src/spectra_core/canon.py:244-264 | The encoding denotes the number it encodes. |
| `Canon.Leb128Decodes` | python/spectra_core/src/spectra_core/canon.py:244-264 | One encoded number is never the beginning of another. |
| `Canon.Leb128SeqDecodes` | python/spectra_core/src/spectra_core/model.py:1201-1208 | A corridor's rank vector can be read back off its preimage, whatever follows. |
| `Canon.BlobDecodes` | python/spectra_core/src/spectra_core/canon.py:301-311 | A length-prefixed field ends where its prefix says. |
| `Canon.IdSeqDecodes` | python/spectra_core/src/spectra_core/canon.py:333-342 | A counted sequence of fields can be cut apart in one way only. |
| `Canon.InstancePayloadDecodes` | python/spectra_core/src/spectra_core/model.py:893-914 | Two instances share a preimage only when body, evidence, head, licences and rule all agree. |
| `Canon.Pairs` | python/spectra_core/src/spectra_core/canon.py:362-375 | Encodes exactly the maps whose keys are distinct and fit, their entries ascending by encoded key, byte by byte; a duplicate key is an error. |
| `Canon.PairsIdentifyEntries` | python/spectra_core/src/spectra_core/canon.py:362-375 | Two maps have the same bytes exactly when they hold the same entries, in whatever order. |
| `Degrade.KeepMonotone` | python/spectra_vs/src/spectra_vs/degrade.py:173-175 | A lower completeness never keeps more of a population. |
| `Degrade.DeletionsNest` | python/spectra_vs/src/spectra_vs/degrade.py:1080-1082 | What a higher completeness deletes is a prefix of what a lower one deletes. |
| `Degrade.DegradationDeletesSmallest` | python/spectra_vs/src/spectra_vs/degrade.py:714-722 | Of one source, every record deleted has a smaller deletion key than every record kept. |
| `Degrade.DeletionIgnoresOrder` | python/spectra_vs/src/spectra_vs/degrade.py:1080-1082 | The deletion order depends on which records there are, not on how they are listed. |
| `Degrade.KeepsTheFloor` | python/spectra_vs/src/spectra_vs/degrade.py:714-722 | Each source keeps exactly the floor of its share. |
| `Degrade.ParentIsContained` | python/spectra_vs/src/spectra_vs/degrade.py:742-747 | At one stream and seed the lower level deletes a superset and its survivors are a subset. |
| `Degrade.SplitSources` | python/spectra_vs/src/spectra_vs/degrade.py:703-722 | Source by source, the records go to the side their deletion order puts them, unless a source numbers two alike. |
| `Degrade.Degrade` | python/spectra_vs/src/spectra_vs/degrade.py:682-757 | Survivors and deletions partition the stream, and the outcome is decided for any parent: a reused number, a parent not higher, a changed seed, or a parent deletion this level keeps; a genuine parent never violates nesting. |
| `ChainForge.Locate` | python/spectra_vs/src/spectra_vs/degrade.py:958-1005 | Each refusal is due; otherwise the host and its successor are found with room between them. |
| `ChainForge.Forge` | python/spectra_vs/src/spectra_vs/degrade.py:931-1061 | The returned stream is the fabricated records in the gap plus the original with later numbers shifted, in order; numbers were distinct; the resealed list is exact. |
| `ChainForge.InsertedDistinct` | python/spectra_vs/src/spectra_vs/degrade.py:1048-1051 | Numbers are distinct after the forgery exactly when they were before. |
| `ChainForge.InstantsFillGap` | python/spectra_vs/src/spectra_vs/degrade.py:936-941 | Fabricated instants ascend strictly, strictly inside the gap. |
| `ChainForge.InstantsAreEven` | python/spectra_vs/src/spectra_vs/degrade.py:1001-1008 | They are evenly spaced by the greatest whole step that fits. |
| `ChainForge.ForgeryKeepsDense` | python/spectra_vs/src/spectra_vs/degrade.py:502-508 | A source without holes in its numbering has none afterwards. |
| `ChainForge.ForgeryKeepsTimeOrder` | python/spectra_vs/src/spectra_vs/degrade.py:936-941 | Times that follow the numbering still do. |
| `ChainForge.ForgeryUndone` | python/spectra_vs/src/spectra_vs/degrade.py:518-523 | Dropping the forged rows and numbering back recovers the stream in stream order, itself if it came in order; other sources are untouched. |
| `Calibrate.MeetsIffShared` | python/spectra_vs/src/spectra_vs/calibrate.py:273-279 | An exclusion meets a closed span exactly when they share an instant, or it is empty and lies after the span's start; a gap of no length at its end is kept. |
| `Calibrate.CheckPhases` | python/spectra_vs/src/spectra_vs/calibrate.py:295-310 | Accepts exactly the ascending, non-overlapping timelines with distinct regimes. |
| `Calibrate.RegimeOfPhase` | python/spectra_vs/src/spectra_vs/calibrate.py:282-292 | An instant has a phase's regime exactly when it lies in the phase. |
| `Calibrate.GapIsWithinPhase` | python/spectra_vs/src/spectra_vs/calibrate.py:391-403 | A gap counts for a phase's regime exactly when both ends are in the phase and no exclusion meets it. |
| `Calibrate.FindGapVectors` | python/spectra_vs/src/spectra_vs/calibrate.py:369-407 | One sorted vector for exactly the regimes that have a gap; the error for descending times cannot occur. |
| `Calibrate.GapsFitPhase` | python/spectra_vs/src/spectra_vs/calibrate.py:381-385 | The gaps of a regime add up to less than its phase. |
| `Calibrate.GapsIgnoreOrder` | python/spectra_vs/src/spectra_vs/calibrate.py:365-366 | The gaps depend on the instants alone, whatever order the events come in. |
| `Calibrate.QExact` | python/spectra_vs/src/spectra_vs/calibrate.py:431-447 | Nothing for an empty vector, otherwise the least gap of the vector for which the share of gaps no longer than it reaches p/q. |
| `Calibrate.QuantileIsLeastReaching` | python/spectra_vs/src/spectra_vs/calibrate.py:431-438 | The gap at the clamped ceiling rank is the least one that reaches the share. |
| `Calibrate.QuantileMonotone` | python/spectra_vs/src/spectra_vs/calibrate.py:431-438 | A larger share never gives a smaller quantile. |

## Left out

- Digests, hash references and minted ids: only their preimages are modelled.
- Serialisation, file writing, TOML loading, argument parsing and the rendered documents.
- `AtomTable.build` and `ReachProgram.build` as constructors: what they verify is the predicate a well-formed table or program satisfies.
- `all_minimum_cuts`: the brute-force listing is represented by the predicate its members satisfy, `TieBreak.Candidate`.
- `_finish`: sorting the clauses by corridor id and rendering them; the search result keeps its clauses in learning order.
- The fixpoint step total of a search; reachability's own step count is proved.
- Timelines are taken as sorted and non-overlapping; the source checks only ascending starts.
- The order of facts inside an engine bucket is an abstract key, and the `when` guard and the event-absence answer of a rule are abstract predicates.
- The draw of silent bindings from the entity universe: the bindings are a parameter.
- Saturation.SaturatedIsLeastFixpoint: needs distinct and absence tests to scan only predicates no rule derives, because the code tests the current base; `Saturation.AbsenceIsNotMonotone` shows why.
- The ghost markings of facts and the engine's count of joined tuples: each step is stated, their totals over a run are not.
- Envelope.RunEnvelope: takes the observed tables from the engine that goes on to hold the licensed ones, where the source grounds them a second time; both are the same least fixpoint when uncapped and stratified.
- The sorted order in which blind spots and licences are returned: their contents are proved.
- Witness node kinds and evidence are labels carried through; that a kind matches its instance is not modelled.
- `assert_ghost_support`, corridor prose, goal candidates and verdict rendering.
- Blackout, backdate and identity stripping: one filter or one rewritten record each.
- `Canon`: text normalisation and character encodings; keys and values are the octets they encode to, and over-long single fields are excluded by a precondition outside `Canon.Pairs`.
- Degrade.Degrade: the reduced form of the completeness rational is not modelled; only its value matters to deletion.
- ChainForge.Forge: sequence numbers are unbounded, so the width check of a renumbered record is not modelled.
- The generator, the claims linter, the demo, the page that draws the tree, and the empty packages of other languages.
