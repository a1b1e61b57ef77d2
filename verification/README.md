# Planning the electrical connection of buildings

This project models the repair planner of a network of electrical cable segments. Each building is fed by one or more segments, and a segment may feed several buildings.

**Entities.** A segment (`Infra`) has a length, a material and a state: `"a_remplacer"` until it is repaired, then `"infra_intacte"`. Its material fixes a cost and a duration per metre. A building (`Batiment`) holds references to its segments. Its cost, duration and difficulty are sums over the segments that still need replacing. Its priority score is `base(type) * 10000 + sub-score`, and a lower score is more urgent. Repairing a building repairs every segment it references. Segments are shared objects, so that repair also changes what every other building on the same segments reports.

**Greedy planners.** The planner exists in three versions. Each one builds one shared segment object per segment id and one building per building id. It sets aside the buildings that need nothing. Then, while buildings remain, it sorts them, pops the most urgent, records an entry for it and repairs it.
- `planifier_reparations` orders buildings by priority score.
- The two standalone scripts order buildings by difficulty: the length per house served, infinite for a segment serving no house.
  - Each building is billed only the segments it is the first to repair.
  - Hospitals get a 20 % time margin and a generator warning above 20 hours.
  - The phase number goes up after every tenth entry.

**Phases.** A second module sorts the plan by score. It puts hospitals in phase 0 and every other building into one of four cost slices: 40, 60, 80 and 100 % of the total cost. It then summarises each phase: the costs are summed, the duration is the longest one, and there are four workers per house.

**How the model works.**
- The loops are methods on heap objects: `Infra` and `Batiment` classes whose state field the methods update in place. Each method is proved equal to a recursive specification function.
  - The specification is `Run`, a function of a ghost mirror of the network's state: a state per segment, or the set of segments still pending.
  - The lemmas state the planner's promises about `Run`.
- Arithmetic is exact (`real`). `np.inf` is the `Inf` constructor of `ExtReals.ExtReal`.
- Python's stable `list.sort()` driven by `<` is an insertion sort (`Lists.Sort`). It is proved to put first the first element that no other element beats.
- Several methods are called by the sources but defined in none of the modelled files. They are total functions passed in as parameters (`Planification.Externals`, `Phases.Figures`):
  - `get_building_houses`, `get_total_cost`, `get_real_duration`;
  - `get_priority_ratio`/`last_score`;
  - `Infra.get_infra_difficulty` for `Batiment.py`.

Modules, by file:
- `extreal.dfy`: `ExtReals`, finite reals plus infinity.
- `text.dfy`: `Text`, the `lower`, `strip`, `join` and `split` that are used.
- `lists.dfy`: `Lists`, sort, pop-the-minimum, `unique` and string order.
- `infra.dfy`: `Infras`, for Infra.py.
- `batiment.dfy`: `Batiments`, for Batiment.py.
- `phases.dfy`: `Phases`, for raccordement_phase.py.
- `planification.dfy`: `Planification`, for planification_raccordement.py.
- `raccordement.dfy`: `Raccordement`, the objects of the two standalone scripts.
- `raccordement_loop.dfy`: `RaccordementLoop`, their planning loop.

## Model

| member | source | states |
|---|---|---|
| ExtReals.Add | raccordement-electrique.py:60 | float addition with `inf`: the sum is infinite iff one term is, otherwise it is the real sum |
| ExtReals.LessIsStrictWeakOrder | raccordement-electrique.py:62-63 | float `<` on finite values and `inf` is irreflexive, asymmetric and transitive, and its incomparability is transitive, so sorting by it is well defined |
| ExtReals.AddSplit | Batiment.py:19-25 | a term added to a sum can be moved into either part of it, `inf` included |
| Infras.RateOf | Infra.py:31-32 | `table.get(key, 0)`: the table's rate for a known material, 0 otherwise |
| Infras.Infra.constructor | Infra.py:23-29 | every attribute is the argument given |
| Infras.Infra.RepairInfra | Infra.py:35-37 | afterwards the state is `"infra_intacte"` whatever it was, so calling it again changes nothing; only the state field may change |
| Infras.Infra.GetInfraCost | Infra.py:8-12 | cost = length × 500, 750 or 900 for aerien, semi-aerien or fourreau; 0 for an unknown material; non-negative for a non-negative length |
| Infras.Infra.GetInfraDuration | Infra.py:14-18 | duration = length × 2, 4 or 5 hours; 0 for an unknown material; non-negative for a non-negative length |
| Infras.UnknownMaterialIsFree | Infra.py:31-32 | a segment of unknown material has cost 0 and duration 0 |
| Batiments.BasePriority | Batiment.py:6-10 | base priority 1 for a hospital (and only for one), 2 for a school, 3 for housing, 4 for any type outside the table |
| Batiments.Batiment.constructor | Batiment.py:12-15 | the stored type is the given type lower-cased then stripped; the id and segment list are kept as given |
| Batiments.Batiment.Repair | Batiment.py:48-51 | afterwards every referenced segment is `"infra_intacte"`, nothing is pending, and cost, duration and difficulty are all 0 |
| Batiments.NothingPendingIsZero | Batiment.py:19-44 | a building with no segment still `"a_remplacer"` (or no segment at all) reports cost 0, duration 0 and difficulty 0 |
| Batiments.RepairSplitsCost | Batiment.py:30-36 | repairing a set of segments lowers a building's cost by exactly the cost of its pending segments in that set; the rest is unchanged |
| Batiments.RepairSplitsDuration | Batiment.py:38-44 | the same for the duration |
| Batiments.RepairSplitsDifficulty | Batiment.py:19-25 | the same for the difficulty, infinite values included |
| Batiments.CategoryDominates | Batiment.py:62-72 | when both sub-scores are in [0, 10000), a smaller base priority gives a strictly smaller score |
| Batiments.CostRaisesScore | Batiment.py:69 | with the same base, finite difficulty and duration, a larger remaining cost gives a strictly larger score |
| Batiments.InfiniteDifficultyHidesCost | Batiment.py:69-72 | with an infinite difficulty the score is infinite, so cost no longer separates two such buildings |
| Batiments.LtIsStrictOrder | Batiment.py:75-77 | between comparisons that see the same states, `__lt__` is irreflexive and transitive |
| Text.LowerSpec | Batiment.py:14 | `lower()` maps each character on its own and leaves no upper-case letter |
| Text.StripLeftSpec | Batiment.py:14 | the left strip removes exactly the leading white space |
| Text.StripRightSpec | Batiment.py:14 | the right strip removes exactly the trailing white space |
| Text.NormalizeStable | planification_raccordement.py:80-82 | the type is normalised by the planner and again by `Batiment`; the second normalisation changes nothing, and lower-then-strip equals strip-then-lower |
| Text.Find | raccordement-electrique-2.py:200 | the first occurrence of the separator, or the end of the string |
| Text.SplitJoin | raccordement-electrique-2.py:144 | splitting on `", "` a non-empty list of ids joined with `", "`, none containing the separator, gives the list back |
| Text.SplitJoinEmpty | raccordement-electrique-2.py:200 | an empty list of ids joins to `""`, which splits to one empty id |
| Lists.Sort | planification_raccordement.py:101 | the sorted list is a permutation of the list |
| Lists.SortIsSorted | planification_raccordement.py:101 | under a strict weak order the result is sorted: no element is below one placed before it |
| Lists.SortHead | planification_raccordement.py:101-104 | the head popped after the sort is the first minimal element of the unsorted list |
| Lists.FirstMinIsFirstMinimal | planification_raccordement.py:101-104 | that element is minimal and strictly below every element in front of it |
| Lists.PopFirstMin | raccordement-electrique.py:100-101 | `sort(); pop(0)` with fixed keys takes an element of least key, strictly below every key in front of it, and leaves the others |
| Lists.Distinct | planification_raccordement.py:81 | `unique()`: the same elements, without repeats |
| Lists.DistinctOrder | planification_raccordement.py:81 | `unique()` keeps the order of first appearance: an element placed before another first occurs earlier in the input |
| Lists.LexLessIsStrictWeakOrder | planification_raccordement.py:79 | the string order `groupby` sorts its keys by is a strict order |
| Phases.Bucket | raccordement_phase.py:77-84 | the phase of a running cost is the first of the 40/60/80 % slices it fits in, else 4; it is above every earlier threshold |
| Phases.BucketMonotone | raccordement_phase.py:77-84 | a larger running cost never gives an earlier phase |
| Phases.PhaseAt | raccordement_phase.py:72-84 | a row's phase is 0 exactly for a hospital, otherwise one of 1-4 |
| Phases.AssignPhases | raccordement_phase.py:55-89 | the result holds the rows of the plan (a permutation), sorted by score, each with the phase of its position |
| Phases.PhaseRows | raccordement_phase.py:69-84 | the loop with its running `cum_cost` gives each sorted row the phase `PhaseAt` defines |
| Phases.SortedRows | raccordement_phase.py:56 | the stable sort by score is one of the orders `sort_values` may give: a sorted permutation |
| Phases.TotalCostPermutation | raccordement_phase.py:57 | the thresholds do not depend on the order of the rows |
| Phases.CumCostGrows | raccordement_phase.py:76 | with non-negative costs, the running cost never decreases |
| Phases.PhasesNonDecreasing | raccordement_phase.py:56-84 | with non-negative costs, phases never go down along the sorted rows that are not hospitals |
| Phases.CumCostBelowTotal | raccordement_phase.py:57-76 | with non-negative costs, the running cost stays between 0 and the total cost |
| Phases.PhaseNumbers | raccordement_phase.py:98 | `sorted(unique())`: every phase of the plan and no other, each once, in increasing order |
| Phases.RowsInOrder | raccordement_phase.py:99 | the filter keeps row order: the rows of a phase in `a + b` are those of `a` followed by those of `b` |
| Phases.RowsInSpec | raccordement_phase.py:99 | the rows of phase p are exactly the rows marked p |
| Phases.PhaseCostsAddUp | raccordement_phase.py:98-118 | the phase costs add up to the cost of the whole plan: each row is counted in exactly one phase |
| Phases.CostOverStep | raccordement_phase.py:110-118 | a row adds its cost to the one phase it belongs to |
| Phases.PhaseDurationIsMax | raccordement_phase.py:106-119 | the phase duration is ≥ 0 and ≥ every row's duration, and it is either 0 or one of them |
| Phases.PhaseWorkersPerHouse | raccordement_phase.py:113-120 | the phase's workers are 4 × its houses |
| Phases.SummarizePhase | raccordement_phase.py:99-120 | the three accumulators of one phase equal its summary; a `KeyError` exactly when a row of the phase has a building missing from the dictionary, naming the first such row in row order |
| Phases.ExecutePhases | raccordement_phase.py:95-132 | one summary per phase number in increasing order; a `KeyError` exactly when a row's building is missing from the dictionary, naming the first missing row of the first phase that has one, every row of an earlier phase having its building |
| Phases.SummarizeAll | raccordement_phase.py:98-130 | the loop over the phase numbers: all summaries when every phase is complete, otherwise it stops at the first incomplete phase with the `KeyError` of its first missing row |
| Phases.EarlierPhases | raccordement_phase.py:98 | with increasing phase numbers that cover the plan, the phases visited before `p` are exactly the phases below `p` |
| Planification.FirstIndex | planification_raccordement.py:66-68 | the first row with a segment id: no earlier row has it, and it exists when the id occurs |
| Planification.GroupKeysIncreasing | planification_raccordement.py:79 | every building id of the table is a group key, and the keys are strictly increasing |
| Planification.SegmentIdsOf | planification_raccordement.py:81 | a building's segment ids come from its rows, without repeats |
| Planification.GroupComplete | planification_raccordement.py:79 | every row of a building is in its `groupby` group |
| Planification.SegmentIdsComplete | planification_raccordement.py:81 | every segment id of a row of the building is one of its segment ids |
| Planification.SegmentIdsInRowOrder | planification_raccordement.py:81 | the segment ids come in the order they first appear among the building's rows |
| Planification.BuildInfras | planification_raccordement.py:65-75 | one fresh object per segment id, built from the id's first row, and no two ids share one |
| Planification.BuildBatiments | planification_raccordement.py:78-82 | one fresh building per group key in key order, with its normalised type and its segments looked up by id |
| Planification.NewBatiment | planification_raccordement.py:80-82 | the building of one group |
| Planification.BuiltNetwork | planification_raccordement.py:69-81 | the buildings' segments are the objects of step 1, in the state of their id's first row |
| Planification.Repaired | Batiment.py:48-51 | `repair()` on the state: the listed segments become `"infra_intacte"`, the others keep their state |
| Planification.HeapReadsScore | Batiment.py:55-72 | the score read from the heap is the score of the mirrored state |
| Planification.Intacts | planification_raccordement.py:85 | exactly the buildings with no house |
| Planification.ToRepair | planification_raccordement.py:86 | exactly the buildings with at least one house |
| Planification.Categorize | planification_raccordement.py:85-86 | the two lists read from the heap are `Intacts` and `ToRepair` of the current state |
| Planification.Select | planification_raccordement.py:101-104 | the building taken and the list left are the list, less one |
| Planification.SelectTakesMinimum | planification_raccordement.py:101-104 | the building taken has the least score in the current state and is strictly better than every building in front of it |
| Planification.RunShape | planification_raccordement.py:92-143 | one entry per building to repair; the buildings taken are a permutation of the list; phases are consecutive from the start value; each entry names its building |
| Planification.RunEntries | planification_raccordement.py:111-133 | the k-th entry is read in the state after the first k repairs, before its own; the final state is the one after all of them |
| Planification.RunSelectsMinimum | planification_raccordement.py:97-104 | the building taken at step k has the least score, in the state of step k, among those not yet taken |
| Planification.RunRepairs | planification_raccordement.py:133 | at the end every segment of a building taken is intact and every other segment keeps its state |
| Planification.ZeroHousesNeverScheduled | planification_raccordement.py:85-95 | a building with no house is never scheduled |
| Planification.ScoreKeys | planification_raccordement.py:97-98 | the scores read from the heap are those of the mirrored state |
| Planification.RecordEntry | planification_raccordement.py:111-129 | the entry read from the heap before the repair is `EntryOf` in the current state |
| Planification.RepairMirrored | planification_raccordement.py:133 | `best.repair()` moves the heap and its mirror together |
| Planification.Turn | planification_raccordement.py:95-143 | one turn moves the building taken, and its entry, from the rest of `Run` to what is done |
| Planification.RepairLoop | planification_raccordement.py:92-143 | the loop records the plan of `Run` and leaves the segments in the state `Run` ends with |
| Planification.Schedule | planification_raccordement.py:84-148 | steps 3-5 on the built buildings: both lists, the plan and the end state are those of `Run` from the initial heap, and the totals are the sums over the plan |
| Planification.PlanifierReparations | planification_raccordement.py:54-155 | the whole function: the segment table of step 1, one building per group key built from that table, and the lists, plan, end state and totals of `Run` from the table's states |
| Raccordement.Infra.constructor | raccordement-electrique.py:35-43 | a segment starts repaired exactly when its state is `"infra_intacte"` |
| Raccordement.Infra.GetInfraDifficulty | raccordement-electrique.py:45-48 | infinite iff the segment serves no house, otherwise length ÷ houses |
| Raccordement.Infra.RepairInfra | raccordement-electrique.py:50-51 | afterwards the segment is repaired; nothing else changes |
| Raccordement.NothingPendingIsEasy | raccordement-electrique.py:59-60 | a building with no unrepaired segment has difficulty 0 |
| Raccordement.InfiniteDifficulty | raccordement-electrique.py:45-48 | a building is infinitely difficult iff one of its unrepaired segments serves no house |
| Raccordement.DifficultyNonNegative | raccordement-electrique.py:59-60 | with non-negative lengths and houses the difficulty is non-negative |
| Raccordement.Batiment.constructor | raccordement-electrique.py:54-57 | the type is kept as given |
| Raccordement.LtIsStrictOrder | raccordement-electrique.py:62-63 | `__lt__` is irreflexive and transitive in one state |
| Raccordement.DropDuplicates | raccordement-electrique.py:26 | the rows kept come from the table |
| Raccordement.DropDuplicatesSpec | raccordement-electrique.py:26 | every (segment, building) pair keeps a row, and no pair keeps two |
| Raccordement.LastIndex | raccordement-electrique.py:68-79 | the last row with a segment id: no later row has it, and it exists when the id occurs |
| Raccordement.BuildInfras | raccordement-electrique.py:68-79 | one fresh object per segment id, built from the id's LAST row (each row overwrites), no two ids sharing one, repaired exactly when intact |
| Raccordement.BuildBatiments | raccordement-electrique.py:81-84 | one fresh building per group key in key order, with its first row's type and its segments looked up by id |
| Raccordement.NewBatiment | raccordement-electrique.py:83-84 | the building of one group |
| RaccordementLoop.HeapReadsDifficulty | raccordement-electrique.py:59-60 | the difficulty read from the heap is the difficulty of the mirrored pending set |
| RaccordementLoop.DifficultyLocal | raccordement-electrique.py:59-60 | a building's difficulty depends only on which of its own segments are pending |
| RaccordementLoop.SplitMembers | raccordement-electrique.py:94-95 | `phase_0` holds exactly the buildings with nothing pending and `to_repair` exactly the others |
| RaccordementLoop.SplitIsPartition | raccordement-electrique.py:94-95 | together the two lists hold each building exactly as often as the list does |
| RaccordementLoop.PendingInToRepair | raccordement-electrique.py:94-95 | every pending segment belongs to a building to repair |
| RaccordementLoop.BillSpec | raccordement-electrique-2.py:126-132 | a building is billed exactly its segments pending at selection, each once, in the order they first appear in its list, with at most 4 workers per segment |
| RaccordementLoop.NothingPendingIsFree | raccordement-electrique.py:105-110 | a building with nothing pending is billed nothing |
| RaccordementLoop.HospitalMargin | raccordement-electrique.py:112-117 | a hospital's time is × 1.2; the warning is raised iff a hospital's time exceeds 20 h; cost = material + 37.5 × time |
| RaccordementLoop.ZeroEntry | raccordement-electrique-2.py:126-148 | a building whose segments were all repaired earlier has difficulty 0 and still gets an entry, with no id, no cost, no time and no worker |
| RaccordementLoop.InfraRepareesRoundTrip | raccordement-electrique-2.py:144 | the `Infra_reparees` string splits back into the ids repaired, when there is one or more and none contains `", "` |
| RaccordementLoop.PhaseCounter | raccordement-electrique-2.py:117-151 | the first entry is in phase 1, and the phase goes up by one exactly when the number of entries before is a multiple of 10 |
| RaccordementLoop.PlanAppend | raccordement-electrique.py:118-127 | appending a turn appends its entry stamped with the current phase |
| RaccordementLoop.Select | raccordement-electrique.py:100-101 | the building taken and the list left are the list, less one |
| RaccordementLoop.SelectTakesMinimum | raccordement-electrique.py:100-101 | the building taken is the least difficult, strictly less difficult than every building in front of it |
| RaccordementLoop.RunShape | raccordement-electrique.py:99-127 | one turn per building to repair, each for the building taken; the buildings taken are a permutation of the list |
| RaccordementLoop.RunEntries | raccordement-electrique-2.py:118-148 | the k-th turn sees pending exactly the segments no earlier building has; at the end only segments of no building taken are pending |
| RaccordementLoop.RunSelectsMinimum | raccordement-electrique-2.py:118-120 | the building taken at step k is the least difficult, in the state of step k, among those not yet taken |
| RaccordementLoop.EntryBillsBatch | raccordement-electrique-2.py:126-132 | the k-th entry bills exactly the pending segments of its building that no earlier building has, each once |
| RaccordementLoop.BatchesDisjoint | raccordement-electrique.py:105-108 | no segment is billed by two entries |
| RaccordementLoop.BatchesCover | raccordement-electrique-2.py:113-132 | every initially pending segment of a building taken is billed by some entry |
| RaccordementLoop.EverythingRepaired | raccordement-electrique.py:94-107 | when the loop ends no segment of any building is pending |
| RaccordementLoop.Classify | raccordement-electrique.py:94-95 | the two lists read from the heap are `Phase0` and `ToRepair` of the mirrored state |
| RaccordementLoop.DifficultyKeys | raccordement-electrique.py:100 | the difficulties the sort compares, read from the heap, are those of the mirrored state |
| RaccordementLoop.RepairAndBill | raccordement-electrique-2.py:121-132 | the inner loop bills what `BillOf` bills, returns the ids repaired, and the heap and its mirror move together |
| RaccordementLoop.WorkFor | raccordement-electrique-2.py:121-148 | the turn filled in by the loop body is `WorkOf` in the current state |
| RaccordementLoop.Turn | raccordement-electrique-2.py:118-148 | one turn moves the building taken, and its turn, from the rest of `Run` to what is done |
| RaccordementLoop.RepairLoop | raccordement-electrique-2.py:117-151 | the entries are the turns of `Run` stamped with the phase counter; the heap ends in `Run`'s end state |
| RaccordementLoop.InitialMirror | raccordement-electrique.py:43 | every segment of a building starts repaired exactly when it is intact |
| RaccordementLoop.Planifier | raccordement-electrique-2.py:37-151 | the whole script: the segment table of the de-duplicated rows, one building per group key built from it, both lists of the initial state, the plan of `Run`, and every segment repaired at the end |

## Left out

- Reading the Excel and shape files, every `print`, the warning text, the plots, the maps and the Excel exports are left out. The hospital warning is a boolean of the entry. The map sections of both scripts are not modelled either (raccordement-electrique.py:147-164, raccordement-electrique-2.py:170-255), except the `split(", ")` of line 200.
- `analyser_csv` and `visualiser_phases` are left out. They only read a file, check its columns and plot.
- `pd.to_numeric(..., errors="coerce")` and NaN are left out: every number is an exact `real` or `int`. Floating-point rounding and `round(..., 2)` are left out too.
- The DataFrame writes of `infra_type` in `planifier_reparations` (lines 108 and 137) are left out. They only report; the loop never reads them back.
- The script totals after the export and the per-phase `groupby` sums of both scripts are left out (raccordement-electrique.py:140-145, raccordement-electrique-2.py:161-168).
- Externals: `get_building_houses`, `get_total_cost`, `get_real_duration`, `get_priority_ratio`/`last_score` and `Infra.get_infra_difficulty` are not defined in any modelled file. They are arbitrary total functions of the building and of its segments' states (`Planification.Externals`, `Phases.Figures`), so nothing is assumed about them.
- Planification.RunSelectsMinimum: in `planifier_reparations`, `sort()` compares `get_priority_score`, and the `get_priority_ratio()` calls only refresh `last_score`. The score is read from the states and the `difficulty` external. `last_score` is an external of the state.
- Phases.AssignPhases: `sort_values` is not stable, so the contract promises only a score-sorted permutation. The order of rows with equal scores is left open. The method itself takes the stable order.
- Phases.ExecutePhases: the source prints the summaries, and the model returns them.
- RaccordementLoop.Planifier: the first script (raccordement-electrique.py) has the same loop without the `Infra_reparees` column. It is modelled by the second script's loop, and its entries are those entries without that field.
- `if iid in infras_dict` in step 2 of both scripts (and `if i in infra_dict` in `planifier_reparations`) always holds, since every row's id was stored in step 1. The model looks ids up directly and proves they are present.
- Raccordement.DropDuplicates: the contract states which pairs are kept, not that the first row of each pair is the one kept.
- RaccordementLoop.BatchesDisjoint: disjointness is stated over segment objects. In script 1, two objects with the same id cannot both be reachable, because step 1 keeps one object per id.
- Batiments.CostRaisesScore: it needs a finite difficulty. With an infinite difficulty the score is infinite and cost no longer counts (`Batiments.InfiniteDifficultyHidesCost`).
- `Infra.__repr__` and `Batiment.__repr__` are left out. They only format text.
- Text.LowerSpec: lower-casing covers only the ASCII capitals and the Latin-1 capitals U+00C0..U+00DE (without U+00D7), one character for one. Python's `str.lower()` covers all of Unicode, for example U+0152 to U+0153. It can also change the length: U+0130 becomes two characters. The model keeps the length and leaves every other character unchanged.
- Batiments.Batiment.constructor: the stored type is lower-cased by `Text.Lower`, so a type with a capital outside that range keeps it. The same limit applies to `Planification.GroupType` and to the hospital test of both scripts (`RaccordementLoop.IsHospital`). For the types the priority table names, and for their ASCII and Latin-1 capitalisations, the result is the same as Python's.
